# Crypto importer core, modelled in Dafny

This project models the core of a crypto transaction importer. The importer
reads exchange and wallet data, either from CSV exports or from exchange
APIs. It turns every record into a canonical transaction (`Txn`), drops
transactions dated before the configured cutoffs, and deduplicates them
within a run. The surviving transactions are then published to the ledger.

The model covers these parts:

- **Amount cleaning** (`config/initializers/clean_d.rb`): `clean_d` and
  `to_boolean` on nil, integers, decimals and strings. `String#clean_d` is
  modelled twice. `CleanValue` is its specification. `CleanString` rewrites
  a working copy step by step, including the dot-removal `while` loop, and
  is proved equal to it.
- **The canonical transaction** (`adapters/txn.rb`):
  - `initialize`, which normalises the amounts, drops nil legs and short
    txhashes, and derives the type from the currencies;
  - every validator, each in declaration order with its messages;
  - the `v1:` unique hash and its pre-image of non-blank identity pairs.
- **The adapters** (`adapters/base_adapter.rb`, `csv_adapter.rb`,
  `api_adapter.rb`):
  - `BaseAdapter` is a class. It holds the pending list and the
    duplicate-hash registry (a map from group to a set of hashes).
  - `sync_txn` is modelled twice: as a function over the run state
    (`SyncTxnSpec`), and as the class's `SyncTxn` method, which is proved
    equal to it.
  - The run invariant: no two pending transactions of one type share an
    external-id key, and every pending key is recorded.
  - The CSV and API adapters wrap a `BaseAdapter` and add their `commit!`
    payloads. The API adapter marks every appended transaction as synced.
- **Transaction errors** (`errors/txn_error.rb`): the message is a plain
  string, or the full messages of the validation errors joined with ", ".
- **The CSV import service** (`services/csv_import_started.rb`):
  - the mapper registry, which raises on a duplicate id or when it is empty;
  - ranking of the candidate mappings by score;
  - the `handle_payload` decision chain: processing failed, too many rows,
    unknown CSV, ask for a mapping id on a tie, ask for required options,
    mapping error, or import with the chosen mapper.
- **Two mappers** (`mappers/coinsmart_mapper.rb`,
  `mappers/coinmetro_mapper.rb`): their mapping tables, their grouping
  lambdas, and Coinsmart's in-place `parse_row`.
- **The importer base** (`importers/base_importer.rb`):
  - `decimalize` and the missing-options validation;
  - the start-date cutoffs, the `tag` memoised on the importer class and `add_known_market`;
  - dropping nil balances.
- **The snapshot formatter** (`spec/support/snapshot_formatter.rb`):
  - `CurrencyValue.build`, its equality, and `fiat?`;
  - `FakeTxn` and its legacy types and fee rules;
  - `group_transactions`, which merges groups of deposits and withdrawals;
  - `add_to_wallets`, the per-wallet balances, and the API balance diff.

The collaborators that the core calls but that are not part of this model
are parameters of the functions that use them. These include:

- `TxnHelper.normalize_date`, `normalize_amount`, `normalize_hash` and
  `FIATS`;
- `to_json` and MD5;
- `Time.parse`;
- the mappers' `confidence_score` and `prepare_and_set_file`;
- the current time and "one year from now".

Ruby's string order, `group_by`, `select`/`reject` and sums are defined in
the helper modules `StringOrder` and `Enumerables`. They live there so that
their properties are proved once.

Some behaviour of the code is easy to miss, and the model keeps it as written:

- The duplicate check keys an external id by the id, the currency and (for
  trades) the txhash. Keys are kept per transaction type. A repeated key
  raises in the test environment only when no pending transaction has the
  same external id and external data, and the ignore flag is not set.
  Otherwise the repeat is skipped silently.
- `allow_external_id` ends in `|| true`
  (`lib/crypto_importers/adapters/base_adapter.rb:84`). So the
  "external_id not allowed" error can never be raised, and the model has
  no such failure (`BaseAdapters.AllowExternalId`).
- Every group is merged, including groups of one member. A one-member
  group is a copy of that member.

## Model

| member | source | states |
|---|---|---|
| CleanD.CleanAny | config/initializers/clean_d.rb:1-90 | nil cleans to 0; an integer or decimal cleans to its own value; a string cleans to the value of its rewritten text |
| CleanD.CleanString | config/initializers/clean_d.rb:73-90 | the step-by-step rewrite, with its dot-removal loop, yields the value of the cleaned string; a blank string gives 0; more than one exponent mark or an exponent above 100 gives 0 |
| CleanD.RemoveFirst | config/initializers/clean_d.rb:79 | `sub!('.', '')` lowers the count of dots by exactly one, and leaves a string without a dot unchanged |
| CleanD.KeepLastDotRemoveFirst | config/initializers/clean_d.rb:79 | one turn of the dot loop does not change the string the loop ends with |
| CleanD.KeepLastDotShape | config/initializers/clean_d.rb:79 | the loop leaves exactly one dot when there was any (none otherwise), and keeps every other character in order |
| CleanD.KeepLastDotKeepsLast | config/initializers/clean_d.rb:79 | the dot that survives is the last one: everything before it loses its dots, and everything after it is kept as it is |
| CleanD.RunLength | config/initializers/clean_d.rb:85 | measures the maximal run of letters and spaces at the start of the string |
| CleanD.StripWordsNoAdjacentWordChars | config/initializers/clean_d.rb:85 | after the runs of two or more letters or spaces are removed, no two such characters are adjacent |
| CleanD.KeepNumeric | config/initializers/clean_d.rb:86 | the filter keeps only `-`, digits, `.`, `e` and `E`, and never lengthens the string |
| CleanD.LeadingDigits | config/initializers/clean_d.rb:88 | the exponent guard reads the longest run of digits after the mark |
| CleanD.ManyExponentMarksAreZero | config/initializers/clean_d.rb:87 | a cleaned string with more than one `e`/`E` gives 0 |
| CleanD.MinusOnlyWhenLeading | config/initializers/clean_d.rb:77 | U+2212 is replaced by `-` only when the string starts with it; otherwise the string is unchanged |
| CleanD.CommaRule | config/initializers/clean_d.rb:78 | with `comma_as_decimal` and no dot, every comma becomes a dot; otherwise nothing changes |
| CleanD.CommasStripped | config/initializers/clean_d.rb:78-86 | no comma survives the rewrite, whatever the flag |
| CleanD.ToBooleanStrings | config/initializers/clean_d.rb:92-94 | a string reads as false exactly when it is "0", or "f", "off" or "false" with each letter in either case; every other string reads as true |
| CleanD.ToBooleanIgnoresCase | config/initializers/clean_d.rb:92-94 | upcasing the ASCII letters of a string never changes how it reads |
| CleanD.ToBooleanExamples | config/initializers/clean_d.rb:92-94 | "OFF" and "False" are false; "no" and "2" are true |
| CleanDExamples.ExampleExtraDots | config/initializers/clean_d.rb:79 | "7.456.12345687" cleans to 7456.12345687: only the last dot survives |
| CleanDExamples.ExampleMoney | config/initializers/clean_d.rb:81-86 | "-$1,012.13" loses its dollar sign and comma and cleans to -1012.13 |
| CleanDExamples.ExampleExponent | config/initializers/clean_d.rb:82-89 | "-55e5" keeps its single exponent and cleans to -5500000 |
| CleanDExamples.ExampleUnit | config/initializers/clean_d.rb:83-89 | "1e-5 USD" loses its trailing unit and cleans to 0.00001 |
| CleanDExamples.ExampleName | config/initializers/clean_d.rb:84-89 | "89.612179480 Interzone" loses the name, its `e` included, and cleans to 89.61217948 |
| TxnModel.DeriveType | lib/crypto_importers/adapters/txn.rb:111-122 | transfer iff both legs are set and equal; trade iff both are set and differ; deposit iff only the to-leg is set; withdrawal iff only the from-leg is set; no type iff neither is set |
| TxnModel.KeptTxhash | lib/crypto_importers/adapters/txn.rb:104-105 | the txhash is kept iff it is present and longer than two characters once stripped |
| TxnModel.UnknownKeys | lib/crypto_importers/adapters/txn.rb:44-63 | exactly the params keys that are not declared attributes |
| TxnModel.NewTxn | lib/crypto_importers/adapters/txn.rb:79-125 | raises iff some params key is not an attribute, and reports those keys; otherwise the built txn |
| TxnModel.Build | lib/crypto_importers/adapters/txn.rb:79-125 | the built txn keeps both currencies, has the type they derive, and carries the unique hash of its own identity with the seed's presence |
| TxnModel.Abs | lib/crypto_importers/adapters/txn.rb:89-91 | the absolute value is non-negative and equals x or -x |
| TxnModel.CurrencyKey | lib/crypto_importers/adapters/txn.rb:248-257 | a currency hash contributes `{address, nft_token}` when its address is present, else its symbol; an array contributes its first element's key; anything else contributes itself |
| TxnModel.WalletKey | lib/crypto_importers/adapters/txn.rb:259-262 | a wallet hash contributes its service tag; anything else contributes itself |
| TxnModel.UniqCandidates | lib/crypto_importers/adapters/txn.rb:240-266 | one candidate pair per identity key, in the fixed key order |
| TxnModel.NonBlankPairs | lib/crypto_importers/adapters/txn.rb:268 | exactly the pairs whose value is not blank, and no more of them |
| TxnModel.UniqueHash | lib/crypto_importers/adapters/txn.rb:270 | "v1:" followed by the MD5 of the downcased JSON of the pre-image |
| TxnModel.ValidIffRules | lib/crypto_importers/adapters/txn.rb:65-77 | a txn has no validation errors exactly when it meets every rule: a type, a date within 2009 and one year from now, positive amounts and present currencies on the legs its type uses, transfers not gaining more than 1e-8 and staying in one currency, trades changing currency, amounts at most 10^15, and a label allowed for its type |
| TxnModel.BoundsFirstOffender | lib/crypto_importers/adapters/txn.rb:222-230 | the first amount (from, to, fee) above 10^15 is the only one reported; amounts of exactly 10^15 pass |
| TxnModel.NilDateErrors | lib/crypto_importers/adapters/txn.rb:232-234 | a nil date yields both "can't be blank" and "is invalid" |
| TxnModel.RealizedGainOnlyForDepositAndWithdrawal | lib/crypto_importers/adapters/txn.rb:35-42 | `realized_gain` is allowed exactly for deposits and withdrawals |
| TxnModel.LabelSetsAreLabels | lib/crypto_importers/adapters/txn.rb:14-42 | every per-type label set is drawn from the label list |
| TxnModel.FeePresenceNeverFails | lib/crypto_importers/adapters/txn.rb:69 | the fee-currency presence check, which runs only when the fee currency is present, never fails |
| TxnModel.BuildNormalizesAmounts | lib/crypto_importers/adapters/txn.rb:89-92 | the stored amounts are non-negative, and a zero fee clears the fee currency |
| TxnModel.BuildNetWorth | lib/crypto_importers/adapters/txn.rb:94-96 | the net worth currency survives only when a net worth amount was given |
| TxnModel.BuildDropsShortTxhash | lib/crypto_importers/adapters/txn.rb:104-105 | a txhash of at most two characters once stripped is dropped |
| TxnModel.TypeConsistentCurrencies | lib/crypto_importers/adapters/txn.rb:205-220 | for a derived type, transfers have equal currencies and trades different ones, so the same-currency checks never fire |
| TxnModel.UniqueHashIgnoresItself | lib/crypto_importers/adapters/txn.rb:240-271 | the unique hash does not depend on a previously stored unique hash |
| TxnModel.UniqueHashIgnoresNonIdentity | lib/crypto_importers/adapters/txn.rb:243-266 | fees, labels, descriptions and the other non-identity attributes never change the pre-image |
| TxnModel.LookupNonBlank | lib/crypto_importers/adapters/txn.rb:268 | after the blank filter, a key maps to its first non-blank value |
| TxnModel.UniqPairsLookup | lib/crypto_importers/adapters/txn.rb:240-268 | the pre-image holds each identity key's candidate value unless that value is blank |
| TxnModel.UniqPairsDetermineIdentity | lib/crypto_importers/adapters/txn.rb:244-268 | two txns with the same pre-image have the same date, type, amounts and external id |
| TxnModel.DateLookup | lib/crypto_importers/adapters/txn.rb:245 | the pre-image holds the date exactly when there is one |
| TxnModel.TypeLookup | lib/crypto_importers/adapters/txn.rb:245 | the pre-image holds the type's name exactly when there is a type |
| TxnModel.AmountLookups | lib/crypto_importers/adapters/txn.rb:245 | the pre-image always holds both amounts |
| TxnModel.ExternalIdLookup | lib/crypto_importers/adapters/txn.rb:265 | the pre-image holds the external id exactly when it is present |
| TxnModel.TypeNamesDistinct | lib/crypto_importers/adapters/txn.rb:7-12 | the four type names are pairwise distinct |
| TxnModel.CurrencyKeyReduction | lib/crypto_importers/adapters/txn.rb:250-253 | a currency hash reduces to its address pair or its symbol, and an array reduces like its hash |
| TxnErrors.NewTxnError | lib/crypto_importers/errors/txn_error.rb:4-12 | a string becomes the message with no txn; a txn or model contributes its errors, their joined full messages, and the txn itself when it is one |
| TxnErrors.FullMessages | lib/crypto_importers/errors/txn_error.rb:10 | one full message per error, in order |
| TxnErrors.Humanize | lib/crypto_importers/errors/txn_error.rb:10 | ActiveSupport's `humanize` of an attribute name: never longer than the name, no underscores, and no capital except a first letter, which is never lower-case |
| TxnErrors.FullMessage | lib/crypto_importers/errors/txn_error.rb:10 | an error on `:base` reads as its bare message; any other error reads as the humanized attribute (dots as underscores), a space, and the message |
| TxnErrors.MessageStartsWithFirstError | lib/crypto_importers/errors/txn_error.rb:10 | the message starts with the first error's full message, which is non-empty unless the error is on `:base` |
| TxnErrors.SingleErrorMessage | lib/crypto_importers/errors/txn_error.rb:10 | a single "date is invalid" error reads "Date is invalid" |
| TxnErrors.TwoWordErrorMessage | lib/crypto_importers/errors/txn_error.rb:10 | a single "from_amount is invalid" error reads "From amount is invalid" |
| TxnErrors.BaseErrorMessage | lib/crypto_importers/errors/txn_error.rb:10 | a single error on `:base` reads as its message alone |
| BaseAdapters.Record | lib/crypto_importers/adapters/base_adapter.rb:170-176 | after recording, the hash is seen in its group; exactly the old pairs and the new one are seen; recording a seen hash changes nothing |
| BaseAdapters.DuplicatesGroupIsNoType | lib/crypto_importers/adapters/base_adapter.rb:111-125 | the "duplicates" group never coincides with a type's group, so the two checks never see each other's keys |
| BaseAdapters.SkipTxn | lib/crypto_importers/adapters/base_adapter.rb:156-160 | raises iff a cutoff is set and the date is nil; skips iff the date is before the hard cutoff, or before the soft cutoff without the bypass |
| BaseAdapters.CheckConsumesMarker | lib/crypto_importers/adapters/base_adapter.rb:141-149 | a currency hash passes iff it carries the marker, and once checked it fails every later check |
| BaseAdapters.FirstInvalidCurrencyFrom | lib/crypto_importers/adapters/base_adapter.rb:97-100 | names the first currency field that is not a built currency, and none iff every field is valid |
| BaseAdapters.TxnAttributes | lib/crypto_importers/adapters/base_adapter.rb:83-94 | the option keys are removed; `importer_tag` defaults to the adapter's; every other attribute is unchanged |
| BaseAdapters.AllowExternalId | lib/crypto_importers/adapters/base_adapter.rb:84-85 | the guard always holds, so "external_id not allowed" is never raised |
| BaseAdapters.Prepare | lib/crypto_importers/adapters/base_adapter.rb:80-102 | skips exactly when the cutoffs say so; a prepared txn is dated at or after every cutoff that applies, and satisfies the validation rules |
| BaseAdapters.PrepareUnskipped | lib/crypto_importers/adapters/base_adapter.rb:83-102 | unknown attributes raise; success means every currency field is valid, the rules hold, and `unique:` is honoured |
| BaseAdapters.CheckBuilt | lib/crypto_importers/adapters/base_adapter.rb:97-102 | succeeds iff every currency field is valid and the txn, with `:valid` stripped, meets the rules; failures are TxnErrors |
| BaseAdapters.Appended | lib/crypto_importers/adapters/base_adapter.rb:166-168 | the appended txn is the given one, marked synced when the adapter marks txns so |
| BaseAdapters.ReceiveAttrs | lib/crypto_importers/adapters/base_adapter.rb:29-40 | with a currency, the amount and currency move to the to-leg; the label defaults to the deposit label |
| BaseAdapters.SendAttrs | lib/crypto_importers/adapters/base_adapter.rb:42-51 | with a currency, the amount and currency move to the from-leg; without one the params are unchanged |
| BaseAdapters.MoveLeg | lib/crypto_importers/adapters/base_adapter.rb:32-35 | moves `amount`/`currency` to the named leg only when the currency is present |
| BaseAdapters.TradeAttrs | lib/crypto_importers/adapters/base_adapter.rb:53-78 | a buy spends the quote and receives the base, a sell the reverse; the order and trade identifiers become txhash and external id |
| BaseAdapters.BaseAdapter.constructor | lib/crypto_importers/adapters/base_adapter.rb:5-12 | reads the start date, labels, tag and request id; starts with no pending txns and no recorded hashes |
| BaseAdapters.BaseAdapter.StartDate | lib/crypto_importers/adapters/base_adapter.rb:14-17 | the start date is the hard cutoff, never the soft one |
| BaseAdapters.BaseAdapter.ClearPending | lib/crypto_importers/adapters/csv_adapter.rb:34-44 | hands out the pending txns (all synced when the adapter marks them) and empties the list, keeping the recorded hashes |
| BaseAdapters.BaseAdapter.Duplicate | lib/crypto_importers/adapters/base_adapter.rb:170-176 | reports whether the hash was already recorded in its group, and records it |
| BaseAdapters.BaseAdapter.AddTxn | lib/crypto_importers/adapters/base_adapter.rb:166-168 | appends the txn, synced for the API adapter, and nothing else changes |
| BaseAdapters.BaseAdapter.CheckCurrencies | lib/crypto_importers/adapters/base_adapter.rb:97-100 | the loop finds the first invalid currency field, and none iff all are valid |
| BaseAdapters.BaseAdapter.SyncTxn | lib/crypto_importers/adapters/base_adapter.rb:80-129 | the outcome and new run state are those of the `sync_txn` function, and the run invariant is kept |
| BaseAdapters.BaseAdapter.PrepareTxn | lib/crypto_importers/adapters/base_adapter.rb:80-94 | the step-by-step preparation equals `Prepare` |
| BaseAdapters.BaseAdapter.BuildTxn | lib/crypto_importers/adapters/base_adapter.rb:83-102 | the attribute handling and build equal `PrepareUnskipped` |
| BaseAdapters.BaseAdapter.CheckBuiltTxn | lib/crypto_importers/adapters/base_adapter.rb:97-102 | the currency loop and validation equal `CheckBuilt` |
| BaseAdapters.BaseAdapter.DeduplicateAndAdd | lib/crypto_importers/adapters/base_adapter.rb:104-128 | the external-id check, unique check and append equal the deduplication function |
| BaseAdapters.BaseAdapter.AddUnlessDuplicate | lib/crypto_importers/adapters/base_adapter.rb:125-128 | the `unique:` check and append equal the unique-guard function |
| BaseAdapters.BaseAdapter.SyncReceive | lib/crypto_importers/adapters/base_adapter.rb:29-40 | a zero amount is skipped with no change; otherwise it syncs the receive attributes |
| BaseAdapters.BaseAdapter.SyncSend | lib/crypto_importers/adapters/base_adapter.rb:42-51 | a zero amount is skipped with no change; otherwise it syncs the send attributes |
| BaseAdapters.BaseAdapter.SyncAmount | lib/crypto_importers/adapters/base_adapter.rb:19-27 | a positive amount is received, a negative one sent, and zero changes nothing |
| BaseAdapters.BaseAdapter.SyncTrade | lib/crypto_importers/adapters/base_adapter.rb:53-78 | raises ArgumentError with no change when `is_buy` is missing; otherwise syncs the trade attributes |
| BaseAdapters.BaseAdapter.FindPendingTxn | lib/crypto_importers/adapters/base_adapter.rb:135-189 | returns the last pending txn that matches every condition of the query, compared with Ruby's `==`, and none iff no pending txn matches |
| BaseAdapters.RangeKindsDoNotMix | lib/crypto_importers/adapters/base_adapter.rb:180-188 | a range holds only values of its own kind: a numeric range never holds the date, and a time range never holds an amount |
| BaseAdapters.AmountQueryByNumber | lib/crypto_importers/adapters/base_adapter.rb:178-189 | an integer in a query matches a decimal amount of the same value, alone or inside an array of values |
| BaseAdapters.SymbolTypeQueryNeverMatches | lib/crypto_importers/adapters/base_adapter.rb:178-189 | a symbol asked of the type, which is a string, never matches, so the query finds nothing |
| BaseAdapters.SyncTxnKeepsInv | lib/crypto_importers/adapters/base_adapter.rb:104-128 | `sync_txn` keeps the run invariant: pending txns are typed, their external-id keys are recorded and distinct per type, and they are synced when required |
| BaseAdapters.DeduplicateKeepsInv | lib/crypto_importers/adapters/base_adapter.rb:104-128 | the deduplication step keeps the run invariant |
| BaseAdapters.UniqueGuardKeepsInv | lib/crypto_importers/adapters/base_adapter.rb:125-128 | the unique check and append keep the run invariant |
| BaseAdapters.DeduplicateOutcomes | lib/crypto_importers/adapters/base_adapter.rb:104-128 | a raise changes nothing; an accepted txn is appended last, and its keys were new and are now recorded; recorded hashes only grow |
| BaseAdapters.SyncTxnOutcomes | lib/crypto_importers/adapters/base_adapter.rb:80-129 | a raise changes nothing; a skip appends nothing; an accepted txn is the prepared one, appended last; recorded hashes only grow |
| BaseAdapters.DuplicateExternalIdNotAppended | lib/crypto_importers/adapters/base_adapter.rb:111-122 | a recorded external-id key is never appended again: in the test environment it raises unless ignored or an identical pending txn exists; otherwise it is skipped |
| BaseAdapters.SyncTxnRecordsKey | lib/crypto_importers/adapters/base_adapter.rb:104-125 | after a call that gets past the checks, its external-id key (or else, with `unique:`, its unique hash) is recorded |
| BaseAdapters.ResyncNotAppended | lib/crypto_importers/adapters/base_adapter.rb:104-128 | syncing the same attributes twice never accepts the second time, when the txn has an external id or `unique:` is set |
| BaseAdapters.ReceiveIsDeposit | lib/crypto_importers/adapters/base_adapter.rb:29-40 | a receive with a currency and no from-leg is a deposit |
| BaseAdapters.SendIsWithdrawal | lib/crypto_importers/adapters/base_adapter.rb:42-51 | a send with a currency and no to-leg is a withdrawal |
| BaseAdapters.TradeIsTrade | lib/crypto_importers/adapters/base_adapter.rb:53-78 | a trade between two different symbols is a trade, whichever side buys |
| CsvAdapters.StatesDistinct | lib/crypto_importers/adapters/csv_adapter.rb:2-9 | the six states are pairwise distinct |
| CsvAdapters.CsvAdapter.constructor | lib/crypto_importers/adapters/csv_adapter.rb:13-16 | a fresh base adapter, and the CSV import id taken from the options |
| CsvAdapters.CsvAdapter.SetInitialRows | lib/crypto_importers/adapters/csv_adapter.rb:18-20 | sets the initial rows only |
| CsvAdapters.CsvAdapter.SetMappingId | lib/crypto_importers/adapters/csv_adapter.rb:22-24 | sets the mapping id only |
| CsvAdapters.CsvAdapter.Commit | lib/crypto_importers/adapters/csv_adapter.rb:26-47 | the payload carries the request, the import, the times, the rows, the state, the old pending txns and the options; the pending list is then empty |
| ApiAdapters.FirstInvalidBalanceFrom | lib/crypto_importers/adapters/api_adapter.rb:16-20 | none iff every hash balance with a present currency has a built currency; otherwise names an offending key |
| ApiAdapters.StripBalance | lib/crypto_importers/adapters/api_adapter.rb:16-20 | checking a balance deletes `:valid` from its currency hash, and leaves any other balance unchanged |
| ApiAdapters.StripBalances | lib/crypto_importers/adapters/api_adapter.rb:16-20 | each balance is stripped, in order |
| ApiAdapters.Published | lib/crypto_importers/adapters/api_adapter.rb:30 | the published balances exist iff balances were given, with the same keys in the same order |
| ApiAdapters.VersionOf | lib/crypto_importers/adapters/api_adapter.rb:31 | the version is the sync data's `version`, or nil without sync data |
| ApiAdapters.ConfigOrDefault | lib/crypto_importers/adapters/api_adapter.rb:15 | the published config is an empty hash when the argument is left out, and exactly what was passed otherwise, nil included |
| ApiAdapters.ApiAdapter.constructor | lib/crypto_importers/adapters/api_adapter.rb:4-8 | a fresh base adapter that marks txns synced, with the wallet id and commit hook from the options |
| ApiAdapters.ApiAdapter.CheckBalances | lib/crypto_importers/adapters/api_adapter.rb:16-20 | the loop finds the first invalid balance and strips the checked currencies |
| ApiAdapters.ApiAdapter.Commit | lib/crypto_importers/adapters/api_adapter.rb:15-39 | an invalid balance raises and leaves the pending txns; otherwise the payload carries the old pending txns (all synced) and the stripped balances, and the pending list is empty |
| BaseImporters.DecimalizeClamps | lib/crypto_importers/importers/base_importer.rb:136-139 | decimals below 0 count as 0, and above 1000 as 1000 |
| BaseImporters.DecimalizeExact | lib/crypto_importers/importers/base_importer.rb:136-139 | for up to 10 decimals, an integer amount is divided exactly by 10^decimals; rounding to 10 places loses nothing |
| BaseImporters.DecimalizeWholeUnit | lib/crypto_importers/importers/base_importer.rb:133-139 | 10^decimals base units decimalize to exactly 1 |
| BaseImporters.DecimalizeCommentExample | lib/crypto_importers/importers/base_importer.rb:135-138 | 1000_0000 at 8 decimals gives 0.1, not the 1 the comment claims; 10^8 gives 1 |
| BaseImporters.MissingOptionsAreSelected | lib/crypto_importers/importers/base_importer.rb:117 | `required - options.keys` is `Select` of the names not given, so the missing names keep their order and repeats |
| BaseImporters.RequiredOptionsError | lib/crypto_importers/importers/base_importer.rb:116-119 | no error iff every required option is given; otherwise "missing required fields: " and the missing names in order |
| BaseImporters.StartsAfter | lib/crypto_importers/importers/base_importer.rb:121-127 | raises iff the option is present and either does not parse or meets a nil date; skips iff it parses to a time after the date |
| BaseImporters.NilDateRaises | lib/crypto_importers/importers/base_importer.rb:121-127 | a nil date passes only while the option is blank; with a present option it raises |
| BaseImporters.StartDateIsKept | lib/crypto_importers/importers/base_importer.rb:121-123 | no start date keeps everything, and a txn dated exactly at the start date is kept |
| BaseImporters.WithMarket | lib/crypto_importers/importers/base_importer.rb:148-152 | nil or an already known market changes nothing; otherwise the market is appended, starting a list if needed |
| BaseImporters.WithMarketKeepsOk | lib/crypto_importers/importers/base_importer.rb:148-152 | known markets stay non-nil and free of repeats |
| BaseImporters.WithMarketIdempotent | lib/crypto_importers/importers/base_importer.rb:148-152 | adding the same market twice is the same as adding it once |
| BaseImporters.Underscore | lib/crypto_importers/importers/base_importer.rb:46 | `underscore` leaves no upper-case letter and never shortens the name |
| BaseImporters.UnderscoreLayout | lib/crypto_importers/importers/base_importer.rb:46 | every character of the name appears lower-cased and in order; a `_` is inserted exactly before each break (a capital after a lower-case letter or digit, or the last capital of a run followed by a lower-case letter), and nothing else is added |
| BaseImporters.UnderscoreAcronym | lib/crypto_importers/importers/base_importer.rb:46 | `HTTPClient` underscores to `http_client` |
| BaseImporters.CoinsmartDefaultTag | lib/crypto_importers/importers/base_importer.rb:46 | the default tag of `CoinsmartImporter` is `coinsmart` |
| BaseImporters.FindFrom | lib/crypto_importers/importers/base_importer.rb:46 | finds the first occurrence of the pattern at or after a position, and none iff there is none |
| BaseImporters.RemoveFirst | lib/crypto_importers/importers/base_importer.rb:46 | `sub` removes the first occurrence of the pattern, or leaves the string as it is |
| BaseImporters.ResolveTag | lib/crypto_importers/importers/base_importer.rb:45-47 | the memoised tag wins; otherwise the given tag; otherwise the underscored class name without `_importer` |
| BaseImporters.TagSticks | lib/crypto_importers/importers/base_importer.rb:44-47 | once resolved, later calls return the same tag whatever they pass |
| BaseImporters.ImporterClass.constructor | lib/crypto_importers/importers/base_importer.rb:45-47 | a new importer class has no tag memoised yet |
| BaseImporters.ImporterClass.Tag | lib/crypto_importers/importers/base_importer.rb:45-47 | returns the resolved tag and memoises it on the class, for every importer of that class |
| BaseImporters.TagOfTwoImporters | lib/crypto_importers/importers/base_importer.rb:45-47 | two importers of one class get the same tag: the second gets the one the first fixed, whatever it passes |
| BaseImporters.BaseImporter.constructor | lib/crypto_importers/importers/base_importer.rb:14-20 | keeps the options and the importer's class, and leaves the class's tag memo as it was |
| BaseImporters.BaseImporter.AddKnownMarket | lib/crypto_importers/importers/base_importer.rb:148-152 | the known markets become `WithMarket` of the old ones, and the repeat-free invariant is kept |
| BaseImporters.BaseImporter.SkipTxn | lib/crypto_importers/importers/base_importer.rb:121-123 | skips exactly when the `start_date` option parses to a time after the date; a present option with a nil date raises |
| BaseImporters.BaseImporter.SkipTrade | lib/crypto_importers/importers/base_importer.rb:125-127 | skips exactly when the `trade_start_date` option parses to a time after the date; a present option with a nil date raises |
| BaseImporters.DropNilBalances | lib/crypto_importers/importers/base_importer.rb:78 | no balances give an empty list; otherwise the result is `Select` of the non-nil balances, so they keep their order and multiplicity |
| BaseImporters.KeepPresent | lib/crypto_importers/importers/base_importer.rb:78 | keeps exactly the balances whose value is not nil, and is `Select` of them, so order and multiplicity are kept |
| BaseImporters.DropNilIdempotent | lib/crypto_importers/importers/base_importer.rb:78 | dropping nil balances twice is the same as dropping them once |
| CsvImports.FirstRepeat | lib/crypto_importers/services/csv_import_started.rb:94-100 | none iff no mapping id repeats an earlier one |
| CsvImports.NoRepeatIffDistinct | lib/crypto_importers/services/csv_import_started.rb:94-100 | no repeat found exactly when all mapping ids are distinct |
| CsvImports.RepeatIsFirst | lib/crypto_importers/services/csv_import_started.rb:95-96 | appending an id already registered is reported as the duplicate |
| CsvImports.Registry | lib/crypto_importers/services/csv_import_started.rb:84-105 | succeeds iff the classes declare at least one mapping and no id twice, and then lists every (id, class) in order |
| CsvImports.Scored | lib/crypto_importers/services/csv_import_started.rb:111-116 | only mappings with a non-zero score are kept |
| CsvImports.ScoredMembers | lib/crypto_importers/services/csv_import_started.rb:111-116 | a candidate is scored iff it is a registered id with its non-zero score (nil counts as 0) |
| CsvImports.InsertKeeps | lib/crypto_importers/services/csv_import_started.rb:117 | inserting keeps the ranking descending and adds exactly the one candidate |
| CsvImports.SortDescKeeps | lib/crypto_importers/services/csv_import_started.rb:117 | the sort by descending score is ordered and a permutation of its input |
| CsvImports.Ranked | lib/crypto_importers/services/csv_import_started.rb:110-118 | the candidates sorted by descending score, a permutation of the scored ones |
| CsvImports.TiedIds | lib/crypto_importers/services/csv_import_started.rb:47 | exactly the ids whose score equals the best |
| CsvImports.Decide | lib/crypto_importers/services/csv_import_started.rb:12-78 | a file that cannot be prepared commits "processing_failed"; every commit uses a known state; an import uses a registered (id, class) |
| CsvImports.Ranking | lib/crypto_importers/services/csv_import_started.rb:40-54 | "unknown_csv" iff no mapping scores; an import uses a registered pair; nothing raises |
| CsvImports.Tiebreak | lib/crypto_importers/services/csv_import_started.rb:45-54 | an import picks a mapping tied at the top score, and the user's mapping id when several tie; a commit asks for a mapping id or required options, or fails; nothing raises |
| CsvImports.Chosen | lib/crypto_importers/services/csv_import_started.rb:57-77 | with the id chosen: missing required options commit the whole required list; with them given, a present mapping error commits FAILED with that error and nothing else, and the mapper imports exactly when there is no error |
| CsvImports.MappingErrorOrImport | lib/crypto_importers/services/csv_import_started.rb:68-77 | once the file fits and a mapping is settled, an import means complete options and no mapping error, and a FAILED commit with a mapping id carries that mapping's error |
| CsvImports.TopIsMax | lib/crypto_importers/services/csv_import_started.rb:46-47 | the head of a descending ranking has the top score |
| CsvImports.RowLimit | lib/crypto_importers/services/csv_import_started.rb:36-38 | the file fails for size iff a limit is set and the row count exceeds it; equal counts pass |
| CsvImports.UnknownIffNoCandidates | lib/crypto_importers/services/csv_import_started.rb:40-43 | within the limit, the CSV is unknown iff every mapping scores zero or nil |
| CsvImports.TopScoreIsMax | lib/crypto_importers/services/csv_import_started.rb:46 | no scored mapping beats the top of the ranking |
| CsvImports.TiedAreTop | lib/crypto_importers/services/csv_import_started.rb:46-47 | the tied ids are exactly the scored mappings that reach the top score |
| CsvImports.TieAsksForMapping | lib/crypto_importers/services/csv_import_started.rb:45-53 | the user is asked for a mapping id iff several mappings tie at the top and the given id is not among them; the tied ids are offered |
| CsvImports.ImportedIsBest | lib/crypto_importers/services/csv_import_started.rb:45-59 | the imported mapping has the top score, is registered under the class imported with, and is the user's id when the top is shared |
| CsvImports.UniqueBestIgnoresMappingId | lib/crypto_importers/services/csv_import_started.rb:45-54 | with a single best mapping, the user's mapping id changes nothing |
| CsvImports.RequiredOptionsCommitted | lib/crypto_importers/services/csv_import_started.rb:70-73 | "enter_required_options" carries the mapping's whole required list, and some option on it is missing |
| CsvImports.CsvImportStarted.constructor | lib/crypto_importers/services/csv_import_started.rb:84-86 | the service starts with its mapper classes and no memoised registry |
| CsvImports.CsvImportStarted.AllMappers | lib/crypto_importers/services/csv_import_started.rb:84-105 | the loop builds the registry and memoises it on success |
| CsvImports.CsvImportStarted.RegisterClass | lib/crypto_importers/services/csv_import_started.rb:94-100 | adds one class's mappings, raising on the first duplicate id; the result stays duplicate-free |
| CsvImports.CsvImportStarted.PotentialMappers | lib/crypto_importers/services/csv_import_started.rb:110-118 | the scored mappings, ranked, or the registry's error |
| Mappers.Lookup | lib/crypto_importers/mappers/coinsmart_mapper.rb:21 | a header's cell is its first column's value, nil when absent |
| Mappers.HeadersFor | lib/crypto_importers/mappers/coinsmart_mapper.rb:8-12 | the headers a mapping reads for a field, none when the field is unmapped |
| Mappers.MatchCell | lib/crypto_importers/mappers/coinsmart_mapper.rb:15 | `match?` on a nil cell raises; otherwise it matches iff some word occurs, ignoring case |
| Mappers.CoinsmartMapping | lib/crypto_importers/mappers/coinsmart_mapper.rb:3-18 | the id, the five required headers, the field headers; rows group by time stamp, and trade or fee rows are eligible |
| Mappers.FirstColumnWith | lib/crypto_importers/mappers/coinsmart_mapper.rb:40-50 | finds the first column whose header contains the word, ignoring case |
| Mappers.FirstValueWith | lib/crypto_importers/mappers/coinsmart_mapper.rb:40-50 | the value of the first column whose header contains the word (the debit and credit lookups), nil when none |
| Mappers.FirstValueIsLookup | lib/crypto_importers/mappers/coinsmart_mapper.rb:40-50 | when one header carries the word, the first value is that header's cell |
| Mappers.RefKindOf | lib/crypto_importers/mappers/coinsmart_mapper.rb:25-32 | deposit, then withdraw, then fee, matched in that order and ignoring case |
| Mappers.CoinsmartParse | lib/crypto_importers/mappers/coinsmart_mapper.rb:20-38 | raises iff the reference type is not a string; only the leg and fee keys may change |
| Mappers.DepositAndWithdrawSetOneLeg | lib/crypto_importers/mappers/coinsmart_mapper.rb:25-28 | a deposit sets the to-currency, a withdrawal the from-currency, to the product |
| Mappers.FeeRowTakesDebitThenCredit | lib/crypto_importers/mappers/coinsmart_mapper.rb:29-31 | a fee row's amount is the debit when present, else the credit |
| Mappers.OtherRowSetsLegsByAmounts | lib/crypto_importers/mappers/coinsmart_mapper.rb:32-35 | other rows set the from-currency iff there is a debit, and the to-currency iff there is a credit |
| Mappers.MappedRow.constructor | lib/crypto_importers/mappers/coinsmart_mapper.rb:20 | a mapped row holds the given fields |
| Mappers.CoinsmartMapper.ParseRow | lib/crypto_importers/mappers/coinsmart_mapper.rb:20-38 | updates the mapped row in place to the parsed fields, or raises leaving it unchanged |
| Mappers.CoinmetroMapping | lib/crypto_importers/mappers/coinmetro_mapper.rb:3-24 | the id, the header counts, the field headers; rows group by description, and order rows are eligible |
| Mappers.CoinmetroTxhashHeaderUndeclared | lib/crypto_importers/mappers/coinmetro_mapper.rb:7-15 | the txhash header "Transaction hash" is not a declared header; the declared one is "Transaction Hash" |
| Mappers.ShownMappersRegister | lib/crypto_importers/services/csv_import_started.rb:87-103 | the two mappers register their ids in sorted class order, without duplicates |
| Enumerables.KeysInOrder | spec/support/snapshot_formatter.rb:313-319 | `group_by` keys: each key once, exactly those some member has |
| Enumerables.KeysInFirstAppearanceOrder | spec/support/snapshot_formatter.rb:313-319 | the keys come in order of first appearance: every member with a later key is preceded by a member with each earlier key |
| Enumerables.Members | spec/support/snapshot_formatter.rb:313-319 | a group holds only members of the input with its key |
| Enumerables.MembersAreSelected | spec/support/snapshot_formatter.rb:313-319 | a group is the input selected by its key: every member with the key, in input order, as often as it occurs |
| Enumerables.Select | spec/support/snapshot_formatter.rb:312 | exactly the elements satisfying the predicate |
| Enumerables.Reject | spec/support/snapshot_formatter.rb:334 | exactly the elements failing the predicate |
| Enumerables.SelectAppend | spec/support/snapshot_formatter.rb:312 | `select` over a concatenation is the concatenation of the selections, so input order is kept |
| Enumerables.RejectAppend | spec/support/snapshot_formatter.rb:334 | `reject` over a concatenation is the concatenation of the rejections, so input order is kept |
| Enumerables.SelectCount | spec/support/snapshot_formatter.rb:312 | an element occurs in the selection as often as in the input if it passes, and not at all otherwise |
| Enumerables.RejectCount | spec/support/snapshot_formatter.rb:334 | an element occurs in the rejection as often as in the input if it fails, and not at all otherwise |
| Enumerables.RejectIsSelectNot | spec/support/snapshot_formatter.rb:312-334 | `reject` is `select` with the negated predicate |
| Enumerables.MapAll | spec/support/snapshot_formatter.rb:218 | mapping raises iff some element raises; otherwise one result per element |
| Enumerables.TotalAppend | spec/support/snapshot_formatter.rb:326-329 | a sum over a concatenation is the sum of the sums |
| Enumerables.TotalSplit | spec/support/snapshot_formatter.rb:311-335 | the selected and rejected parts together sum to the whole |
| Enumerables.GroupTotalsStep | spec/support/snapshot_formatter.rb:313-319 | adding a member adds its amount to its group's total |
| Enumerables.GroupsPartitionTotal | spec/support/snapshot_formatter.rb:313-319 | the group totals sum to the total of all members |
| Enumerables.GroupBy | spec/support/snapshot_formatter.rb:313-319 | the loop yields the keys in first-seen order and each key's members |
| StringOrder.LessIrreflexive | spec/support/snapshot_formatter.rb:350 | no string sorts before itself |
| StringOrder.LessAsymmetric | spec/support/snapshot_formatter.rb:350 | string order is asymmetric |
| StringOrder.LessTotal | spec/support/snapshot_formatter.rb:350 | any two strings are equal or ordered one way |
| StringOrder.LessTransitive | spec/support/snapshot_formatter.rb:350 | string order is transitive |
| StringOrder.StrictlySortedIncreases | spec/support/snapshot_formatter.rb:350 | a sorted key list increases pairwise and has no repeats |
| StringOrder.Least | spec/support/snapshot_formatter.rb:350 | the least key precedes every other |
| StringOrder.SortedKeys | spec/support/snapshot_formatter.rb:350-351 | `sort.to_h` lists each key exactly once, in increasing order |
| SnapshotCurrencies.CleanToken | spec/support/snapshot_formatter.rb:20-21 | a present token address or NFT id is stripped and downcased; a blank one is kept as it is |
| SnapshotCurrencies.CleanSymbol | spec/support/snapshot_formatter.rb:22 | nil stays nil; a symbol is upcased and stripped: no lower-case letter is left and it neither starts nor ends with white space |
| SnapshotCurrencies.BuildCurrency | spec/support/snapshot_formatter.rb:7-26 | nothing is built from nil, booleans, numbers or times; a string is its own stripped, upcased symbol; a hash keeps its cleaned symbol, chain and token address; an array keeps its symbol, the hash's chain and its NFT token; the name is the symbol |
| SnapshotCurrencies.EqualIsSymbolAndChain | spec/support/snapshot_formatter.rb:42-46 | two currencies are equal iff their symbols and chains are |
| SnapshotCurrencies.SameIsEquivalence | spec/support/snapshot_formatter.rb:42-46 | currency equality is reflexive, symmetric and transitive |
| SnapshotCurrencies.ChainMeansCrypto | spec/support/snapshot_formatter.rb:28-32 | a currency on a chain is never fiat |
| SnapshotTxns.FiatOnly | spec/support/snapshot_formatter.rb:69-73 | the worth currencies survive only when fiat |
| SnapshotTxns.LegacyType | spec/support/snapshot_formatter.rb:75-90 | transfer iff the currencies are equal; exchange for two fiats or two cryptos; buy from fiat, sell to fiat; a single leg is a fiat or crypto deposit or withdrawal |
| SnapshotTxns.NewFakeTxn | spec/support/snapshot_formatter.rb:62-105 | raises iff neither currency builds; otherwise the built currencies, the legacy type, fiat-only worths, and unchanged date, to-amount and wallets |
| SnapshotTxns.ExplicitTransferFee | spec/support/snapshot_formatter.rb:100-104 | the adjustment keeps the from-amount plus fee, the to-amount, the type and the wallets |
| SnapshotTxns.FakeTxnFeeRules | spec/support/snapshot_formatter.rb:92-104 | crypto withdrawals and deposits drop a fee in their own currency; a lossy transfer with no fee takes the loss as its fee and sends exactly what arrived |
| SnapshotTxns.InvalidIsSelfTransfer | spec/support/snapshot_formatter.rb:107-111 | a fake txn is invalid iff it is a crypto transfer within one wallet |
| SnapshotTxns.FromEntry | spec/support/snapshot_formatter.rb:158-171 | a from-leg yields an entry of minus its amount in its ledger |
| SnapshotTxns.ToEntry | spec/support/snapshot_formatter.rb:173-186 | a to-leg yields an entry of its amount in its ledger |
| SnapshotTxns.FeeEntry | spec/support/snapshot_formatter.rb:188-202 | a positive fee with a currency yields a negative fee entry |
| SnapshotTxns.Entries | spec/support/snapshot_formatter.rb:230-238 | the from-entries of the txns with a from-currency, in order, then their to-entries, then their fee entries; each is minus the from-amount in the from-ledger, the to-amount in the to-ledger, or minus a positive fee in the fee ledger (nil for no fee), carrying the txn's date, flags, ids and unique hash |
| SnapshotTxns.SelectFrom | spec/support/snapshot_formatter.rb:232 | exactly the txns with a from-currency |
| SnapshotTxns.SelectTo | spec/support/snapshot_formatter.rb:233 | exactly the txns with a to-currency |
| SnapshotTxns.SelectFee | spec/support/snapshot_formatter.rb:234 | exactly the txns with a fee currency |
| SnapshotTxns.SelectionsAreSelect | spec/support/snapshot_formatter.rb:232-234 | the three leg selections are `select` with their block, so the txns keep their order and multiplicity |
| SnapshotGrouping.KeyOf | spec/support/snapshot_formatter.rb:313-319 | a key exists iff the txn has a group name and a date; it holds the from-leg's currency and wallet, or the to-leg's, and the UTC day of the date |
| SnapshotGrouping.MinDate | spec/support/snapshot_formatter.rb:321 | the earliest date of the group, which some member has |
| SnapshotGrouping.MaxDate | spec/support/snapshot_formatter.rb:322 | the latest date of the group, which some member has |
| SnapshotGrouping.Merge | spec/support/snapshot_formatter.rb:321-329 | the merged txn is dated at the earliest member date when it has a to-leg and at the latest otherwise, and sums the from- and to-amounts |
| SnapshotGrouping.MergeKeepsFirst | spec/support/snapshot_formatter.rb:324-329 | everything but the date and the two amounts is the first member's, including its fee |
| SnapshotGrouping.MergedGroups | spec/support/snapshot_formatter.rb:320-332 | one merged txn per key |
| SnapshotGrouping.Grouped | spec/support/snapshot_formatter.rb:311-335 | raises iff some groupable txn has no date |
| SnapshotGrouping.MergedTotals | spec/support/snapshot_formatter.rb:320-332 | the merged txns' from- and to-totals are the groups' totals |
| SnapshotGrouping.MergedAmount | spec/support/snapshot_formatter.rb:326-329 | a merged txn's from- and to-amounts are its group's sums |
| SnapshotGrouping.GroupingPreservesTotals | spec/support/snapshot_formatter.rb:311-335 | grouping keeps the total from- and to-amounts of all txns |
| SnapshotGrouping.AllMergedTotal | spec/support/snapshot_formatter.rb:313-332 | merging every group keeps the from- and to-totals of the groupable txns |
| SnapshotGrouping.MergeDropsLaterFees | spec/support/snapshot_formatter.rb:324-329 | two fees of 1 merge into a fee of 1: later members' fees are lost |
| SnapshotGrouping.MergedAreValid | spec/support/snapshot_formatter.rb:320-332 | merging valid txns yields valid txns |
| SnapshotGrouping.GroupingKeepsValidity | spec/support/snapshot_formatter.rb:311-335 | grouping valid txns yields only valid txns |
| SnapshotGrouping.GroupingKeepsOthers | spec/support/snapshot_formatter.rb:331-334 | the txns that are not groupable come first, in order, followed by one merged txn per key |
| SnapshotGrouping.MergeGroup | spec/support/snapshot_formatter.rb:320-330 | the dup-and-add loop computes the merged txn |
| SnapshotGrouping.SplitGroupable | spec/support/snapshot_formatter.rb:311-312 | splits into the groupable txns and the others, each in order |
| SnapshotGrouping.MergeAll | spec/support/snapshot_formatter.rb:320-332 | the loop over groups yields one merged txn per key, in key order |
| SnapshotGrouping.GroupTransactions | spec/support/snapshot_formatter.rb:311-335 | the method computes the grouping function, error included |
| SnapshotBalances.Bump | spec/support/snapshot_formatter.rb:338-341 | `Hash.new(0)` `+=` creates the key and adds the amount to it alone |
| SnapshotBalances.BookLeg | spec/support/snapshot_formatter.rb:339-341 | a leg that applies adds its flow to its ledger; one that does not changes nothing |
| SnapshotBalances.Amounts | spec/support/snapshot_formatter.rb:337-344 | the same ledgers as the tally, each clamped to ±10^14 and unchanged within it |
| SnapshotBalances.BookOne | spec/support/snapshot_formatter.rb:338-342 | booking a txn adds its flow for the wallet to each ledger, and creates exactly the ledgers it touches |
| SnapshotBalances.TallyIsNetFlow | spec/support/snapshot_formatter.rb:337-344 | a wallet's tally of a ledger is its net flow: received minus sent minus fees; a ledger is listed iff some txn touches it |
| SnapshotBalances.BookTxn | spec/support/snapshot_formatter.rb:338-342 | the loop body books one txn |
| SnapshotBalances.CalculateAmounts | spec/support/snapshot_formatter.rb:337-344 | the loop computes the clamped tally |
| SnapshotBalances.Balances | spec/support/snapshot_formatter.rb:346-352 | ledgers sorted strictly; every non-blank ledger with a non-zero rounded amount is listed, with that amount |
| SnapshotBalances.BalanceIsNetFlow | spec/support/snapshot_formatter.rb:337-352 | every listed balance is the ledger's net flow, clamped and rounded half-up to 8 places |
| SnapshotBalances.UntouchedLedgerIsUnlisted | spec/support/snapshot_formatter.rb:346-352 | a ledger the wallet's txns never touch has no balance |
| SnapshotBalances.ApiKey | spec/support/snapshot_formatter.rb:357-363 | a plain balance is keyed by its upcased, stripped name; a hash balance by its built currency's symbol, raising when none builds |
| SnapshotBalances.ApiEntries | spec/support/snapshot_formatter.rb:357-364 | raises iff some balance has no key; otherwise one entry per balance |
| SnapshotBalances.SumByKey | spec/support/snapshot_formatter.rb:357-364 | `Hash.new(0)` accumulation has exactly the keys of the entries |
| SnapshotBalances.Adjusted | spec/support/snapshot_formatter.rb:357-364 | the adjusted API balances raise iff some balance has no key |
| SnapshotBalances.DiffList | spec/support/snapshot_formatter.rb:366-374 | nil iff no ledger differs; otherwise a non-empty, sorted list of exactly the differing ledgers and their differences |
| SnapshotBalances.BalanceDiff | spec/support/snapshot_formatter.rb:354-375 | nil when diffs are off; otherwise raises iff an API balance has no key, else the diff list |
| SnapshotBalances.SumByKeyOfDistinct | spec/support/snapshot_formatter.rb:357-364 | over distinct keys, the accumulated value is the entry's own |
| SnapshotBalances.OwnApiEntries | spec/support/snapshot_formatter.rb:357-363 | balances given back as plain API balances key to themselves |
| SnapshotBalances.OwnBalancesHaveNoDiff | spec/support/snapshot_formatter.rb:354-375 | a wallet's own balances reported by the API show no diff |
| SnapshotBalances.NoLedgerDiffers | spec/support/snapshot_formatter.rb:366-372 | no ledger differs from itself |
| SnapshotFormatters.AddedToWallets | spec/support/snapshot_formatter.rb:377-384 | both wallets get a list; the txn is filed under its from-wallet, and under a different to-wallet when it has a to-leg |
| SnapshotFormatters.FiledTxns | spec/support/snapshot_formatter.rb:377-384 | exactly the txns filed under the wallet |
| SnapshotFormatters.FiledTxnsAreSelected | spec/support/snapshot_formatter.rb:377-384 | the txns filed under a wallet are `Select` with the filing test, so they keep their order and multiplicity |
| SnapshotFormatters.WalletsKeys | spec/support/snapshot_formatter.rb:214-221 | the wallets are the nil wallet and every wallet some txn names |
| SnapshotFormatters.UnnamedHasNothingFiled | spec/support/snapshot_formatter.rb:377-384 | a wallet no txn names has nothing filed |
| SnapshotFormatters.WalletsFileTheirTxns | spec/support/snapshot_formatter.rb:214-221 | each wallet's list is exactly its filed txns, in order, each once |
| SnapshotFormatters.UnfiledBooksNothing | spec/support/snapshot_formatter.rb:337-344 | a txn not filed under a wallet books nothing into its tally |
| SnapshotFormatters.FiledTallyIsWholeTally | spec/support/snapshot_formatter.rb:337-344 | tallying a wallet over its own list equals tallying it over all txns |
| SnapshotFormatters.WalletBalancesSeeAllTxns | spec/support/snapshot_formatter.rb:258 | a wallet's balances from its own list are its balances over all txns |
| SnapshotFormatters.Fakes | spec/support/snapshot_formatter.rb:218 | raises iff some txn builds no currency; otherwise one fake txn per txn |
| SnapshotFormatters.ValidOnly | spec/support/snapshot_formatter.rb:219 | exactly the valid fake txns |
| SnapshotFormatters.ValidOnlyInOrder | spec/support/snapshot_formatter.rb:219 | the valid fakes of a concatenation are the valid fakes of each part in turn, so order is kept |
| SnapshotFormatters.ValidOnlyCount | spec/support/snapshot_formatter.rb:219 | a valid fake occurs as often as in the input, an invalid one not at all |
| SnapshotFormatters.Prepared | spec/support/snapshot_formatter.rb:216-220 | every txn the formatter keeps is valid |
| SnapshotFormatters.SnapshotFormatter.constructor | spec/support/snapshot_formatter.rb:214-224 | files every prepared txn in order, so the wallets hash files exactly the txns |
| SnapshotFormatters.SnapshotFormatter.AddToWallets | spec/support/snapshot_formatter.rb:377-384 | updates the wallets hash in place as `AddedToWallets` says, and returns the txn |
| SnapshotFormatters.SnapshotFormatter.BalanceDiffOf | spec/support/snapshot_formatter.rb:354-375 | nil when diffs are off; raises iff an API balance has no key |
| SnapshotFormatters.NewFormatter | spec/support/snapshot_formatter.rb:214-224 | raises iff preparing the txns raises; otherwise a formatter over the prepared txns with every one filed |

## Left out

- `prettify`, `txns_sneak_peek`, `generate_snapshot`, `call` and `wallet_entries` (`lib/crypto_importers/adapters/txn.rb:152-178`, `spec/support/snapshot_formatter.rb:113-140,226-309`): report formatting. It depends on BigDecimal and Time rendering, and `wallet_entries` only feeds a count in the report.
- `publish` and the `Time.now` timestamps: I/O and the clock. The finish time is a parameter `now`, and the commit returns the payload it would publish.
- MD5 and `to_json`: foreign hashing and serialisation. They are uninterpreted functions of the adapter's environment. So a changed pre-image is not proved to change the hash; the model proves that equal pre-images mean equal identity fields.
- `TxnHelper.normalize_date`, `normalize_amount`, `normalize_hash` and `FIATS`, `Time.parse` and `to_datetime`, and `serializable_hash`: these are not part of this model. They are parameters. ActiveModel errors are a list of (attribute, message) pairs.
- `TxnErrors.Humanize`: only ActiveSupport's default `humanize` is modelled (no inflection acronyms, no `keep_id_suffix`), on ASCII letters; the full message's I18n format is the default "%{attribute} %{message}".
- `Float#to_d` and `clean_d`/`to_boolean` on floats (`config/initializers/clean_d.rb:17-31`): floating point.
- `TrueClass#to_i` and `FalseClass#to_i` (`config/initializers/clean_d.rb:58-70`): constants 1 and 0 that no modelled operation calls.
- `Txn#fee?`, `FakeTxn#fee?`, `FakeTxn#margin?`, `pick_first_value`, `attributes`, `transfer?`/`trade?` as used by prettify: these are unused by the modelled operations, or are plain accessors. The type predicates are modelled as `IsTrade`, `IsTransfer`, `IsDeposit` and `IsWithdrawal`.
- `import_and_commit!`, `import_txns_and_balances`, `process`, `log_error`, `fail`, `fail_perm`, `initial_sync?` and `wallet_created_after?` (`lib/crypto_importers/importers/base_importer.rb:57-90,129-178`): exception routing, Rollbar calls, the metadata store and wallet records. Only the nil-balance filter of line 78 is modelled.
- The importer class settings `required_options`, `other_options`, `basic_options`, `notes`, `oauth_url`, `historical_txns_limit` and `max_pages_per_sync`: constants. `required_options` is a parameter of `RequiredOptionsError`.
- `Module.constants` reflection in `all_mappers`: replaced by an explicit list of mapper classes, sorted by name. `prepare_and_set_file`, `confidence_score`, `BaseMapper` and the mapper's own `import_and_commit!` are not part of this model. The decision chain takes the prepared file, the scores and each mapping's required options and error as inputs, and ends with `Imported` where the mapper would import.
- `payload` parsing in `handle_payload` (`symbolize_keys`, lines 13-17): the decision takes the options, the row limit and the file as already-read values.
- `CsvImports.Ranked`: Ruby's `sort_by` is not stable, so candidates with equal scores may come out in any order. The model keeps registry order among equal scores. Every property stated about ties (the set of tied ids, the top score) holds for any order.
- `lib/crypto_importers/services/api_import_started.rb` and `lib/crypto_importers/tag.rb`: wiring and string constants. The mapper tags are not modelled.
- `TxnErrors.NewTxnError`: `TxnError` is a value built by a constructor function, not a class. Its fields are assigned only while it is constructed and never change afterwards.
- `SnapshotTxns.NewFakeTxn`: `FakeTxn#initialize` first calls `super`, that is `Txn.new(attrs)`, which raises on an unknown attribute. The model takes an already built `Txn`, so that error path belongs to `TxnModel.NewTxn` and is not repeated for fakes. `SnapshotFormatters.Fakes` inherits this.
- `TxnModel.DateErrors`: Ruby compares `date.year < 2009` in the date's own time zone. The model compares seconds since the epoch with 2009-01-01 00:00 UTC (`EARLIEST_DATE`), so a date within a few hours of that instant in a non-UTC zone may be judged differently. `TxnModel.ValidIffRules` inherits this.
- `TxnModel.UniqueHash`: `downcase` is modelled on ASCII letters only; the JSON of a pre-image holding non-ASCII upper-case letters is downcased fully by Ruby and only partly by the model.
- `SnapshotCurrencies.CleanSymbol`: `upcase`, `downcase` and case-insensitive matching are modelled on ASCII letters only. Ruby maps case over all of Unicode ("ß".upcase is "SS", "é".upcase is "É"), and a `/word/i` regex also folds "ſ" to "s" and the Kelvin sign to "k". So the model's upcased symbol is never longer than the input, while Ruby's can be.
- `SnapshotCurrencies.CleanToken`: downcases ASCII letters only, as above.
- `SnapshotCurrencies.BuildCurrency`: the symbol's `upcase` and the token's `downcase` cover ASCII letters only, as above.
- `SnapshotBalances.ApiKey`: the plain key's `upcase` covers ASCII letters only, as above.
- `Mappers.MatchCell`: `/word/i` ignores ASCII case only, as above.
- `Mappers.FirstColumnWith`: `/debit/i` and `/credit/i` on the headers ignore ASCII case only, as above.
- `Mappers.RefKindOf`: the reference-type regexes ignore ASCII case only, as above.
- `CleanD.ToBooleanIgnoresCase`: holds of ASCII case mapping only. With Ruby's Unicode `upcase`, "falſe" reads true while its upcase "FALSE" reads false.
- `SnapshotGrouping.KeyOf`: `strftime('%Y-%m-%d')` is taken as the UTC day of the date in seconds; time zones are not modelled.
- `SnapshotBalances.Balances`: `round(8)` is modelled as rounding half away from zero on exact reals, and the decimal `to_s` of the rounded amounts is kept as the number itself.
- `BaseAdapters.ValidCurrency`: the check deletes `:valid` from the caller's hash in place. The model checks a value and hands back the stripped copy (`StripValid`, `StripCurrencies`, `StripBalance`), so aliasing is not captured. When one hash object is shared between two currency fields of a call, between two calls, or between two API balances, Ruby rejects the second check, but the model accepts it. This affects `FirstInvalidCurrencyFrom`, `CheckBuilt`, `BaseAdapter.CheckCurrencies`, `FirstInvalidBalanceFrom` and `ApiAdapter.CheckBalances`. `CheckConsumesMarker` states what a second check of the same hash gives.

## Findings

| source | as written | input that shows it | evidently intended | confidence | as-written member | corrected member |
|---|---|---|---|---|---|---|
| lib/crypto_importers/importers/base_importer.rb:135 | the usage comment says that decimalizing 1000_0000 at 8 decimals gives 1 | `decimalize(1000_0000, 8)` divides 10^7 by 10^8 and gives 0.1 | one whole unit is 10^8 base units at 8 decimals (the comment's number is missing a zero); the code is right and the comment is wrong | not executed | BaseImporters.DecimalizeCommentExample | BaseImporters.DecimalizeWholeUnit |
