/**
 * The import adapter: a run object that turns `sync_*` calls into pending
 * transactions. It skips transactions before the start-date cutoffs,
 * refuses currency hashes not made by `build_currency`, raises on invalid
 * transactions, drops duplicates (by external-id key per type, and by
 * unique hash when asked) and appends the rest in call order.
 *
 * `SyncTxnSpec` states what one `sync_txn` call does to the run state as a
 * function; the class's `SyncTxn` method does it step by step and is proved
 * equal to it; the lemmas state the guarantees of the specification.
 */
module BaseAdapters {
  import opened Wrappers
  import opened Text
  import opened Values
  import opened TxnModel
  import opened TxnErrors

  // ---------------------------------------------------------------- outcomes

  /** What a `sync_*` call raises. */
  datatype AdapterError =
    | ArgumentError(reason: string)
    | UnknownAttribute(names: set<string>)
    | Invalid(error: TxnError)

  /** What a `sync_*` call does: returns the appended txn, returns nil, or raises. */
  datatype Outcome = Accepted(txn: Txn) | Skipped | Failed(error: AdapterError)

  /** The part of the adapter a `sync_txn` call changes. */
  datatype RunState = RunState(pending: seq<Txn>, seen: map<string, set<string>>)

  /** The settings a `sync_txn` call reads; `latestDate` is one year from now. */
  datatype AdapterConfig = AdapterConfig(
    hardStartDate: Option<int>,
    softStartDate: Option<int>,
    importerTag: Value,
    testEnv: bool,
    marksSynced: bool,
    latestDate: int,
    env: TxnEnv)

  // ---------------------------------------------------------------- duplicate?

  /** `hash` was recorded in `group`. */
  predicate Seen(seen: map<string, set<string>>, group: string, hash: string) {
    group in seen && hash in seen[group]
  }

  /** The recorded hashes after `duplicate?(hash, group)`: `hash` added to its group, created if missing. */
  function Record(seen: map<string, set<string>>, group: string, hash: string): (r: map<string, set<string>>)
    ensures Seen(r, group, hash)
    ensures forall g, h :: Seen(r, g, h) <==> Seen(seen, g, h) || (g == group && h == hash)
    ensures Seen(seen, group, hash) ==> r == seen
  {
    assert Seen(seen, group, hash) ==> seen[group] + {hash} == seen[group];
    seen[group := (if group in seen then seen[group] else {}) + {hash}]
  }

  /** The group external-id keys are recorded in: the txn's type. */
  function GroupOf(t: Txn): string {
    match t.txnType
    case Some(k) => TypeName(k)
    case None => ""
  }

  /** The group unique hashes are recorded in. */
  const DUPLICATES_GROUP := "duplicates"

  /** Unique hashes and external-id keys never share a group. */
  lemma DuplicatesGroupIsNoType(t: Txn)
    ensures GroupOf(t) != DUPLICATES_GROUP
  {
  }

  // ---------------------------------------------------------------- skip_txn?

  /**
   * `skip_txn?`: true when a set cutoff is later than the date (the soft one
   * only without the bypass); comparing a set cutoff with a nil date raises.
   */
  function SkipTxn(hard: Option<int>, soft: Option<int>, date: Option<int>, bypass: bool): (r: Result<bool, AdapterError>)
    ensures r.Failure? <==> date.None? && (hard.Some? || soft.Some?)
    ensures r == Success(true) <==>
              date.Some? && ((hard.Some? && hard.value > date.value) || (soft.Some? && soft.value > date.value && !bypass))
  {
    if hard.Some? && date.None? then Failure(ArgumentError("comparison of DateTime with nil failed"))
    else if hard.Some? && hard.value > date.value then Success(true)
    else if soft.Some? && date.None? then Failure(ArgumentError("comparison of DateTime with nil failed"))
    else if soft.Some? && soft.value > date.value && !bypass then Success(true)
    else Success(false)
  }

  // ---------------------------------------------------------------- valid_currency?

  /**
   * `valid_currency?`: scalars and nil pass, a currency hash passes only
   * with its `:valid` marker, the array form when its hash does; anything
   * else fails.
   */
  predicate ValidCurrency(v: Value) {
    match v
    case Nil => true
    case Str(_) => true
    case Sym(_) => true
    case Int(_) => true
    case Currency(d) => d.valid
    case CurrencyPair(d, _) => d.valid
    case _ => false
  }

  /** The currency attributes checked after the txn is built, in order. */
  const CURRENCY_FIELDS: seq<string> := ["from_currency", "to_currency", "fee_currency", "net_worth_currency", "fee_worth_currency"]

  /** The first currency attribute, from index `i` on, that fails the check. */
  function FirstInvalidCurrencyFrom(attrs: map<string, Value>, i: nat): (r: Option<string>)
    requires i <= |CURRENCY_FIELDS|
    ensures r.Some? ==> r.value in CURRENCY_FIELDS[i..] && !ValidCurrency(Get(attrs, r.value))
    ensures r.None? <==> forall j :: i <= j < |CURRENCY_FIELDS| ==> ValidCurrency(Get(attrs, CURRENCY_FIELDS[j]))
    decreases |CURRENCY_FIELDS| - i
  {
    if i == |CURRENCY_FIELDS| then None
    else if !ValidCurrency(Get(attrs, CURRENCY_FIELDS[i])) then Some(CURRENCY_FIELDS[i])
    else FirstInvalidCurrencyFrom(attrs, i + 1)
  }

  /** The txn with the `:valid` marker deleted from its currency hashes, as the check leaves them. */
  function StripCurrencies(t: Txn): Txn {
    t.(fromCurrency := StripValid(t.fromCurrency), toCurrency := StripValid(t.toCurrency),
       feeCurrency := StripValid(t.feeCurrency), netWorthCurrency := StripValid(t.netWorthCurrency),
       feeWorthCurrency := StripValid(t.feeWorthCurrency))
  }

  /**
   * The check consumes the marker: a currency hash that has passed it once
   * fails every later check of the same hash.
   */
  lemma CheckConsumesMarker(v: Value)
    requires v.Currency? || v.CurrencyPair?
    ensures ValidCurrency(v) <==> (if v.Currency? then v.desc.valid else v.head.valid)
    ensures !ValidCurrency(StripValid(v))
  {
  }

  function InvalidCurrencyMessage(name: string): string {
    name + " is not a valid currency - ensure it was built with build_currency!"
  }

  // ---------------------------------------------------------------- external-id key

  /** `[external_id, from_currency || to_currency, (txhash if trade)].map(&:to_s).join('_')`. */
  function ExternalKey(t: Txn, display: Value -> string): string
    requires t.externalId.Some?
  {
    t.externalId.value + "_" + ToS(Or(t.fromCurrency, t.toCurrency), display) + "_"
    + (if t.IsTrade() then ToS(OptStr(t.txhash), display) else "")
  }

  /** A pending txn with the same external id and external data. */
  predicate HasSameTxn(pending: seq<Txn>, t: Txn) {
    exists i | 0 <= i < |pending| :: pending[i].externalId == t.externalId && pending[i].externalData == t.externalData
  }

  function DuplicateExternalIdMessage(id: string): string {
    "duplicate external_id detected - " + id
  }

  // ---------------------------------------------------------------- sync_txn, as a function

  /** A txn that passed every check that does not depend on the run state, with the two duplicate options. */
  datatype Prepared = Prepared(txn: Txn, ignoreDuplicateExternalId: bool, checkDuplicates: bool)

  /** The keys `sync_txn` reads as options rather than attributes. */
  const OPTION_KEYS: set<string> := {"allow_external_id", "ignore_duplicate_external_id", "unique", "small_decimals", "default_timezone"}

  /** The attributes after the option keys are read and deleted, and `importer_tag` defaulted. */
  function TxnAttributes(attrs: map<string, Value>, importerTag: Value): (r: map<string, Value>)
    ensures Truthy(Get(attrs, "importer_tag")) ==> Get(r, "importer_tag") == Get(attrs, "importer_tag")
    ensures !Truthy(Get(attrs, "importer_tag")) ==> Get(r, "importer_tag") == importerTag
    ensures forall k :: k in r ==> k !in OPTION_KEYS
    ensures forall k :: k !in OPTION_KEYS && k != "importer_tag" ==> Get(r, k) == Get(attrs, k)
  {
    var tagged := if Truthy(Get(attrs, "importer_tag")) then attrs else attrs["importer_tag" := importerTag];
    tagged - OPTION_KEYS
  }

  /**
   * `allow_external_id`: the option, or the adapter not disallowing
   * external ids, or else `true` — the last disjunct makes it hold always,
   * so the "external_id not allowed" error is never raised and the model
   * has no such failure.
   */
  function AllowExternalId(option: Value, disallowExternalId: Value): (allowed: bool)
    ensures allowed
  {
    Truthy(option) || !Truthy(disallowExternalId) || true
  }

  /** The `:unique` option after `presence`. */
  function CheckDuplicates(attrs: map<string, Value>): Value {
    PresenceOf(Get(attrs, "unique"))
  }

  /** The seed the unique hash is given: the `:unique` option when it is a string. */
  function SeedOf(checkDuplicates: Value): Value {
    if checkDuplicates.Str? then checkDuplicates else Nil
  }

  /**
   * The first half of `sync_txn`, which reads only the settings and the
   * attributes: it raises, skips (`None`), or yields a valid txn dated no
   * earlier than the cutoffs that apply.
   */
  function Prepare(cfg: AdapterConfig, attrs: map<string, Value>): (r: Result<Option<Prepared>, AdapterError>)
    ensures r == Success(None) <==>
              SkipTxn(cfg.hardStartDate, cfg.softStartDate, cfg.env.normalizeDate(Get(attrs, "date"), Nil),
                      Truthy(Get(attrs, "bypass_soft_start_date"))) == Success(true)
    ensures r.Success? && r.value.Some? ==>
              var date := cfg.env.normalizeDate(Get(attrs, "date"), Nil);
              && (cfg.hardStartDate.Some? ==> date.Some? && cfg.hardStartDate.value <= date.value)
              && (cfg.softStartDate.Some? && !Truthy(Get(attrs, "bypass_soft_start_date")) ==>
                    date.Some? && cfg.softStartDate.value <= date.value)
              && Rules(r.value.value.txn, cfg.latestDate)
  {
    var date := cfg.env.normalizeDate(Get(attrs, "date"), Nil);
    var skip := SkipTxn(cfg.hardStartDate, cfg.softStartDate, date, Truthy(Get(attrs, "bypass_soft_start_date")));
    if skip.Failure? then Failure(skip.error)
    else if skip.value then Success(None)
    else PrepareUnskipped(cfg, attrs - {"bypass_soft_start_date"})
  }

  /** `Txn.new` on the attributes left once the options are taken out, then the checks on what it built. */
  function PrepareUnskipped(cfg: AdapterConfig, attrs: map<string, Value>): (r: Result<Option<Prepared>, AdapterError>)
    ensures r.Success? ==> r.value.Some? && Rules(r.value.value.txn, cfg.latestDate)
    ensures r.Success? ==> forall name :: name in CURRENCY_FIELDS ==> ValidCurrency(Get(TxnAttributes(attrs, cfg.importerTag), name))
    ensures r.Success? ==> r.value.value.checkDuplicates == Truthy(CheckDuplicates(attrs))
    ensures (exists k :: k in TxnAttributes(attrs, cfg.importerTag) && k !in ALL_ATTRIBUTES) ==> r.Failure? && r.error.UnknownAttribute?
  {
    var checkDuplicates := CheckDuplicates(attrs);
    var a := TxnAttributes(attrs, cfg.importerTag);
    var built := NewTxn(a, Get(attrs, "small_decimals"), Get(attrs, "default_timezone"), SeedOf(checkDuplicates), cfg.env);
    if built.Failure? then Failure(UnknownAttribute(built.error))
    else CheckBuilt(cfg.latestDate, a, built.value, Truthy(Get(attrs, "ignore_duplicate_external_id")), Truthy(checkDuplicates))
  }

  /** The checks on the txn `built` from attributes `a`: the currency check, then validation. */
  function CheckBuilt(latestDate: int, a: map<string, Value>, built: Txn, ignoreDuplicateExternalId: bool, checkDuplicates: bool)
    : (r: Result<Option<Prepared>, AdapterError>)
    ensures r.Success? <==>
              (forall name :: name in CURRENCY_FIELDS ==> ValidCurrency(Get(a, name)))
              && Rules(StripCurrencies(built), latestDate)
    ensures r.Success? ==> r.value == Some(Prepared(StripCurrencies(built), ignoreDuplicateExternalId, checkDuplicates))
    ensures r.Failure? ==> r.error.Invalid?
  {
    var bad := FirstInvalidCurrencyFrom(a, 0);
    if bad.Some? then Failure(Invalid(NewTxnError(MessageSource(InvalidCurrencyMessage(bad.value)))))
    else
      var t := StripCurrencies(built);
      var errors := Validate(t, latestDate);
      ValidIffRules(t, latestDate);
      if errors != [] then Failure(Invalid(NewTxnError(TxnSource(t, errors))))
      else Success(Some(Prepared(t, ignoreDuplicateExternalId, checkDuplicates)))
  }

  /** One `sync_txn(attrs)` call: its outcome and the run state after it. */
  function SyncTxnSpec(cfg: AdapterConfig, st: RunState, attrs: map<string, Value>): (Outcome, RunState) {
    match Prepare(cfg, attrs)
    case Failure(e) => (Failed(e), st)
    case Success(None) => (Skipped, st)
    case Success(Some(q)) => Deduplicate(cfg, st, q.txn, q.ignoreDuplicateExternalId, q.checkDuplicates)
  }

  /** The two duplicate guards and the append. */
  function Deduplicate(cfg: AdapterConfig, st: RunState, t: Txn, ignoreDuplicateExternalId: bool, checkDuplicates: bool)
    : (Outcome, RunState)
  {
    if t.externalId.Some? then
      var key := ExternalKey(t, cfg.env.display);
      if Seen(st.seen, GroupOf(t), key) then
        if cfg.testEnv && !ignoreDuplicateExternalId && !HasSameTxn(st.pending, t) then
          (Failed(Invalid(NewTxnError(MessageSource(DuplicateExternalIdMessage(t.externalId.value))))), st)
        else (Skipped, st)
      else UniqueGuard(cfg, st.(seen := Record(st.seen, GroupOf(t), key)), t, checkDuplicates)
    else UniqueGuard(cfg, st, t, checkDuplicates)
  }

  function UniqueGuard(cfg: AdapterConfig, st: RunState, t: Txn, checkDuplicates: bool): (Outcome, RunState) {
    if checkDuplicates && Seen(st.seen, DUPLICATES_GROUP, t.uniqueHash) then (Skipped, st)
    else
      var seen := if checkDuplicates then Record(st.seen, DUPLICATES_GROUP, t.uniqueHash) else st.seen;
      var added := Appended(cfg.marksSynced, t);
      (Accepted(added), RunState(st.pending + [added], seen))
  }

  /** The txn `add_txn` appends: marked synced by an API adapter. */
  function Appended(marksSynced: bool, t: Txn): (r: Txn)
    ensures r == t.(synced := marksSynced || t.synced)
  {
    if marksSynced then t.(synced := true) else t
  }

  // ---------------------------------------------------------------- the run invariant

  /** A pending txn has a type, its external-id key recorded, and is synced if the adapter marks txns so. */
  predicate PendingOk(marksSynced: bool, display: Value -> string, seen: map<string, set<string>>, t: Txn) {
    && t.txnType.Some?
    && (t.externalId.Some? ==> Seen(seen, GroupOf(t), ExternalKey(t, display)))
    && (marksSynced ==> t.synced)
  }

  /** No two pending txns of one type share an external-id key. */
  predicate ExternalKeysDistinct(display: Value -> string, pending: seq<Txn>) {
    forall i, j ::
      (0 <= i < j < |pending| && pending[i].externalId.Some? && pending[j].externalId.Some?
       && GroupOf(pending[i]) == GroupOf(pending[j])) ==>
      ExternalKey(pending[i], display) != ExternalKey(pending[j], display)
  }

  predicate Inv(marksSynced: bool, display: Value -> string, st: RunState) {
    && (forall i :: 0 <= i < |st.pending| ==> PendingOk(marksSynced, display, st.seen, st.pending[i]))
    && ExternalKeysDistinct(display, st.pending)
  }

  // ---------------------------------------------------------------- find_pending_txn / matched?

  /** The attributes a query can name. */
  datatype TxnField =
    | DateField | DescriptionField | LabelField | TypeField
    | FromAmountField | FromCurrencyField | ToAmountField | ToCurrencyField
    | FromWalletField | ToWalletField | FeeAmountField | FeeCurrencyField
    | NetWorthAmountField | NetWorthCurrencyField | FeeWorthAmountField | FeeWorthCurrencyField
    | TxhashField | TxsrcField | TxdestField | ContractAddressField | MethodHashField | MethodNameField
    | ExternalIdField | ExternalDataField | ImporterTagField | MarginField | GroupNameField
    | SyncedField | UniqueHashField

  /** `record.send(field)`. */
  function FieldValue(t: Txn, f: TxnField): Value {
    match f
    case DateField => DateValue(t.date)
    case DescriptionField => OptStr(t.description)
    case LabelField => OptStr(t.labelName)
    case TypeField => TypeValue(t.txnType)
    case FromAmountField => Dec(t.fromAmount)
    case FromCurrencyField => t.fromCurrency
    case ToAmountField => Dec(t.toAmount)
    case ToCurrencyField => t.toCurrency
    case FromWalletField => t.fromWallet
    case ToWalletField => t.toWallet
    case FeeAmountField => Dec(t.feeAmount)
    case FeeCurrencyField => t.feeCurrency
    case NetWorthAmountField => Dec(t.netWorthAmount)
    case NetWorthCurrencyField => t.netWorthCurrency
    case FeeWorthAmountField => Dec(t.feeWorthAmount)
    case FeeWorthCurrencyField => t.feeWorthCurrency
    case TxhashField => OptStr(t.txhash)
    case TxsrcField => OptStr(t.txsrc)
    case TxdestField => OptStr(t.txdest)
    case ContractAddressField => OptStr(t.contractAddress)
    case MethodHashField => OptStr(t.methodHash)
    case MethodNameField => OptStr(t.methodName)
    case ExternalIdField => OptStr(t.externalId)
    case ExternalDataField => t.externalData
    case ImporterTagField => t.importerTag
    case MarginField => Bool(t.margin)
    case GroupNameField => OptStr(t.groupName)
    case SyncedField => Bool(t.synced)
    case UniqueHashField => Str(t.uniqueHash)
  }

  /** What a range's ends are: numbers, or times (as seconds). */
  datatype RangeKind = NumericRange | TimeRange

  /** A query value: an array (membership), a range (inclusion) or anything else (equality). */
  datatype Condition =
    | OneOf(values: seq<Value>)
    | Within(low: real, high: real, excludeEnd: bool, kind: RangeKind)
    | Is(value: Value)

  /** The number a range compares: integers, decimals and times (as seconds). */
  function NumberOf(v: Value): Option<real> {
    match v
    case Int(i) => Some(i as real)
    case Dec(d) => Some(d)
    case Time(s) => Some(s as real)
    case _ => None
  }

  /**
   * Ruby's `==` on the values a query compares: an integer and a decimal
   * are equal when their numbers are; otherwise the values must be the same
   * (so a symbol never equals a string).
   */
  predicate RubyEquals(a: Value, b: Value) {
    if (a.Int? || a.Dec?) && (b.Int? || b.Dec?) then NumberOf(a) == NumberOf(b)
    else a == b
  }

  /**
   * The point a range of the given kind compares: a number against a
   * numeric range, a time against a time range. Any other pairing has no
   * point, since `<=>` between a number and a time is nil and `in?` is false.
   */
  function RangePoint(v: Value, kind: RangeKind): (r: Option<real>)
    ensures r.Some? <==> if kind == NumericRange then v.Int? || v.Dec? else v.Time?
    ensures r.Some? ==> r == NumberOf(v)
  {
    match kind
    case NumericRange => if v.Int? || v.Dec? then NumberOf(v) else None
    case TimeRange => if v.Time? then NumberOf(v) else None
  }

  /** One query entry against the record's value: `include?`, `in?` or `==`. */
  predicate Holds(v: Value, c: Condition) {
    match c
    case OneOf(values) => exists k :: 0 <= k < |values| && RubyEquals(values[k], v)
    case Within(low, high, excludeEnd, kind) =>
      RangePoint(v, kind).Some? && low <= RangePoint(v, kind).value
      && (if excludeEnd then RangePoint(v, kind).value < high else RangePoint(v, kind).value <= high)
    case Is(value) => RubyEquals(v, value)
  }

  /** `matched?(record, attrs)`: every query entry holds. */
  predicate Matched(t: Txn, query: seq<(TxnField, Condition)>) {
    forall i | 0 <= i < |query| :: Holds(FieldValue(t, query[i].0), query[i].1)
  }

  /**
   * An amount query compares numbers, not representations: an integer
   * query value, alone or in an array, matches the decimal amount of the
   * same number.
   */
  lemma {:induction false} AmountQueryByNumber(t: Txn, n: int, others: seq<Value>)
    ensures Matched(t, [(FromAmountField, Is(Int(n)))]) <==> t.fromAmount == n as real
    ensures Matched(t, [(ToAmountField, OneOf([Int(n)] + others))]) <==>
              t.toAmount == n as real || exists k :: 0 <= k < |others| && RubyEquals(others[k], Dec(t.toAmount))
  {
    var single := [(FromAmountField, Is(Int(n)))];
    assert single[0] == (FromAmountField, Is(Int(n)));
    assert FieldValue(t, FromAmountField) == Dec(t.fromAmount);
    var values := [Int(n)] + others;
    var query := [(ToAmountField, OneOf(values))];
    assert query[0] == (ToAmountField, OneOf(values));
    assert FieldValue(t, ToAmountField) == Dec(t.toAmount);
    assert Matched(t, query) <==> Holds(Dec(t.toAmount), OneOf(values));
    assert values[0] == Int(n);
    if t.toAmount == n as real {
      assert RubyEquals(values[0], Dec(t.toAmount));
    }
    if exists k :: 0 <= k < |others| && RubyEquals(others[k], Dec(t.toAmount)) {
      var k :| 0 <= k < |others| && RubyEquals(others[k], Dec(t.toAmount));
      assert values[k + 1] == others[k];
    }
    if Holds(Dec(t.toAmount), OneOf(values)) {
      var k :| 0 <= k < |values| && RubyEquals(values[k], Dec(t.toAmount));
      if k > 0 {
        assert others[k - 1] == values[k];
      } else {
        assert t.toAmount == n as real;
      }
    }
    assert Matched(t, query) <==> t.toAmount == n as real || exists k :: 0 <= k < |others| && RubyEquals(others[k], Dec(t.toAmount));
  }

  /** A type query given as a symbol never matches: the type attribute is a string or nil. */
  lemma {:induction false} SymbolTypeQueryNeverMatches(t: Txn, name: string, rest: seq<(TxnField, Condition)>)
    ensures !Matched(t, [(TypeField, Is(Sym(name)))] + rest)
  {
    var query := [(TypeField, Is(Sym(name)))] + rest;
    assert query[0] == (TypeField, Is(Sym(name)));
    assert !Holds(FieldValue(t, TypeField), Is(Sym(name)));
  }

  /**
   * A range only holds values of its own kind: numeric bounds never take in
   * the date (a time or nil), and time bounds never take in an amount.
   */
  lemma {:induction false} RangeKindsDoNotMix(t: Txn, low: real, high: real, excludeEnd: bool, rest: seq<(TxnField, Condition)>)
    ensures !Matched(t, [(DateField, Within(low, high, excludeEnd, NumericRange))] + rest)
    ensures !Matched(t, [(FromAmountField, Within(low, high, excludeEnd, TimeRange))] + rest)
  {
    var byDate := [(DateField, Within(low, high, excludeEnd, NumericRange))] + rest;
    assert byDate[0] == (DateField, Within(low, high, excludeEnd, NumericRange));
    assert !Holds(FieldValue(t, DateField), byDate[0].1);
    var byAmount := [(FromAmountField, Within(low, high, excludeEnd, TimeRange))] + rest;
    assert byAmount[0] == (FromAmountField, Within(low, high, excludeEnd, TimeRange));
    assert !Holds(FieldValue(t, FromAmountField), byAmount[0].1);
  }

  // ---------------------------------------------------------------- sync_receive / sync_send / sync_trade params

  /** `sync_receive`'s rewrite: a present currency moves amount/currency to the to-leg; a falsy label becomes the deposit label. */
  function ReceiveAttrs(params: map<string, Value>, depositLabel: Value): (r: map<string, Value>)
    ensures !ValueBlank(Get(params, "currency")) ==>
              Get(r, "to_amount") == Get(params, "amount") && Get(r, "to_currency") == Get(params, "currency")
              && "amount" !in r && "currency" !in r
    ensures ValueBlank(Get(params, "currency")) ==>
              forall k :: k != "label" ==> Get(r, k) == Get(params, k)
    ensures Get(r, "label") == Or(Get(params, "label"), depositLabel)
  {
    var moved := MoveLeg(params, "to_amount", "to_currency");
    if Truthy(Get(moved, "label")) then moved else moved["label" := depositLabel]
  }

  /** `sync_send`'s rewrite: a present currency moves amount/currency to the from-leg; the label is left alone. */
  function SendAttrs(params: map<string, Value>): (r: map<string, Value>)
    ensures !ValueBlank(Get(params, "currency")) ==>
              Get(r, "from_amount") == Get(params, "amount") && Get(r, "from_currency") == Get(params, "currency")
              && "amount" !in r && "currency" !in r
    ensures ValueBlank(Get(params, "currency")) ==> r == params
    ensures Get(r, "label") == Get(params, "label")
  {
    MoveLeg(params, "from_amount", "from_currency")
  }

  function MoveLeg(params: map<string, Value>, amountKey: string, currencyKey: string): (r: map<string, Value>)
    requires amountKey != "label" && currencyKey != "label"
    ensures ValueBlank(Get(params, "currency")) ==> r == params
    ensures !ValueBlank(Get(params, "currency")) ==>
              r == (params - {"amount", "currency"})[amountKey := Get(params, "amount")][currencyKey := Get(params, "currency")]
  {
    if !ValueBlank(Get(params, "currency")) then
      (params - {"amount", "currency"})[amountKey := Get(params, "amount")][currencyKey := Get(params, "currency")]
    else params
  }

  /** The keys `sync_trade` consumes. */
  const TRADE_KEYS: set<string> := {
    "quote_amount", "quote_symbol", "base_amount", "base_symbol", "is_buy", "order_identifier", "trade_identifier"}

  /**
   * `sync_trade`'s rewrite (given `:is_buy`): a buy goes from quote to base,
   * anything else from base to quote; the order and trade identifiers,
   * when truthy, take the place of txhash and external id.
   */
  function TradeAttrs(params: map<string, Value>, env: TxnEnv): (r: map<string, Value>)
    ensures var quote := (env.normalizeAmountNoZero(Get(params, "quote_amount"), Get(params, "small_decimals")), Get(params, "quote_symbol"));
            var base := (env.normalizeAmountNoZero(Get(params, "base_amount"), Get(params, "small_decimals")), Get(params, "base_symbol"));
            var (from, to) := if Truthy(Get(params, "is_buy")) then (quote, base) else (base, quote);
            && Get(r, "from_amount") == from.0 && Get(r, "from_currency") == from.1
            && Get(r, "to_amount") == to.0 && Get(r, "to_currency") == to.1
            && Get(r, "txhash") == Or(Get(params, "order_identifier"), Get(params, "txhash"))
            && Get(r, "external_id") == Or(Get(params, "trade_identifier"), Get(params, "external_id"))
            && (forall k :: k in TRADE_KEYS ==> k !in r)
  {
    var sd := Get(params, "small_decimals");
    var quote := (env.normalizeAmountNoZero(Get(params, "quote_amount"), sd), Get(params, "quote_symbol"));
    var base := (env.normalizeAmountNoZero(Get(params, "base_amount"), sd), Get(params, "base_symbol"));
    var (from, to) := if Truthy(Get(params, "is_buy")) then (quote, base) else (base, quote);
    (params - TRADE_KEYS)["from_amount" := from.0]["from_currency" := from.1]["to_amount" := to.0]["to_currency" := to.1]
      ["txhash" := Or(Get(params, "order_identifier"), Get(params, "txhash"))]
      ["external_id" := Or(Get(params, "trade_identifier"), Get(params, "external_id"))]
  }

  // ---------------------------------------------------------------- the adapter

  class BaseAdapter {
    var hardStartDate: Option<int>
    var softStartDate: Option<int>
    var disallowExternalId: Value
    var lastMessage: Value
    const depositLabel: Value
    const importerTag: Value
    const requestId: Value
    const initializedAt: int
    /** `ENV['RACK_ENV'] == 'test'`. */
    const testEnv: bool
    /** The API adapter's `add_txn` marks every appended txn as synced. */
    const marksSynced: bool
    const env: TxnEnv
    var pendingTxns: seq<Txn>
    /** `@uniq_hashes`: the hashes seen per group. */
    var uniqHashes: map<string, set<string>>

    function State(): RunState
      reads this
    {
      RunState(pendingTxns, uniqHashes)
    }

    function Config(latestDate: int): AdapterConfig
      reads this
    {
      AdapterConfig(hardStartDate, softStartDate, importerTag, testEnv, marksSynced, latestDate, env)
    }

    predicate Valid()
      reads this
    {
      Inv(marksSynced, env.display, State())
    }

    /** `initialize(options)`; `now` is the clock and `toDateTime` is `to_datetime`. */
    constructor (options: map<string, Value>, now: int, testEnv: bool, marksSynced: bool, env: TxnEnv, toDateTime: Value -> Option<int>)
      ensures hardStartDate == (if Get(options, "start_date").Nil? then None else toDateTime(Get(options, "start_date")))
      ensures softStartDate == None && disallowExternalId == Nil && lastMessage == Nil
      ensures depositLabel == Get(options, "deposit_label") && importerTag == Get(options, "importer_tag")
      ensures requestId == Get(options, "request_id") && initializedAt == now
      ensures this.testEnv == testEnv && this.marksSynced == marksSynced && this.env == env
      ensures pendingTxns == [] && uniqHashes == map[]
      ensures Valid()
    {
      hardStartDate := if Get(options, "start_date").Nil? then None else toDateTime(Get(options, "start_date"));
      softStartDate := None;
      disallowExternalId := Nil;
      lastMessage := Nil;
      depositLabel := Get(options, "deposit_label");
      importerTag := Get(options, "importer_tag");
      requestId := Get(options, "request_id");
      initializedAt := now;
      this.testEnv := testEnv;
      this.marksSynced := marksSynced;
      this.env := env;
      pendingTxns := [];
      uniqHashes := map[];
    }

    /** `start_date`: the hard start date. */
    function StartDate(): (r: Option<int>)
      reads this
      ensures r == hardStartDate
    {
      hardStartDate
    }

    /** The end of every `commit!`: hands over the pending txns, each synced when the adapter marks them, and empties the list. */
    method ClearPending() returns (published: seq<Txn>)
      requires Valid()
      modifies this
      ensures Valid()
      ensures published == old(pendingTxns) && pendingTxns == []
      ensures marksSynced ==> forall i :: 0 <= i < |published| ==> published[i].synced
      ensures uniqHashes == old(uniqHashes)
      ensures hardStartDate == old(hardStartDate) && softStartDate == old(softStartDate)
      ensures disallowExternalId == old(disallowExternalId) && lastMessage == old(lastMessage)
    {
      published := pendingTxns;
      pendingTxns := [];
    }

    /** `duplicate?(hash, group)`: whether `hash` was already seen in `group`; it is recorded either way. */
    method Duplicate(hash: string, group: string) returns (dup: bool)
      modifies this
      ensures dup == Seen(old(uniqHashes), group, hash)
      ensures uniqHashes == Record(old(uniqHashes), group, hash)
      ensures pendingTxns == old(pendingTxns)
      ensures hardStartDate == old(hardStartDate) && softStartDate == old(softStartDate)
      ensures disallowExternalId == old(disallowExternalId) && lastMessage == old(lastMessage)
    {
      if group !in uniqHashes {
        uniqHashes := uniqHashes[group := {}];
      }
      if hash in uniqHashes[group] {
        assert uniqHashes[group] + {hash} == uniqHashes[group];
        return true;
      }
      uniqHashes := uniqHashes[group := uniqHashes[group] + {hash}];
      return false;
    }

    /** `add_txn`: appends the txn (marked synced by an API adapter) and returns it. */
    method AddTxn(t: Txn) returns (added: Txn)
      modifies this
      ensures added == Appended(marksSynced, t)
      ensures pendingTxns == old(pendingTxns) + [added]
      ensures uniqHashes == old(uniqHashes)
      ensures hardStartDate == old(hardStartDate) && softStartDate == old(softStartDate)
      ensures disallowExternalId == old(disallowExternalId) && lastMessage == old(lastMessage)
    {
      added := t;
      if marksSynced {
        added := added.(synced := true);
      }
      pendingTxns := pendingTxns + [added];
    }

    /** The currency loop of `sync_txn`: the first currency attribute `valid_currency?` refuses, if any. */
    static method CheckCurrencies(attrs: map<string, Value>) returns (bad: Option<string>)
      ensures bad == FirstInvalidCurrencyFrom(attrs, 0)
      ensures bad.None? <==> forall name :: name in CURRENCY_FIELDS ==> ValidCurrency(Get(attrs, name))
    {
      var i := 0;
      while i < |CURRENCY_FIELDS|
        invariant 0 <= i <= |CURRENCY_FIELDS|
        invariant FirstInvalidCurrencyFrom(attrs, i) == FirstInvalidCurrencyFrom(attrs, 0)
      {
        if !ValidCurrency(Get(attrs, CURRENCY_FIELDS[i])) {
          return Some(CURRENCY_FIELDS[i]);
        }
        i := i + 1;
      }
      return None;
    }

    /** `sync_txn(attrs)`. */
    method SyncTxn(attrs: map<string, Value>, latestDate: int) returns (r: Outcome)
      requires Valid()
      modifies this
      ensures Valid()
      ensures (r, State()) == SyncTxnSpec(old(Config(latestDate)), old(State()), attrs)
      ensures hardStartDate == old(hardStartDate) && softStartDate == old(softStartDate)
      ensures disallowExternalId == old(disallowExternalId) && lastMessage == old(lastMessage)
    {
      SyncTxnKeepsInv(Config(latestDate), State(), attrs);
      var p := PrepareTxn(attrs, latestDate);
      match p
      case Failure(e) =>
        return Failed(e);
      case Success(None) =>
        return Skipped;
      case Success(Some(q)) =>
        r := DeduplicateAndAdd(q.txn, q.ignoreDuplicateExternalId, q.checkDuplicates, latestDate);
    }

    /** The steps of `sync_txn` before the duplicate guards. */
    method PrepareTxn(attrs: map<string, Value>, latestDate: int) returns (p: Result<Option<Prepared>, AdapterError>)
      ensures p == Prepare(Config(latestDate), attrs)
    {
      var date := env.normalizeDate(Get(attrs, "date"), Nil);
      var skip := SkipTxn(hardStartDate, softStartDate, date, Truthy(Get(attrs, "bypass_soft_start_date")));
      if skip.Failure? {
        return Failure(skip.error);
      }
      if skip.value {
        return Success(None);
      }
      p := BuildTxn(attrs - {"bypass_soft_start_date"}, latestDate);
    }

    /** `importer_tag ||=`, the options taken out, `Txn.new`, then the checks. */
    method BuildTxn(attrs: map<string, Value>, latestDate: int) returns (p: Result<Option<Prepared>, AdapterError>)
      ensures p == PrepareUnskipped(Config(latestDate), attrs)
    {
      var a := attrs;
      if !Truthy(Get(a, "importer_tag")) {
        a := a["importer_tag" := importerTag];
      }
      var ignoreDuplicateExternalId := Truthy(Get(a, "ignore_duplicate_external_id"));
      var checkDuplicates := PresenceOf(Get(a, "unique"));
      var smallDecimals := Get(a, "small_decimals");
      var timezone := Get(a, "default_timezone");
      a := a - OPTION_KEYS;
      assert a == TxnAttributes(attrs, importerTag);
      var built := NewTxn(a, smallDecimals, timezone, SeedOf(checkDuplicates), env);
      if built.Failure? {
        return Failure(UnknownAttribute(built.error));
      }
      p := CheckBuiltTxn(a, built.value, ignoreDuplicateExternalId, Truthy(checkDuplicates), latestDate);
    }

    /** The currency check and `txn.valid?`. */
    static method CheckBuiltTxn(a: map<string, Value>, built: Txn, ignoreDuplicateExternalId: bool, checkDuplicates: bool,
                                latestDate: int) returns (p: Result<Option<Prepared>, AdapterError>)
      ensures p == CheckBuilt(latestDate, a, built, ignoreDuplicateExternalId, checkDuplicates)
    {
      var bad := CheckCurrencies(a);
      if bad.Some? {
        return Failure(Invalid(NewTxnError(MessageSource(InvalidCurrencyMessage(bad.value)))));
      }
      var t := StripCurrencies(built);
      var errors := Validate(t, latestDate);
      if errors != [] {
        return Failure(Invalid(NewTxnError(TxnSource(t, errors))));
      }
      return Success(Some(Prepared(t, ignoreDuplicateExternalId, checkDuplicates)));
    }

    /** The external-id duplicate guard of `sync_txn`, then the unique-hash guard and the append. */
    method DeduplicateAndAdd(t: Txn, ignoreDuplicateExternalId: bool, checkDuplicates: bool, latestDate: int) returns (r: Outcome)
      modifies this
      ensures (r, State()) == Deduplicate(old(Config(latestDate)), old(State()), t, ignoreDuplicateExternalId, checkDuplicates)
      ensures hardStartDate == old(hardStartDate) && softStartDate == old(softStartDate)
      ensures disallowExternalId == old(disallowExternalId) && lastMessage == old(lastMessage)
    {
      if t.externalId.Some? {
        var dup := Duplicate(ExternalKey(t, env.display), GroupOf(t));
        if dup {
          if testEnv && !ignoreDuplicateExternalId && !HasSameTxn(pendingTxns, t) {
            r := Failed(Invalid(NewTxnError(MessageSource(DuplicateExternalIdMessage(t.externalId.value)))));
            return;
          }
          return Skipped;
        }
      }
      r := AddUnlessDuplicate(t, checkDuplicates, latestDate);
    }

    /** `return if check_duplicates && duplicate?(txn.unique_hash, 'duplicates'); add_txn(txn); txn`. */
    method AddUnlessDuplicate(t: Txn, checkDuplicates: bool, latestDate: int) returns (r: Outcome)
      modifies this
      ensures (r, State()) == UniqueGuard(old(Config(latestDate)), old(State()), t, checkDuplicates)
      ensures hardStartDate == old(hardStartDate) && softStartDate == old(softStartDate)
      ensures disallowExternalId == old(disallowExternalId) && lastMessage == old(lastMessage)
    {
      if checkDuplicates {
        var dup := Duplicate(t.uniqueHash, DUPLICATES_GROUP);
        if dup {
          return Skipped;
        }
      }
      var added := AddTxn(t);
      return Accepted(added);
    }

    /** `decimalize(params[:amount], small_decimals: params[:small_decimals])`. */
    function ParamsAmount(params: map<string, Value>): real
      reads this
    {
      env.normalizeAmount(Get(params, "amount"), Get(params, "small_decimals"))
    }

    /** `sync_receive(params)`: nothing for a zero amount; otherwise the to-leg rewrite, then `sync_txn`. */
    method SyncReceive(params: map<string, Value>, latestDate: int) returns (r: Outcome)
      requires Valid()
      modifies this
      ensures Valid()
      ensures ParamsAmount(params) == 0.0 ==> r == Skipped && State() == old(State())
      ensures ParamsAmount(params) != 0.0 ==>
                (r, State()) == SyncTxnSpec(old(Config(latestDate)), old(State()), ReceiveAttrs(params, depositLabel))
      ensures hardStartDate == old(hardStartDate) && softStartDate == old(softStartDate)
      ensures disallowExternalId == old(disallowExternalId) && lastMessage == old(lastMessage)
    {
      if env.normalizeAmount(Get(params, "amount"), Get(params, "small_decimals")) == 0.0 {
        return Skipped;
      }
      r := SyncTxn(ReceiveAttrs(params, depositLabel), latestDate);
    }

    /** `sync_send(params)`: nothing for a zero amount; otherwise the from-leg rewrite, then `sync_txn`. */
    method SyncSend(params: map<string, Value>, latestDate: int) returns (r: Outcome)
      requires Valid()
      modifies this
      ensures Valid()
      ensures ParamsAmount(params) == 0.0 ==> r == Skipped && State() == old(State())
      ensures ParamsAmount(params) != 0.0 ==>
                (r, State()) == SyncTxnSpec(old(Config(latestDate)), old(State()), SendAttrs(params))
      ensures hardStartDate == old(hardStartDate) && softStartDate == old(softStartDate)
      ensures disallowExternalId == old(disallowExternalId) && lastMessage == old(lastMessage)
    {
      if env.normalizeAmount(Get(params, "amount"), Get(params, "small_decimals")) == 0.0 {
        return Skipped;
      }
      r := SyncTxn(SendAttrs(params), latestDate);
    }

    /** `sync_amount(params)`: a positive amount is received, a negative one sent, zero ignored. */
    method SyncAmount(params: map<string, Value>, latestDate: int) returns (r: Outcome)
      requires Valid()
      modifies this
      ensures Valid()
      ensures ParamsAmount(params) == 0.0 ==> r == Skipped && State() == old(State())
      ensures ParamsAmount(params) > 0.0 ==>
                (r, State()) == SyncTxnSpec(old(Config(latestDate)), old(State()), ReceiveAttrs(params, depositLabel))
      ensures ParamsAmount(params) < 0.0 ==>
                (r, State()) == SyncTxnSpec(old(Config(latestDate)), old(State()), SendAttrs(params))
      ensures hardStartDate == old(hardStartDate) && softStartDate == old(softStartDate)
      ensures disallowExternalId == old(disallowExternalId) && lastMessage == old(lastMessage)
    {
      var amount := env.normalizeAmount(Get(params, "amount"), Get(params, "small_decimals"));
      if amount > 0.0 {
        r := SyncReceive(params, latestDate);
      } else if amount < 0.0 {
        r := SyncSend(params, latestDate);
      } else {
        r := Skipped;
      }
    }

    /** `sync_trade(params)`: raises without `:is_buy`; otherwise the trade rewrite, then `sync_txn`. */
    method SyncTrade(params: map<string, Value>, latestDate: int) returns (r: Outcome)
      requires Valid()
      modifies this
      ensures Valid()
      ensures "is_buy" !in params ==> r == Failed(ArgumentError("ArgumentError")) && State() == old(State())
      ensures "is_buy" in params ==>
                (r, State()) == SyncTxnSpec(old(Config(latestDate)), old(State()), TradeAttrs(params, env))
      ensures hardStartDate == old(hardStartDate) && softStartDate == old(softStartDate)
      ensures disallowExternalId == old(disallowExternalId) && lastMessage == old(lastMessage)
    {
      if "is_buy" !in params {
        return Failed(ArgumentError("ArgumentError"));
      }
      r := SyncTxn(TradeAttrs(params, env), latestDate);
    }

    /** `find_pending_txn(query)`: the latest pending txn matching every entry of the query, or nil. */
    method FindPendingTxn(query: seq<(TxnField, Condition)>) returns (r: Option<Txn>)
      ensures r.Some? ==> exists i :: 0 <= i < |pendingTxns| && pendingTxns[i] == r.value
                            && Matched(r.value, query)
                            && forall j :: i < j < |pendingTxns| ==> !Matched(pendingTxns[j], query)
      ensures r.None? <==> forall i :: 0 <= i < |pendingTxns| ==> !Matched(pendingTxns[i], query)
    {
      var i := |pendingTxns|;
      while i > 0
        invariant 0 <= i <= |pendingTxns|
        invariant forall j :: i <= j < |pendingTxns| ==> !Matched(pendingTxns[j], query)
      {
        i := i - 1;
        if Matched(pendingTxns[i], query) {
          return Some(pendingTxns[i]);
        }
      }
      return None;
    }
  }

  // ---------------------------------------------------------------- lemmas

  /** The run invariant survives every `sync_txn` outcome. */
  lemma SyncTxnKeepsInv(cfg: AdapterConfig, st: RunState, attrs: map<string, Value>)
    requires Inv(cfg.marksSynced, cfg.env.display, st)
    ensures Inv(cfg.marksSynced, cfg.env.display, SyncTxnSpec(cfg, st, attrs).1)
  {
    var p := Prepare(cfg, attrs);
    if p.Success? && p.value.Some? {
      var q := p.value.value;
      DeduplicateKeepsInv(cfg, st, q.txn, q.ignoreDuplicateExternalId, q.checkDuplicates);
    }
  }

  lemma DeduplicateKeepsInv(cfg: AdapterConfig, st: RunState, t: Txn, ignore: bool, check: bool)
    requires Inv(cfg.marksSynced, cfg.env.display, st)
    requires t.txnType.Some?
    ensures Inv(cfg.marksSynced, cfg.env.display, Deduplicate(cfg, st, t, ignore, check).1)
  {
    var display := cfg.env.display;
    if t.externalId.Some? {
      var key := ExternalKey(t, display);
      if !Seen(st.seen, GroupOf(t), key) {
        var st1 := st.(seen := Record(st.seen, GroupOf(t), key));
        assert Inv(cfg.marksSynced, display, st1) by {
          forall i | 0 <= i < |st1.pending|
            ensures PendingOk(cfg.marksSynced, display, st1.seen, st1.pending[i])
          {
            assert PendingOk(cfg.marksSynced, display, st.seen, st.pending[i]);
          }
        }
        UniqueGuardKeepsInv(cfg, st1, t, check);
      }
    } else {
      UniqueGuardKeepsInv(cfg, st, t, check);
    }
  }

  lemma UniqueGuardKeepsInv(cfg: AdapterConfig, st: RunState, t: Txn, check: bool)
    requires Inv(cfg.marksSynced, cfg.env.display, st)
    requires t.txnType.Some?
    requires t.externalId.Some? ==> Seen(st.seen, GroupOf(t), ExternalKey(t, cfg.env.display))
    requires t.externalId.Some? ==> forall i ::
               (0 <= i < |st.pending| && st.pending[i].externalId.Some? && GroupOf(st.pending[i]) == GroupOf(t)) ==>
               ExternalKey(st.pending[i], cfg.env.display) != ExternalKey(t, cfg.env.display)
    ensures Inv(cfg.marksSynced, cfg.env.display, UniqueGuard(cfg, st, t, check).1)
  {
    var display := cfg.env.display;
    if !(check && Seen(st.seen, DUPLICATES_GROUP, t.uniqueHash)) {
      var post := UniqueGuard(cfg, st, t, check).1;
      var added := Appended(cfg.marksSynced, t);
      assert post.pending == st.pending + [added];
      forall i | 0 <= i < |post.pending|
        ensures PendingOk(cfg.marksSynced, display, post.seen, post.pending[i])
      {
        if i < |st.pending| {
          assert PendingOk(cfg.marksSynced, display, st.seen, st.pending[i]);
        }
      }
    }
  }

  /**
   * What the duplicate guards leave behind: a raise changes nothing, a skip
   * appends nothing, an accepted txn is the given one (marked synced by an
   * API adapter) appended last, with its external-id key and, when asked,
   * its unique hash recorded for the first time; no recorded hash is ever
   * forgotten.
   */
  lemma DeduplicateOutcomes(cfg: AdapterConfig, st: RunState, t: Txn, ignore: bool, check: bool)
    ensures var (r, post) := Deduplicate(cfg, st, t, ignore, check);
            && (r.Failed? ==> post == st)
            && (r.Skipped? ==> post.pending == st.pending)
            && (r.Accepted? ==> r.txn == Appended(cfg.marksSynced, t) && post.pending == st.pending + [r.txn])
            && (r.Accepted? && t.externalId.Some? ==>
                  && !Seen(st.seen, GroupOf(t), ExternalKey(t, cfg.env.display))
                  && Seen(post.seen, GroupOf(t), ExternalKey(t, cfg.env.display)))
            && (r.Accepted? && check ==>
                  && !Seen(st.seen, DUPLICATES_GROUP, t.uniqueHash)
                  && Seen(post.seen, DUPLICATES_GROUP, t.uniqueHash))
            && (forall g, h :: Seen(st.seen, g, h) ==> Seen(post.seen, g, h))
  {
    if t.externalId.Some? && !Seen(st.seen, GroupOf(t), ExternalKey(t, cfg.env.display)) {
      var st1 := st.(seen := Record(st.seen, GroupOf(t), ExternalKey(t, cfg.env.display)));
      assert Deduplicate(cfg, st, t, ignore, check) == UniqueGuard(cfg, st1, t, check);
      if check {
        assert Seen(st1.seen, DUPLICATES_GROUP, t.uniqueHash) <==> Seen(st.seen, DUPLICATES_GROUP, t.uniqueHash) by {
          DuplicatesGroupIsNoType(t);
        }
      }
    }
  }

  /**
   * `sync_txn`'s outcomes: a raise changes nothing, a skip appends nothing,
   * an accepted txn is the prepared one (so it satisfies the validation
   * rules) appended last; recorded hashes only grow.
   */
  lemma SyncTxnOutcomes(cfg: AdapterConfig, st: RunState, attrs: map<string, Value>)
    ensures var (r, post) := SyncTxnSpec(cfg, st, attrs);
            && (r.Failed? ==> post == st)
            && (r.Skipped? ==> post.pending == st.pending)
            && (r.Accepted? ==>
                  && Prepare(cfg, attrs).Success? && Prepare(cfg, attrs).value.Some?
                  && r.txn == Appended(cfg.marksSynced, Prepare(cfg, attrs).value.value.txn)
                  && post.pending == st.pending + [r.txn])
            && (forall g, h :: Seen(st.seen, g, h) ==> Seen(post.seen, g, h))
  {
    var p := Prepare(cfg, attrs);
    if p.Success? && p.value.Some? {
      var q := p.value.value;
      DeduplicateOutcomes(cfg, st, q.txn, q.ignoreDuplicateExternalId, q.checkDuplicates);
    }
  }

  /**
   * A prepared txn whose external-id key is already recorded for its type
   * is never appended and changes nothing: in the test environment it
   * raises unless ignored or an identical pending txn exists; otherwise it
   * is skipped.
   */
  lemma DuplicateExternalIdNotAppended(cfg: AdapterConfig, st: RunState, attrs: map<string, Value>)
    requires Prepare(cfg, attrs).Success? && Prepare(cfg, attrs).value.Some?
    requires var t := Prepare(cfg, attrs).value.value.txn;
             t.externalId.Some? && Seen(st.seen, GroupOf(t), ExternalKey(t, cfg.env.display))
    ensures SyncTxnSpec(cfg, st, attrs).1 == st
    ensures var q := Prepare(cfg, attrs).value.value;
            SyncTxnSpec(cfg, st, attrs).0 ==
              if cfg.testEnv && !q.ignoreDuplicateExternalId && !HasSameTxn(st.pending, q.txn)
              then Failed(Invalid(NewTxnError(MessageSource(DuplicateExternalIdMessage(q.txn.externalId.value)))))
              else Skipped
  {
  }

  /** After a call that got past the checks, the call's key (external id, or else unique hash when asked) is recorded. */
  lemma SyncTxnRecordsKey(cfg: AdapterConfig, st: RunState, attrs: map<string, Value>)
    requires Prepare(cfg, attrs).Success? && Prepare(cfg, attrs).value.Some?
    ensures var q := Prepare(cfg, attrs).value.value;
            var post := SyncTxnSpec(cfg, st, attrs).1;
            && (q.txn.externalId.Some? ==> Seen(post.seen, GroupOf(q.txn), ExternalKey(q.txn, cfg.env.display)))
            && (q.txn.externalId.None? && q.checkDuplicates ==> Seen(post.seen, DUPLICATES_GROUP, q.txn.uniqueHash))
  {
    var q := Prepare(cfg, attrs).value.value;
    if q.txn.externalId.Some? {
      var key := ExternalKey(q.txn, cfg.env.display);
      if !Seen(st.seen, GroupOf(q.txn), key) {
        var st1 := st.(seen := Record(st.seen, GroupOf(q.txn), key));
        assert SyncTxnSpec(cfg, st, attrs) == UniqueGuard(cfg, st1, q.txn, q.checkDuplicates);
      }
    }
  }

  /**
   * Syncing the same attributes twice never appends the second time, as
   * long as the txn has an external id or `unique:` is set.
   */
  lemma {:induction false} ResyncNotAppended(cfg: AdapterConfig, st: RunState, attrs: map<string, Value>)
    requires Prepare(cfg, attrs).Success? && Prepare(cfg, attrs).value.Some?
    requires Prepare(cfg, attrs).value.value.txn.externalId.Some? || Prepare(cfg, attrs).value.value.checkDuplicates
    ensures !SyncTxnSpec(cfg, SyncTxnSpec(cfg, st, attrs).1, attrs).0.Accepted?
  {
    var q := Prepare(cfg, attrs).value.value;
    var post := SyncTxnSpec(cfg, st, attrs).1;
    SyncTxnRecordsKey(cfg, st, attrs);
    if q.txn.externalId.Some? {
      DuplicateExternalIdNotAppended(cfg, post, attrs);
    }
  }

  /** A receive with a currency and no from-leg is a deposit of that currency. */
  lemma ReceiveIsDeposit(params: map<string, Value>, depositLabel: Value)
    requires !ValueBlank(Get(params, "currency")) && !Truthy(Get(params, "from_currency"))
    ensures var r := ReceiveAttrs(params, depositLabel);
            DeriveType(Get(r, "from_currency"), Get(r, "to_currency")) == Some(Deposit)
  {
    var r := ReceiveAttrs(params, depositLabel);
    assert Get(r, "from_currency") == Get(params, "from_currency");
  }

  /** A send with a currency and no to-leg is a withdrawal of that currency. */
  lemma SendIsWithdrawal(params: map<string, Value>)
    requires !ValueBlank(Get(params, "currency")) && !Truthy(Get(params, "to_currency"))
    ensures var r := SendAttrs(params);
            DeriveType(Get(r, "from_currency"), Get(r, "to_currency")) == Some(Withdrawal)
  {
    var r := SendAttrs(params);
    assert Get(r, "to_currency") == Get(params, "to_currency");
  }

  /** A trade between two different, set symbols is a trade, whichever side buys. */
  lemma TradeIsTrade(params: map<string, Value>, env: TxnEnv)
    requires Truthy(Get(params, "quote_symbol")) && Truthy(Get(params, "base_symbol"))
    requires Get(params, "quote_symbol") != Get(params, "base_symbol")
    ensures var r := TradeAttrs(params, env);
            DeriveType(Get(r, "from_currency"), Get(r, "to_currency")) == Some(Trade)
  {
  }
}
