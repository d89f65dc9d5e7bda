/**
 * The txn as the snapshot formatter sees it: a built `Txn` whose currencies
 * are re-read as currency values, whose type is replaced by one of the
 * legacy types (buy, sell, exchange, transfer, fiat or crypto deposit and
 * withdrawal), whose transfer fee is made explicit, and which contributes
 * ledger entries: the from-leg and the fee negative, the to-leg positive.
 */
module SnapshotTxns {
  import opened Wrappers
  import opened Values
  import opened TxnModel
  import opened SnapshotCurrencies
  import opened Enumerables

  const BUY := "buy"
  const SELL := "sell"
  const EXCHANGE := "exchange"
  const LEGACY_TRANSFER := "transfer"
  const FIAT_DEPOSIT := "fiat_deposit"
  const FIAT_WITHDRAWAL := "fiat_withdrawal"
  const CRYPTO_DEPOSIT := "crypto_deposit"
  const CRYPTO_WITHDRAWAL := "crypto_withdrawal"

  const DEPRECATED_TYPES: seq<string> :=
    [BUY, SELL, EXCHANGE, LEGACY_TRANSFER, FIAT_DEPOSIT, FIAT_WITHDRAWAL, CRYPTO_DEPOSIT, CRYPTO_WITHDRAWAL]

  /**
   * A `FakeTxn`: the underlying txn (dates, amounts, wallets and the rest)
   * with its currency fields replaced by currency values and its legacy type.
   */
  datatype FakeTxn = FakeTxn(
    base: Txn,
    legacyType: string,
    fromCurrency: Option<CurrencyValue>,
    toCurrency: Option<CurrencyValue>,
    feeCurrency: Option<CurrencyValue>,
    netWorthCurrency: Option<CurrencyValue>,
    feeWorthCurrency: Option<CurrencyValue>)
  {
    /** `deposit?`: a legacy deposit type. */
    predicate IsDeposit() { legacyType == FIAT_DEPOSIT || legacyType == CRYPTO_DEPOSIT }
    /** `withdrawal?`: a legacy withdrawal type. */
    predicate IsWithdrawal() { legacyType == FIAT_WITHDRAWAL || legacyType == CRYPTO_WITHDRAWAL }
  }

  /** A built worth currency is kept only when it is fiat. */
  function FiatOnly(c: Option<CurrencyValue>, fiats: set<string>): (r: Option<CurrencyValue>)
    ensures r.Some? <==> c.Some? && Fiat(c.value, fiats)
    ensures r.Some? ==> r == c
  {
    if c.Some? && Fiat(c.value, fiats) then c else None
  }

  /**
   * The legacy type: equal currencies make a transfer, two fiat or two
   * crypto currencies an exchange, fiat for crypto a buy and crypto for
   * fiat a sell; a single leg is a fiat or crypto deposit or withdrawal.
   */
  function LegacyType(from: Option<CurrencyValue>, to: Option<CurrencyValue>, fiats: set<string>): (r: string)
    requires from.Some? || to.Some?
    ensures r in DEPRECATED_TYPES
    ensures from.Some? && to.Some? ==> (r == LEGACY_TRANSFER <==> Equal(from.value, to, fiats))
    ensures from.Some? && to.Some? && !Equal(from.value, to, fiats) ==>
              (r == EXCHANGE <==> (Fiat(from.value, fiats) <==> Fiat(to.value, fiats)))
              && (r == BUY <==> Fiat(from.value, fiats) && !Fiat(to.value, fiats))
              && (r == SELL <==> !Fiat(from.value, fiats) && Fiat(to.value, fiats))
    ensures from.Some? && to.None? ==> r == (if Fiat(from.value, fiats) then FIAT_WITHDRAWAL else CRYPTO_WITHDRAWAL)
    ensures from.None? ==> r == (if Fiat(to.value, fiats) then FIAT_DEPOSIT else CRYPTO_DEPOSIT)
  {
    if from.Some? && to.Some? then
      if Equal(from.value, to, fiats) then LEGACY_TRANSFER
      else if (Fiat(from.value, fiats) && Fiat(to.value, fiats)) || (!Fiat(from.value, fiats) && !Fiat(to.value, fiats)) then EXCHANGE
      else if Fiat(from.value, fiats) then BUY
      else SELL
    else if from.Some? then (if Fiat(from.value, fiats) then FIAT_WITHDRAWAL else CRYPTO_WITHDRAWAL)
    else (if Fiat(to.value, fiats) then FIAT_DEPOSIT else CRYPTO_DEPOSIT)
  }

  /**
   * `FakeTxn.new(attrs)` over the built txn: raises when it has neither
   * currency; a crypto withdrawal (deposit) whose fee is in its own
   * currency loses its fee currency; a transfer with no fee whose amounts
   * differ gets the difference as fee, in the from-currency, and its
   * from-amount lowered to the to-amount.
   */
  function NewFakeTxn(t: Txn, fiats: set<string>): (r: Result<FakeTxn, string>)
    ensures r.Failure? <==> BuildCurrency(t.fromCurrency).None? && BuildCurrency(t.toCurrency).None?
    ensures r.Success? ==> var f := r.value;
              && f.fromCurrency == BuildCurrency(t.fromCurrency) && f.toCurrency == BuildCurrency(t.toCurrency)
              && f.legacyType == LegacyType(f.fromCurrency, f.toCurrency, fiats)
              && f.netWorthCurrency == FiatOnly(BuildCurrency(t.netWorthCurrency), fiats)
              && f.feeWorthCurrency == FiatOnly(BuildCurrency(t.feeWorthCurrency), fiats)
              && f.base.toAmount == t.toAmount && f.base.date == t.date
              && f.base.fromWallet == t.fromWallet && f.base.toWallet == t.toWallet
  {
    var from := BuildCurrency(t.fromCurrency);
    var to := BuildCurrency(t.toCurrency);
    if from.None? && to.None? then Failure("NoMethodError: undefined method `fiat?' for nil")
    else
      var legacy := LegacyType(from, to, fiats);
      var fee := BuildCurrency(t.feeCurrency);
      var fee1 := if legacy == CRYPTO_WITHDRAWAL && Equal(from.value, fee, fiats) then None else fee;
      var fee2 := if legacy == CRYPTO_DEPOSIT && Equal(to.value, fee1, fiats) then None else fee1;
      var f := FakeTxn(t, legacy, from, to, fee2, FiatOnly(BuildCurrency(t.netWorthCurrency), fiats), FiatOnly(BuildCurrency(t.feeWorthCurrency), fiats));
      Success(ExplicitTransferFee(f))
  }

  /** The transfer-fee adjustment at the end of `initialize`. */
  function ExplicitTransferFee(f: FakeTxn): (r: FakeTxn)
    ensures r.base.toAmount == f.base.toAmount && r.legacyType == f.legacyType
    ensures r.fromCurrency == f.fromCurrency && r.toCurrency == f.toCurrency
    ensures r.base.date == f.base.date && r.base.fromWallet == f.base.fromWallet && r.base.toWallet == f.base.toWallet
    ensures r.base.fromAmount + r.base.feeAmount == f.base.fromAmount + f.base.feeAmount
  {
    var b := f.base;
    if f.legacyType == LEGACY_TRANSFER && b.feeAmount == 0.0 && b.fromAmount - b.toAmount != 0.0 then
      var fee := b.fromAmount - b.toAmount;
      f.(base := b.(feeAmount := fee, fromAmount := b.fromAmount - fee), feeCurrency := f.fromCurrency)
    else f
  }

  /**
   * The fee rules of `initialize`: a crypto withdrawal or deposit never
   * keeps a fee in the currency of its leg, and a transfer that loses value
   * without a recorded fee ends with equal amounts and the loss as its fee.
   */
  lemma {:induction false} FakeTxnFeeRules(t: Txn, fiats: set<string>)
    requires NewFakeTxn(t, fiats).Success?
    ensures var f := NewFakeTxn(t, fiats).value;
            && (f.legacyType == CRYPTO_WITHDRAWAL ==> !Equal(f.fromCurrency.value, f.feeCurrency, fiats))
            && (f.legacyType == CRYPTO_DEPOSIT ==> !Equal(f.toCurrency.value, f.feeCurrency, fiats))
            && (f.legacyType == LEGACY_TRANSFER && t.feeAmount == 0.0 && t.fromAmount != t.toAmount ==>
                  && f.base.fromAmount == t.toAmount
                  && f.base.feeAmount == t.fromAmount - t.toAmount
                  && f.feeCurrency == f.fromCurrency)
            && (f.legacyType != LEGACY_TRANSFER ==> f.base.fromAmount == t.fromAmount && f.base.feeAmount == t.feeAmount)
  {
    var from := BuildCurrency(t.fromCurrency);
    var to := BuildCurrency(t.toCurrency);
    var legacy := LegacyType(from, to, fiats);
    assert legacy != LEGACY_TRANSFER ==> ExplicitTransferFee(NewFakeTxn(t, fiats).value) == NewFakeTxn(t, fiats).value;
  }

  /** `valid?`: false exactly for the same crypto currency on both sides within one wallet. */
  predicate ValidFake(f: FakeTxn, fiats: set<string>) {
    !(Same(f.fromCurrency, f.toCurrency, fiats)
      && f.fromCurrency.Some? && !Fiat(f.fromCurrency.value, fiats)
      && f.toCurrency.Some? && !Fiat(f.toCurrency.value, fiats)
      && f.base.fromWallet == f.base.toWallet)
  }

  /** An invalid fake txn is a crypto transfer within one wallet; any other type is valid. */
  lemma InvalidIsSelfTransfer(f: FakeTxn, fiats: set<string>)
    requires f.fromCurrency.Some? || f.toCurrency.Some?
    requires f.legacyType == LegacyType(f.fromCurrency, f.toCurrency, fiats)
    ensures !ValidFake(f, fiats) <==>
              f.legacyType == LEGACY_TRANSFER && !Fiat(f.fromCurrency.value, fiats) && f.base.fromWallet == f.base.toWallet
  {
  }

  // ---------------------------------------------------------------- entries

  /** One ledger entry of a fake txn. */
  datatype Entry = Entry(
    date: Option<int>,
    isFee: bool,
    ledger: Option<string>,
    amount: real,
    synced: bool,
    txhash: Option<string>,
    externalId: Option<string>,
    importerTag: Value,
    uniqueHash: string)

  /** The entry carries its txn's date, sync flag, hash, external id, importer tag and unique hash. */
  predicate Carries(e: Entry, f: FakeTxn) {
    e.date == f.base.date && e.synced == f.base.synced && e.txhash == f.base.txhash
    && e.externalId == f.base.externalId && e.importerTag == f.base.importerTag && e.uniqueHash == f.base.uniqueHash
  }

  function EntryOf(f: FakeTxn, isFee: bool, c: CurrencyValue, amount: real): Entry {
    Entry(f.base.date, isFee, c.symbol, amount, f.base.synced, f.base.txhash, f.base.externalId, f.base.importerTag, f.base.uniqueHash)
  }

  /** `from_entry`: the from-leg, negative, in the from-currency's ledger; nil without a from-currency. */
  /** `e` is `f`'s from-leg: negative, in the from-currency's ledger, not a fee. */
  predicate FromLeg(e: Option<Entry>, f: FakeTxn) {
    e.Some? && Carries(e.value, f) && !e.value.isFee && f.fromCurrency.Some?
    && e.value.ledger == f.fromCurrency.value.symbol && e.value.amount == -f.base.fromAmount
  }

  /** `e` is `f`'s to-leg: positive, in the to-currency's ledger, not a fee. */
  predicate ToLeg(e: Option<Entry>, f: FakeTxn) {
    e.Some? && Carries(e.value, f) && !e.value.isFee && f.toCurrency.Some?
    && e.value.ledger == f.toCurrency.value.symbol && e.value.amount == f.base.toAmount
  }

  /** `e` is `f`'s fee entry when the fee is positive, and nil otherwise. */
  predicate FeeLeg(e: Option<Entry>, f: FakeTxn) {
    && (e.Some? <==> f.base.feeAmount > 0.0 && f.feeCurrency.Some?)
    && (e.Some? ==> Carries(e.value, f) && e.value.isFee && f.feeCurrency.Some?
                    && e.value.ledger == f.feeCurrency.value.symbol && e.value.amount == -f.base.feeAmount)
  }

  /** `from_entry`: the from-leg; nil without a from-currency. */
  function FromEntry(f: FakeTxn): (r: Option<Entry>)
    ensures r.Some? <==> f.fromCurrency.Some?
    ensures r.Some? ==> FromLeg(r, f)
  {
    if f.fromCurrency.Some? then Some(EntryOf(f, false, f.fromCurrency.value, -f.base.fromAmount)) else None
  }

  /** `to_entry`: the to-leg; nil without a to-currency. */
  function ToEntry(f: FakeTxn): (r: Option<Entry>)
    ensures r.Some? <==> f.toCurrency.Some?
    ensures r.Some? ==> ToLeg(r, f)
  {
    if f.toCurrency.Some? then Some(EntryOf(f, false, f.toCurrency.value, f.base.toAmount)) else None
  }

  /** `fee_entry`: the fee, negative; nil unless there is a fee currency and a positive fee. */
  function FeeEntry(f: FakeTxn): (r: Option<Entry>)
    ensures FeeLeg(r, f)
    ensures r.Some? ==> r.value.amount < 0.0
  {
    if f.base.feeAmount > 0.0 && f.feeCurrency.Some? then Some(EntryOf(f, true, f.feeCurrency.value, -f.base.feeAmount))
    else None
  }

  /**
   * `entries`: the from-entries of the txns with a from-currency, then the
   * to-entries, then the fee entries of the txns with a fee currency (nil
   * for those whose fee is not positive).
   */
  function Entries(txns: seq<FakeTxn>): (r: seq<Option<Entry>>)
    ensures |r| == |SelectFrom(txns)| + |SelectTo(txns)| + |SelectFee(txns)|
    ensures forall i :: 0 <= i < |r| && r[i].Some? && r[i].value.isFee ==> r[i].value.amount < 0.0
    ensures forall i :: 0 <= i < |SelectFrom(txns)| ==> FromLeg(r[i], SelectFrom(txns)[i])
    ensures forall j :: 0 <= j < |SelectTo(txns)| ==> ToLeg(r[|SelectFrom(txns)| + j], SelectTo(txns)[j])
    ensures forall k :: 0 <= k < |SelectFee(txns)| ==>
              FeeLeg(r[|SelectFrom(txns)| + |SelectTo(txns)| + k], SelectFee(txns)[k])
  {
    var sf, st, se := SelectFrom(txns), SelectTo(txns), SelectFee(txns);
    var froms, tos, fees := FromEntries(sf), ToEntries(st), FeeEntries(se);
    assert forall i :: 0 <= i < |froms| ==> (froms + tos + fees)[i] == froms[i];
    assert forall j :: 0 <= j < |tos| ==> (froms + tos + fees)[|froms| + j] == tos[j];
    assert forall k :: 0 <= k < |fees| ==> (froms + tos + fees)[|froms| + |tos| + k] == fees[k];
    froms + tos + fees
  }

  /** The from-entries of txns that all have a from-currency, in order. */
  function FromEntries(sf: seq<FakeTxn>): (r: seq<Option<Entry>>)
    ensures |r| == |sf|
    ensures forall i :: 0 <= i < |sf| && sf[i].fromCurrency.Some? ==> r[i] == FromEntry(sf[i]) && FromLeg(r[i], sf[i])
  {
    seq(|sf|, i requires 0 <= i < |sf| => FromEntry(sf[i]))
  }

  /** The to-entries of txns that all have a to-currency, in order. */
  function ToEntries(st: seq<FakeTxn>): (r: seq<Option<Entry>>)
    ensures |r| == |st|
    ensures forall j :: 0 <= j < |st| && st[j].toCurrency.Some? ==> r[j] == ToEntry(st[j]) && ToLeg(r[j], st[j])
  {
    seq(|st|, j requires 0 <= j < |st| => ToEntry(st[j]))
  }

  /** The fee entries of txns that all have a fee currency, in order. */
  function FeeEntries(se: seq<FakeTxn>): (r: seq<Option<Entry>>)
    ensures |r| == |se|
    ensures forall k :: 0 <= k < |se| ==> r[k] == FeeEntry(se[k]) && FeeLeg(r[k], se[k])
  {
    seq(|se|, k requires 0 <= k < |se| => FeeEntry(se[k]))
  }

  predicate HasFrom(t: FakeTxn) {
    t.fromCurrency.Some?
  }

  predicate HasTo(t: FakeTxn) {
    t.toCurrency.Some?
  }

  predicate HasFee(t: FakeTxn) {
    t.feeCurrency.Some?
  }

  /** `select { from_currency }`: the txns with a from-leg, in order, each as often as given. */
  function SelectFrom(txns: seq<FakeTxn>): (r: seq<FakeTxn>)
    ensures forall t :: t in r <==> t in txns && t.fromCurrency.Some?
    ensures forall i :: 0 <= i < |r| ==> r[i].fromCurrency.Some?
  {
    if txns == [] then []
    else
      (if txns[0].fromCurrency.Some? then [txns[0]] else []) + SelectFrom(txns[1..])
  }

  /** `select { to_currency }`: the txns with a to-leg, in order, each as often as given. */
  function SelectTo(txns: seq<FakeTxn>): (r: seq<FakeTxn>)
    ensures forall t :: t in r <==> t in txns && t.toCurrency.Some?
    ensures forall i :: 0 <= i < |r| ==> r[i].toCurrency.Some?
  {
    if txns == [] then []
    else
      (if txns[0].toCurrency.Some? then [txns[0]] else []) + SelectTo(txns[1..])
  }

  /** `select { fee_currency }`: the txns with a fee, in order, each as often as given. */
  function SelectFee(txns: seq<FakeTxn>): (r: seq<FakeTxn>)
    ensures forall t :: t in r <==> t in txns && t.feeCurrency.Some?
    ensures forall i :: 0 <= i < |r| ==> r[i].feeCurrency.Some?
  {
    if txns == [] then []
    else
      (if txns[0].feeCurrency.Some? then [txns[0]] else []) + SelectFee(txns[1..])
  }

  /**
   * The three selections are `select` with their block: the txns keep their
   * order and each is kept as often as it occurs (`SelectAppend`, `SelectCount`).
   */
  lemma {:induction false} SelectionsAreSelect(txns: seq<FakeTxn>)
    ensures SelectFrom(txns) == Select(txns, HasFrom)
    ensures SelectTo(txns) == Select(txns, HasTo)
    ensures SelectFee(txns) == Select(txns, HasFee)
  {
    if txns != [] {
      SelectionsAreSelect(txns[1..]);
      SelectFirst(txns, HasFrom);
      SelectFirst(txns, HasTo);
      SelectFirst(txns, HasFee);
    }
  }

  /** `select` read from the front: the first element's verdict, then the rest. */
  lemma SelectFirst(txns: seq<FakeTxn>, p: FakeTxn -> bool)
    requires txns != []
    ensures Select(txns, p) == (if p(txns[0]) then [txns[0]] else []) + Select(txns[1..], p)
  {
    assert txns == [txns[0]] + txns[1..];
    SelectAppend([txns[0]], txns[1..], p);
    SelectOne(txns[0], p);
  }
}
