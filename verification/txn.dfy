/**
 * The canonical transaction `Txn`: its type and label tables, the
 * normalisation done by `initialize` (including the derived `type` and the
 * `unique_hash`), and the validators in the order they are declared.
 *
 * A Txn is a value here. The collaborators whose code is not part of this
 * model (`TxnHelper.normalize_date/normalize_amount/normalize_hash`, `to_s`
 * of non-string values, `to_json` and MD5) are the fields of a `TxnEnv`.
 */
module TxnModel {
  import opened Wrappers
  import opened Text
  import opened Decimal
  import opened Values

  // ---------------------------------------------------------------- tables

  datatype TxnType = Trade | Transfer | Deposit | Withdrawal

  function TypeName(t: TxnType): string {
    match t
    case Trade => "trade"
    case Transfer => "transfer"
    case Deposit => "deposit"
    case Withdrawal => "withdrawal"
  }

  const TYPES: seq<string> := ["trade", "transfer", "deposit", "withdrawal"]

  const REALIZED_GAIN := "realized_gain"
  const AIRDROP := "airdrop"
  const FORK := "fork"
  const MINING := "mining"
  const REWARD := "staking"
  const LOAN_INTEREST := "loan_interest"
  const OTHER_INCOME := "other_income"
  const GIFT := "gift"
  const LOST := "lost"
  const DONATION := "donation"
  const COST := "cost"
  const INTEREST_PAYMENT := "margin_interest_fee"
  const MARGIN_TRADE_FEE := "margin_trade_fee"
  const MARGIN_FEE_REFUND := "margin_fee_refund"
  const FROM_POOL := "from_pool"
  const TO_POOL := "to_pool"
  const LIQUIDITY_IN := "liquidity_in"
  const LIQUIDITY_OUT := "liquidity_out"

  const LABELS: seq<string> := [
    REALIZED_GAIN, AIRDROP, FORK, MINING, REWARD, LOAN_INTEREST, OTHER_INCOME, GIFT, LOST,
    DONATION, COST, INTEREST_PAYMENT, MARGIN_TRADE_FEE, MARGIN_FEE_REFUND, FROM_POOL, TO_POOL,
    LIQUIDITY_IN, LIQUIDITY_OUT]

  const INCOME_LABELS: seq<string> := [AIRDROP, FORK, MINING, REWARD, LOAN_INTEREST, OTHER_INCOME]
  const EXPENSE_LABELS: seq<string> := [COST, MARGIN_TRADE_FEE, INTEREST_PAYMENT]
  const SPECIAL_LABELS: seq<string> := [GIFT, LOST, DONATION]

  const DEPOSIT_LABELS: seq<string> := [REALIZED_GAIN, MARGIN_FEE_REFUND] + INCOME_LABELS
  const WITHDRAWAL_LABELS: seq<string> := [REALIZED_GAIN] + EXPENSE_LABELS + SPECIAL_LABELS
  const TRADE_LABELS: seq<string> := [LIQUIDITY_IN, LIQUIDITY_OUT]
  const TRANSFER_LABELS: seq<string> := [FROM_POOL, TO_POOL]

  /** The labels a transaction of type `t` may carry. */
  function LabelsFor(t: TxnType): seq<string> {
    match t
    case Deposit => DEPOSIT_LABELS
    case Withdrawal => WITHDRAWAL_LABELS
    case Trade => TRADE_LABELS
    case Transfer => TRANSFER_LABELS
  }

  /** The attribute names `initialize` accepts through `super(params)`. */
  const ALL_ATTRIBUTES: set<string> := {
    "date", "description", "label", "type", "from_amount", "from_currency", "to_amount",
    "to_currency", "from_wallet", "to_wallet", "fee_amount", "fee_currency",
    "net_worth_amount", "net_worth_currency", "fee_worth_amount", "fee_worth_currency",
    "txhash", "txsrc", "txdest", "contract_address", "method_hash", "method_name",
    "external_id", "external_data", "importer_tag", "margin", "group_name", "synced",
    "unique_hash"}

  /** `Time.utc(2009)` in seconds since the epoch: the earliest valid date. */
  const EARLIEST_DATE: int := 1230768000

  /** The bound `10**15` on amounts. */
  const AMOUNT_BOUND: real := 1000000000000000.0

  /** The slack `0.0000_0001` a transfer's received amount may exceed its sent amount by. */
  const TRANSFER_SLACK: real := 0.00000001

  // ---------------------------------------------------------------- data

  /** A transaction after `initialize`; `None`/`Nil` stand for nil. */
  datatype Txn = Txn(
    date: Option<int>,
    description: Option<string>,
    labelName: Option<string>,
    txnType: Option<TxnType>,
    fromAmount: real,
    fromCurrency: Value,
    toAmount: real,
    toCurrency: Value,
    fromWallet: Value,
    toWallet: Value,
    feeAmount: real,
    feeCurrency: Value,
    netWorthAmount: real,
    netWorthCurrency: Value,
    feeWorthAmount: real,
    feeWorthCurrency: Value,
    txhash: Option<string>,
    txsrc: Option<string>,
    txdest: Option<string>,
    contractAddress: Option<string>,
    methodHash: Option<string>,
    methodName: Option<string>,
    externalId: Option<string>,
    externalData: Value,
    importerTag: Value,
    margin: bool,
    groupName: Option<string>,
    synced: bool,
    uniqueHash: string)
  {
    predicate IsTrade() { txnType == Some(Trade) }
    predicate IsTransfer() { txnType == Some(Transfer) }
    predicate IsDeposit() { txnType == Some(Deposit) }
    predicate IsWithdrawal() { txnType == Some(Withdrawal) }
  }

  /**
   * The collaborators `initialize` and the adapter call: the `TxnHelper`
   * normalisers (a raw date and a default timezone; a raw amount and
   * `small_decimals`, plain or with `no_zero: true`; a txhash), `to_s` of
   * values other than strings and nil, `to_json` and MD5.
   */
  datatype TxnEnv = TxnEnv(
    normalizeDate: (Value, Value) -> Option<int>,
    normalizeAmount: (Value, Value) -> real,
    normalizeAmountNoZero: (Value, Value) -> Value,
    normalizeHash: Option<string> -> Value,
    display: Value -> string,
    toJson: seq<(string, Value)> -> string,
    md5Hex: string -> string)

  // ---------------------------------------------------------------- initialize

  function Abs(x: real): (r: real)
    ensures r >= 0.0 && (r == x || r == -x)
  {
    if x < 0.0 then -x else x
  }

  /** The type derived from which currency legs are set (truthy) and whether they are equal. */
  function DeriveType(from: Value, to: Value): (r: Option<TxnType>)
    ensures r == Some(Transfer) <==> Truthy(from) && Truthy(to) && from == to
    ensures r == Some(Trade) <==> Truthy(from) && Truthy(to) && from != to
    ensures r == Some(Deposit) <==> !Truthy(from) && Truthy(to)
    ensures r == Some(Withdrawal) <==> Truthy(from) && !Truthy(to)
    ensures r.None? <==> !Truthy(from) && !Truthy(to)
  {
    if Truthy(to) && Truthy(from) then
      if to == from then Some(Transfer) else Some(Trade)
    else if Truthy(to) then Some(Deposit)
    else if Truthy(from) then Some(Withdrawal)
    else None
  }

  /** The txhash kept: the present value, unless its stripped length is at most 2. */
  function KeptTxhash(h: Option<string>): (r: Option<string>)
    ensures r.Some? <==> h.Some? && |Strip(h.value)| > 2
    ensures r.Some? ==> r == h
  {
    if h.Some? && |Strip(h.value)| > 2 then h else None
  }

  /** The params keys that are not attributes; `super(params)` raises on any of them. */
  function UnknownKeys(params: map<string, Value>): (r: set<string>)
    ensures forall k :: k in r <==> k in params && k !in ALL_ATTRIBUTES
  {
    set k | k in params && k !in ALL_ATTRIBUTES
  }

  /**
   * `Txn.new(params, small_decimals:, default_timezone:, uniqueness_seed:)`:
   * the set of unknown attribute names when there is any, else the
   * transaction.
   */
  function NewTxn(params: map<string, Value>, smallDecimals: Value, timezone: Value, seed: Value, env: TxnEnv)
    : (r: Result<Txn, set<string>>)
    ensures r.Failure? <==> exists k :: k in params && k !in ALL_ATTRIBUTES
    ensures r.Failure? ==> r.error == UnknownKeys(params)
    ensures r.Success? ==> r.value == Build(params, smallDecimals, timezone, seed, env)
  {
    var unknown := UnknownKeys(params);
    if unknown != {} then Failure(unknown) else Success(Build(params, smallDecimals, timezone, seed, env))
  }

  /** The type is the one the currencies derive. */
  predicate TypeConsistent(t: Txn) {
    t.txnType == DeriveType(t.fromCurrency, t.toCurrency)
  }

  /** The attributes `initialize` leaves, the unique hash aside. */
  function Normalized(params: map<string, Value>, smallDecimals: Value, timezone: Value, env: TxnEnv): Txn {
    var p := (k: string) => Get(params, k);
    var feeAmount := Abs(env.normalizeAmount(p("fee_amount"), smallDecimals));
    var fromCurrency := p("from_currency");
    var toCurrency := p("to_currency");
    Txn(
      date := env.normalizeDate(p("date"), timezone),
      description := TextPresence(p("description"), env.display),
      labelName := TextPresence(p("label"), env.display),
      txnType := DeriveType(fromCurrency, toCurrency),
      fromAmount := Abs(env.normalizeAmount(p("from_amount"), smallDecimals)),
      fromCurrency := fromCurrency,
      toAmount := Abs(env.normalizeAmount(p("to_amount"), smallDecimals)),
      toCurrency := toCurrency,
      fromWallet := p("from_wallet"),
      toWallet := p("to_wallet"),
      feeAmount := feeAmount,
      feeCurrency := if feeAmount <= 0.0 then Nil else p("fee_currency"),
      netWorthAmount := Abs(env.normalizeAmount(p("net_worth_amount"), Nil)),
      netWorthCurrency := if Truthy(p("net_worth_amount")) then p("net_worth_currency") else Nil,
      feeWorthAmount := Abs(env.normalizeAmount(p("fee_worth_amount"), Nil)),
      feeWorthCurrency := if Truthy(p("fee_worth_amount")) then p("fee_worth_currency") else Nil,
      txhash := KeptTxhash(TextPresence(p("txhash"), env.display)),
      txsrc := TextPresence(p("txsrc"), env.display),
      txdest := TextPresence(p("txdest"), env.display),
      contractAddress := TextPresence(p("contract_address"), env.display),
      methodHash := TextPresence(p("method_hash"), env.display),
      methodName := TextPresence(p("method_name"), env.display),
      externalId := TextPresence(p("external_id"), env.display),
      externalData := p("external_data"),
      importerTag := p("importer_tag"),
      margin := Truthy(p("margin")),
      groupName := TextPresence(p("group_name"), env.display),
      synced := Truthy(p("synced")),
      uniqueHash := "")
  }

  /** `initialize` on known attributes: the normalised fields plus the unique hash of the seed's presence. */
  function Build(params: map<string, Value>, smallDecimals: Value, timezone: Value, seed: Value, env: TxnEnv): (t: Txn)
    ensures t.txnType == DeriveType(Get(params, "from_currency"), Get(params, "to_currency"))
    ensures t.fromCurrency == Get(params, "from_currency") && t.toCurrency == Get(params, "to_currency")
    ensures TypeConsistent(t)
    ensures t.uniqueHash == UniqueHash(t, PresenceOf(seed), env)
  {
    var n := Normalized(params, smallDecimals, timezone, env);
    UniqueHashIgnoresItself(n, PresenceOf(seed), env);
    n.(uniqueHash := UniqueHash(n, PresenceOf(seed), env))
  }

  // ---------------------------------------------------------------- unique hash

  /** The order of the candidate keys of the unique hash. */
  const UNIQ_KEYS: seq<string> := [
    "date", "type", "from_amount", "to_amount", "from_currency", "to_currency",
    "from_wallet", "to_wallet", "txhash", "external_id", "uniqueness_seed"]

  /** What a currency contributes: `{address, nft_token}` when an address is present, else its symbol. */
  function CurrencyKey(c: Value): (r: Value)
    ensures c.Currency? && !Blank(c.desc.address.GetOr("")) ==>
              r == Currency(Descriptor(None, c.desc.address, c.desc.nftToken, None, false))
    ensures c.Currency? && Blank(c.desc.address.GetOr("")) ==> r == OptStr(c.desc.symbol)
    ensures c.CurrencyPair? ==> r == DescriptorKey(c.head)
    ensures !c.Currency? && !c.CurrencyPair? ==> r == c
  {
    match c
    case Currency(d) => DescriptorKey(d)
    case CurrencyPair(d, _) => DescriptorKey(d)
    case _ => c
  }

  function DescriptorKey(d: Descriptor): Value {
    if !Blank(d.address.GetOr("")) then Currency(Descriptor(None, d.address, d.nftToken, None, false))
    else OptStr(d.symbol)
  }

  /** What a wallet contributes: a wallet hash its service tag, anything else itself. */
  function WalletKey(w: Value): (r: Value)
    ensures w.WalletHash? ==> r == OptStr(w.serviceTag)
    ensures !w.WalletHash? ==> r == w
  {
    match w
    case WalletHash(_, tag) => OptStr(tag)
    case _ => w
  }

  function DateValue(d: Option<int>): Value {
    match d
    case None => Nil
    case Some(s) => Time(s)
  }

  function TypeValue(t: Option<TxnType>): Value {
    match t
    case None => Nil
    case Some(k) => Str(TypeName(k))
  }

  /** Every candidate pair of the unique hash, blank or not, in `UNIQ_KEYS` order. */
  function UniqCandidates(t: Txn, seed: Value, env: TxnEnv): (ps: seq<(string, Value)>)
    ensures |ps| == |UNIQ_KEYS| && forall i :: 0 <= i < |ps| ==> ps[i].0 == UNIQ_KEYS[i]
  {
    [("date", DateValue(t.date)),
     ("type", TypeValue(t.txnType)),
     ("from_amount", Dec(t.fromAmount)),
     ("to_amount", Dec(t.toAmount)),
     ("from_currency", CurrencyKey(t.fromCurrency)),
     ("to_currency", CurrencyKey(t.toCurrency)),
     ("from_wallet", WalletKey(t.fromWallet)),
     ("to_wallet", WalletKey(t.toWallet)),
     ("txhash", env.normalizeHash(t.txhash)),
     ("external_id", OptStr(t.externalId)),
     ("uniqueness_seed", seed)]
  }

  /** `reject! { |arr| arr[1].blank? }`. */
  function NonBlankPairs(ps: seq<(string, Value)>): (r: seq<(string, Value)>)
    ensures |r| <= |ps|
    ensures forall i :: 0 <= i < |r| ==> !ValueBlank(r[i].1)
    ensures forall p :: p in r <==> p in ps && !ValueBlank(p.1)
  {
    if ps == [] then []
    else (if ValueBlank(ps[0].1) then [] else [ps[0]]) + NonBlankPairs(ps[1..])
  }

  /** The pre-image of the unique hash: the non-blank candidate pairs, in order. */
  function UniqPairs(t: Txn, seed: Value, env: TxnEnv): seq<(string, Value)> {
    NonBlankPairs(UniqCandidates(t, seed, env))
  }

  /** `"v1:"` followed by the MD5 of the downcased JSON of the pre-image. */
  function UniqueHash(t: Txn, seed: Value, env: TxnEnv): (h: string)
    ensures |h| >= 3 && h[..3] == "v1:"
    ensures h[3..] == env.md5Hex(Downcase(env.toJson(UniqPairs(t, seed, env))))
  {
    "v1:" + env.md5Hex(Downcase(env.toJson(UniqPairs(t, seed, env))))
  }

  /** The value paired with `k` in an association list, if any. */
  function Lookup(ps: seq<(string, Value)>, k: string): Option<Value> {
    if ps == [] then None
    else if ps[0].0 == k then Some(ps[0].1)
    else Lookup(ps[1..], k)
  }

  // ---------------------------------------------------------------- validation

  /** One `errors.add(attribute, message)`. */
  datatype FieldError = FieldError(attribute: string, message: string)

  predicate ShouldValidateFrom(t: Txn) { t.IsTrade() || t.IsTransfer() || t.IsWithdrawal() }
  predicate ShouldValidateTo(t: Txn) { t.IsTrade() || t.IsTransfer() || t.IsDeposit() }
  predicate ShouldValidateFee(t: Txn) { !ValueBlank(t.feeCurrency) }

  function When(c: bool, e: FieldError): seq<FieldError> {
    if c then [e] else []
  }

  function TypeInclusionErrors(t: Txn): seq<FieldError> {
    When(t.txnType.None?, FieldError("type", "is not included in the list"))
  }

  function PresenceErrors(t: Txn): seq<FieldError> {
    When(t.date.None?, FieldError("date", "can't be blank"))
    + When(ShouldValidateFrom(t) && ValueBlank(t.fromCurrency), FieldError("from_currency", "can't be blank"))
    + When(ShouldValidateTo(t) && ValueBlank(t.toCurrency), FieldError("to_currency", "can't be blank"))
    + When(ShouldValidateFee(t) && ValueBlank(t.feeCurrency), FieldError("fee_currency", "can't be blank"))
  }

  function PositiveAmountErrors(t: Txn): seq<FieldError> {
    When(ShouldValidateFrom(t) && !(t.fromAmount > 0.0), FieldError("from_amount", "must be greater than 0"))
    + When(ShouldValidateTo(t) && !(t.toAmount > 0.0), FieldError("to_amount", "must be greater than 0"))
  }

  /** `ensure_valid_transfer`, run for transfers only. */
  function TransferErrors(t: Txn): seq<FieldError> {
    if !t.IsTransfer() then []
    else if t.toAmount > t.fromAmount + TRANSFER_SLACK then [FieldError("to_amount", "must be less than From_amount")]
    else When(t.fromCurrency != t.toCurrency, FieldError("from_currency", "must be same as To currency"))
  }

  /** `ensure_from_and_to_not_same`, run for trades only. */
  function TradeErrors(t: Txn): seq<FieldError> {
    When(t.IsTrade() && t.fromCurrency == t.toCurrency, FieldError("from_currency", "should not be same as To currency"))
  }

  /** `ensure_amounts_are_within_bounds`: the first of from, to and fee above 10^15. */
  function BoundsErrors(t: Txn): seq<FieldError> {
    if Abs(t.fromAmount) > AMOUNT_BOUND then [FieldError("from_amount", "must be less than 10^15")]
    else if Abs(t.toAmount) > AMOUNT_BOUND then [FieldError("to_amount", "must be less than 10^15")]
    else When(Abs(t.feeAmount) > AMOUNT_BOUND, FieldError("fee_amount", "must be less than 10^15"))
  }

  /** `ensure_date_is_valid`; `latestDate` is one year from now. */
  function DateErrors(t: Txn, latestDate: int): seq<FieldError> {
    if t.date.None? then [FieldError("date", "is invalid")]
    else When(t.date.value > latestDate || t.date.value < EARLIEST_DATE, FieldError("date", "is out of bounds/invalid"))
  }

  /** `ensure_label_is_valid`: a present label outside its type's set; no check without a type. */
  function LabelErrors(t: Txn): seq<FieldError> {
    When(t.labelName.Some? && t.txnType.Some? && t.labelName.value !in LabelsFor(t.txnType.value),
         FieldError("from_amount", "invalid label"))
  }

  /** `valid?`: every validator in declaration order, with the errors each adds. */
  function Validate(t: Txn, latestDate: int): seq<FieldError> {
    TypeInclusionErrors(t) + PresenceErrors(t) + PositiveAmountErrors(t) + TransferErrors(t)
    + TradeErrors(t) + BoundsErrors(t) + DateErrors(t, latestDate) + LabelErrors(t)
  }

  /** The rules a valid transaction satisfies, stated on their own. */
  predicate Rules(t: Txn, latestDate: int) {
    && t.txnType.Some?
    && t.date.Some? && EARLIEST_DATE <= t.date.value <= latestDate
    && (ShouldValidateFrom(t) ==> !ValueBlank(t.fromCurrency) && t.fromAmount > 0.0)
    && (ShouldValidateTo(t) ==> !ValueBlank(t.toCurrency) && t.toAmount > 0.0)
    && (t.IsTransfer() ==> t.toAmount <= t.fromAmount + TRANSFER_SLACK && t.fromCurrency == t.toCurrency)
    && (t.IsTrade() ==> t.fromCurrency != t.toCurrency)
    && Abs(t.fromAmount) <= AMOUNT_BOUND && Abs(t.toAmount) <= AMOUNT_BOUND && Abs(t.feeAmount) <= AMOUNT_BOUND
    && (t.labelName.Some? ==> t.labelName.value in LabelsFor(t.txnType.value))
  }

  // ---------------------------------------------------------------- lemmas

  /** A transaction is valid exactly when it satisfies the rules. */
  lemma ValidIffRules(t: Txn, latestDate: int)
    ensures Validate(t, latestDate) == [] <==> Rules(t, latestDate)
  {
  }

  /** The bounds check reports only the first offending amount, and exactly 10^15 passes. */
  lemma BoundsFirstOffender(t: Txn)
    ensures |BoundsErrors(t)| <= 1
    ensures Abs(t.fromAmount) > AMOUNT_BOUND ==> BoundsErrors(t) == [FieldError("from_amount", "must be less than 10^15")]
    ensures Abs(t.fromAmount) <= AMOUNT_BOUND && Abs(t.toAmount) > AMOUNT_BOUND ==>
              BoundsErrors(t) == [FieldError("to_amount", "must be less than 10^15")]
    ensures Abs(t.fromAmount) == AMOUNT_BOUND && Abs(t.toAmount) == AMOUNT_BOUND && Abs(t.feeAmount) == AMOUNT_BOUND ==>
              BoundsErrors(t) == []
  {
  }

  /** A nil date gets both the presence error and the validity error. */
  lemma NilDateErrors(t: Txn, latestDate: int)
    requires t.date.None?
    ensures FieldError("date", "can't be blank") in Validate(t, latestDate)
    ensures FieldError("date", "is invalid") in Validate(t, latestDate)
  {
    assert PresenceErrors(t)[0] == FieldError("date", "can't be blank");
    assert DateErrors(t, latestDate) == [FieldError("date", "is invalid")];
  }

  /** `realized_gain` is allowed for deposits and withdrawals only. */
  lemma RealizedGainOnlyForDepositAndWithdrawal(k: TxnType)
    ensures REALIZED_GAIN in LabelsFor(k) <==> k == Deposit || k == Withdrawal
  {
    if k == Trade {
      assert REALIZED_GAIN != LIQUIDITY_IN && REALIZED_GAIN != LIQUIDITY_OUT;
    }
  }

  /** The per-type label sets are drawn from the label table. */
  lemma LabelSetsAreLabels(k: TxnType)
    ensures forall l :: l in LabelsFor(k) ==> l in LABELS
  {
  }

  /**
   * The fee presence validator never fires: it runs only when the fee
   * currency is present, which is exactly when its check passes.
   */
  lemma FeePresenceNeverFails(t: Txn)
    ensures FieldError("fee_currency", "can't be blank") !in PresenceErrors(t)
  {
  }

  /** `initialize` stores absolute amounts and clears the fee currency of a zero fee. */
  lemma BuildNormalizesAmounts(params: map<string, Value>, sd: Value, tz: Value, seed: Value, env: TxnEnv)
    ensures var t := Build(params, sd, tz, seed, env);
            t.fromAmount >= 0.0 && t.toAmount >= 0.0 && t.feeAmount >= 0.0
            && (t.feeAmount == 0.0 ==> t.feeCurrency == Nil)
            && (t.feeAmount > 0.0 ==> t.feeCurrency == Get(params, "fee_currency"))
            && t.fromAmount == Abs(env.normalizeAmount(Get(params, "from_amount"), sd))
  {
  }

  /** The net worth currency survives only when a net worth amount was given (truthy). */
  lemma BuildNetWorth(params: map<string, Value>, sd: Value, tz: Value, seed: Value, env: TxnEnv)
    ensures var t := Build(params, sd, tz, seed, env);
            (Truthy(Get(params, "net_worth_amount")) ==> t.netWorthCurrency == Get(params, "net_worth_currency"))
            && (!Truthy(Get(params, "net_worth_amount")) ==> t.netWorthCurrency == Nil)
            && (Truthy(Get(params, "fee_worth_amount")) ==> t.feeWorthCurrency == Get(params, "fee_worth_currency"))
            && (!Truthy(Get(params, "fee_worth_amount")) ==> t.feeWorthCurrency == Nil)
  {
  }

  /** A txhash of at most two characters once stripped (`0`, `0x`) is dropped. */
  lemma BuildDropsShortTxhash(params: map<string, Value>, sd: Value, tz: Value, seed: Value, env: TxnEnv)
    ensures var t := Build(params, sd, tz, seed, env);
            var given := TextPresence(Get(params, "txhash"), env.display);
            (t.txhash.Some? <==> given.Some? && |Strip(given.value)| > 2)
            && (t.txhash.Some? ==> t.txhash == given)
  {
  }

  /**
   * A transfer whose type was derived has equal currencies and such a trade
   * unequal ones, so the currency halves of the transfer and trade
   * validators never fire on a freshly built transaction.
   */
  lemma TypeConsistentCurrencies(t: Txn)
    requires TypeConsistent(t)
    ensures t.IsTransfer() ==> t.fromCurrency == t.toCurrency
    ensures t.IsTrade() ==> t.fromCurrency != t.toCurrency
    ensures TradeErrors(t) == []
    ensures FieldError("from_currency", "must be same as To currency") !in TransferErrors(t)
  {
  }

  lemma UniqueHashIgnoresItself(t: Txn, seed: Value, env: TxnEnv)
    ensures forall h :: UniqPairs(t.(uniqueHash := h), seed, env) == UniqPairs(t, seed, env)
  {
  }

  /** Fees, labels, descriptions and the other non-identity attributes never enter the unique hash. */
  lemma UniqueHashIgnoresNonIdentity(t: Txn, seed: Value, env: TxnEnv,
      feeAmount: real, feeCurrency: Value, newLabel: Option<string>, description: Option<string>,
      netWorthAmount: real, netWorthCurrency: Value, groupName: Option<string>, margin: bool, synced: bool)
    ensures var u := t.(feeAmount := feeAmount, feeCurrency := feeCurrency, labelName := newLabel,
                        description := description, netWorthAmount := netWorthAmount,
                        netWorthCurrency := netWorthCurrency, groupName := groupName,
                        margin := margin, synced := synced);
            UniqueHash(u, seed, env) == UniqueHash(t, seed, env)
  {
    var u := t.(feeAmount := feeAmount, feeCurrency := feeCurrency, labelName := newLabel,
                description := description, netWorthAmount := netWorthAmount,
                netWorthCurrency := netWorthCurrency, groupName := groupName,
                margin := margin, synced := synced);
    assert UniqCandidates(u, seed, env) == UniqCandidates(t, seed, env);
  }

  /** Looking a key up after the blank filter finds the first non-blank value paired with it. */
  lemma {:induction false} LookupNonBlank(ps: seq<(string, Value)>, k: string)
    ensures Lookup(NonBlankPairs(ps), k) == FirstNonBlank(ps, k)
  {
    if ps != [] {
      LookupNonBlank(ps[1..], k);
      if ValueBlank(ps[0].1) {
        assert NonBlankPairs(ps) == NonBlankPairs(ps[1..]);
      } else {
        assert NonBlankPairs(ps) == [ps[0]] + NonBlankPairs(ps[1..]);
        assert ([ps[0]] + NonBlankPairs(ps[1..]))[1..] == NonBlankPairs(ps[1..]);
      }
    }
  }

  /** The first non-blank value paired with `k`. */
  function FirstNonBlank(ps: seq<(string, Value)>, k: string): Option<Value> {
    if ps == [] then None
    else if ps[0].0 == k && !ValueBlank(ps[0].1) then Some(ps[0].1)
    else FirstNonBlank(ps[1..], k)
  }

  /** When `k` is paired exactly once, at `i`, the first non-blank value for it is that one unless blank. */
  lemma {:induction false} FirstNonBlankAt(ps: seq<(string, Value)>, k: string, i: nat)
    requires i < |ps| && ps[i].0 == k
    requires forall j :: 0 <= j < |ps| && j != i ==> ps[j].0 != k
    ensures FirstNonBlank(ps, k) == if ValueBlank(ps[i].1) then None else Some(ps[i].1)
  {
    if i == 0 {
      NoOtherKey(ps[1..], k);
    } else {
      FirstNonBlankAt(ps[1..], k, i - 1);
    }
  }

  lemma {:induction false} NoOtherKey(ps: seq<(string, Value)>, k: string)
    requires forall j :: 0 <= j < |ps| ==> ps[j].0 != k
    ensures FirstNonBlank(ps, k) == None
  {
    if ps != [] {
      NoOtherKey(ps[1..], k);
    }
  }

  lemma UniqKeysDistinct()
    ensures forall i, j :: 0 <= i < j < |UNIQ_KEYS| ==> UNIQ_KEYS[i] != UNIQ_KEYS[j]
  {
  }

  /** What the pre-image holds under key `UNIQ_KEYS[i]`: the candidate value unless blank. */
  lemma UniqPairsLookup(t: Txn, seed: Value, env: TxnEnv, i: nat)
    requires i < |UNIQ_KEYS|
    ensures var c := UniqCandidates(t, seed, env)[i].1;
            Lookup(UniqPairs(t, seed, env), UNIQ_KEYS[i]) == if ValueBlank(c) then None else Some(c)
  {
    var ps := UniqCandidates(t, seed, env);
    var k := UNIQ_KEYS[i];
    UniqKeysDistinct();
    assert forall j :: 0 <= j < |ps| && j != i ==> ps[j].0 != k by {
      forall j | 0 <= j < |ps| && j != i
        ensures ps[j].0 != k
      {
        assert ps[j].0 == UNIQ_KEYS[j];
      }
    }
    LookupNonBlank(ps, k);
    FirstNonBlankAt(ps, k, i);
  }

  /**
   * The pre-image of the unique hash determines the date, the type, both
   * amounts and the presence of the external id: two transactions with the
   * same pair list agree on all of them.
   */
  lemma UniqPairsDetermineIdentity(t1: Txn, t2: Txn, seed1: Value, seed2: Value, env: TxnEnv)
    requires UniqPairs(t1, seed1, env) == UniqPairs(t2, seed2, env)
    ensures t1.date == t2.date && t1.txnType == t2.txnType
    ensures t1.fromAmount == t2.fromAmount && t1.toAmount == t2.toAmount
    ensures PresenceOf(OptStr(t1.externalId)) == PresenceOf(OptStr(t2.externalId))
  {
    DateLookup(t1, seed1, env);
    DateLookup(t2, seed2, env);
    TypeLookup(t1, seed1, env);
    TypeLookup(t2, seed2, env);
    TypeNamesDistinct();
    AmountLookups(t1, seed1, env);
    AmountLookups(t2, seed2, env);
    ExternalIdLookup(t1, seed1, env);
    ExternalIdLookup(t2, seed2, env);
  }

  /** The date, the type and the amounts as the pre-image holds them. */
  lemma DateLookup(t: Txn, seed: Value, env: TxnEnv)
    ensures Lookup(UniqPairs(t, seed, env), "date") == (if t.date.None? then None else Some(Time(t.date.value)))
  {
    CandidateAt(t, seed, env, 0, "date", DateValue(t.date));
  }

  lemma TypeLookup(t: Txn, seed: Value, env: TxnEnv)
    ensures Lookup(UniqPairs(t, seed, env), "type") == (if t.txnType.None? then None else Some(Str(TypeName(t.txnType.value))))
  {
    if t.txnType.Some? {
      assert !IsSpace(TypeName(t.txnType.value)[0]);
    }
    CandidateAt(t, seed, env, 1, "type", TypeValue(t.txnType));
  }

  lemma AmountLookups(t: Txn, seed: Value, env: TxnEnv)
    ensures Lookup(UniqPairs(t, seed, env), "from_amount") == Some(Dec(t.fromAmount))
    ensures Lookup(UniqPairs(t, seed, env), "to_amount") == Some(Dec(t.toAmount))
  {
    CandidateAt(t, seed, env, 2, "from_amount", Dec(t.fromAmount));
    CandidateAt(t, seed, env, 3, "to_amount", Dec(t.toAmount));
  }

  lemma ExternalIdLookup(t: Txn, seed: Value, env: TxnEnv)
    ensures var e := PresenceOf(OptStr(t.externalId));
            Lookup(UniqPairs(t, seed, env), "external_id") == if e.Nil? then None else Some(e)
  {
    CandidateAt(t, seed, env, 9, "external_id", OptStr(t.externalId));
  }

  lemma CandidateAt(t: Txn, seed: Value, env: TxnEnv, i: nat, k: string, v: Value)
    requires i < |UNIQ_KEYS| && UNIQ_KEYS[i] == k && UniqCandidates(t, seed, env)[i].1 == v
    ensures Lookup(UniqPairs(t, seed, env), k) == if ValueBlank(v) then None else Some(v)
  {
    UniqPairsLookup(t, seed, env, i);
  }

  lemma TypeNamesDistinct()
    ensures forall a: TxnType, b: TxnType :: TypeName(a) == TypeName(b) ==> a == b
  {
  }

  /** A currency hash reduces to `{address, nft_token}` when its address is present, otherwise to its symbol. */
  lemma CurrencyKeyReduction(d: Descriptor, symbol: string)
    ensures d.address.Some? && !Blank(d.address.value) ==>
              CurrencyKey(Currency(d)) == Currency(Descriptor(None, d.address, d.nftToken, None, false))
    ensures d.address.None? ==> CurrencyKey(Currency(d)) == OptStr(d.symbol)
    ensures CurrencyKey(CurrencyPair(d, symbol)) == CurrencyKey(Currency(d))
  {
  }
}
