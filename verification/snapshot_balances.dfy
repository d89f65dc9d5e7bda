/**
 * The per-wallet balances of the snapshot formatter: the tally of a
 * wallet's txns by ledger (`calculate_amounts`), the rounded, non-zero,
 * sorted balances (`calculate_balances`) and their difference from the
 * balances an API reported (`balance_diff`).
 */
module SnapshotBalances {
  import opened Wrappers
  import opened Text
  import opened Decimal
  import opened Values
  import opened StringOrder
  import opened SnapshotCurrencies
  import opened SnapshotTxns

  /** Balances are rounded to eight decimals. */
  const PRECISION: nat := 8

  /** Every tally is clamped to plus or minus 10^14. */
  const AMOUNT_LIMIT: real := 100000000000000.0

  /** A tally keyed by ledger (`humanize`, the currency's symbol, which may be nil). */
  type Tally = map<Option<string>, real>

  /** `tally[k]` on a `Hash.new(0)`. */
  function At(m: Tally, k: Option<string>): real {
    if k in m then m[k] else 0.0
  }

  /** `tally[k] += d` on a `Hash.new(0)`: the key is created even when `d` is zero. */
  function Bump(m: Tally, k: Option<string>, d: real): (r: Tally)
    ensures r.Keys == m.Keys + {k}
    ensures At(r, k) == At(m, k) + d
    ensures forall j :: j != k ==> At(r, j) == At(m, j)
  {
    m[k := At(m, k) + d]
  }

  /** One leg booked: `tally[k] += d` when the leg applies to the wallet, nothing otherwise. */
  function BookLeg(m: Tally, applies: bool, k: Option<string>, d: real): (r: Tally)
    ensures forall c :: At(r, c) == At(m, c) + LegFlow(applies, k, d, c)
    ensures forall c :: c in r <==> c in m || (applies && k == c)
  {
    if applies then Bump(m, k, d) else m
  }

  /** What one leg adds to ledger `c`. */
  function LegFlow(applies: bool, k: Option<string>, d: real, c: Option<string>): real {
    if applies && k == c then d else 0.0
  }

  /** Whether the from-leg (and with it the fee) of `t` leaves wallet `w`, and under which ledgers. */
  predicate FromApplies(t: FakeTxn, w: Value) { t.fromCurrency.Some? && t.base.fromWallet == w }
  predicate ToApplies(t: FakeTxn, w: Value) { t.toCurrency.Some? && t.base.toWallet == w }
  predicate FeeApplies(t: FakeTxn, w: Value) { t.feeCurrency.Some? && t.base.fromWallet == w }

  function Ledger(c: Option<CurrencyValue>): Option<string> {
    if c.Some? then c.value.symbol else None
  }

  /**
   * One txn booked into wallet `w`'s tally: the from-amount leaves and the
   * fee leaves when the from-wallet is `w`, the to-amount arrives when the
   * to-wallet is `w`; a leg without a currency books nothing.
   */
  function Book(m: Tally, t: FakeTxn, w: Value): Tally {
    var m1 := BookLeg(m, FromApplies(t, w), Ledger(t.fromCurrency), -t.base.fromAmount);
    var m2 := BookLeg(m1, ToApplies(t, w), Ledger(t.toCurrency), t.base.toAmount);
    BookLeg(m2, FeeApplies(t, w), Ledger(t.feeCurrency), -t.base.feeAmount)
  }

  /** The unclamped tally of wallet `w` over `txns`, booked in order. */
  function TallyOf(w: Value, txns: seq<FakeTxn>): Tally {
    if txns == [] then map[] else Book(TallyOf(w, txns[..|txns| - 1]), txns[|txns| - 1], w)
  }

  /** `calculate_amounts(wallet, wallet_txns)`: the tally, each amount clamped to the limit. */
  function Amounts(w: Value, txns: seq<FakeTxn>): (r: Tally)
    ensures r.Keys == TallyOf(w, txns).Keys
    ensures forall k :: k in r ==> -AMOUNT_LIMIT <= r[k] <= AMOUNT_LIMIT
    ensures forall k :: k in r && -AMOUNT_LIMIT <= TallyOf(w, txns)[k] <= AMOUNT_LIMIT ==> r[k] == TallyOf(w, txns)[k]
  {
    var raw := TallyOf(w, txns);
    map k | k in raw :: Clamp(raw[k], -AMOUNT_LIMIT, AMOUNT_LIMIT)
  }

  // ---------------------------------------------------------------- the net flow

  /** Whether txn `t` books anything under ledger `c` in wallet `w`. */
  predicate Touches(t: FakeTxn, w: Value, c: Option<string>) {
    || (FromApplies(t, w) && t.fromCurrency.value.symbol == c)
    || (ToApplies(t, w) && t.toCurrency.value.symbol == c)
    || (FeeApplies(t, w) && t.feeCurrency.value.symbol == c)
  }

  /** What txn `t` adds to ledger `c` of wallet `w`: what arrives minus what leaves minus the fee. */
  function Flow(t: FakeTxn, w: Value, c: Option<string>): real {
    (if ToApplies(t, w) && t.toCurrency.value.symbol == c then t.base.toAmount else 0.0)
    - (if FromApplies(t, w) && t.fromCurrency.value.symbol == c then t.base.fromAmount else 0.0)
    - (if FeeApplies(t, w) && t.feeCurrency.value.symbol == c then t.base.feeAmount else 0.0)
  }

  /** The net flow into ledger `c` of wallet `w` over `txns`. */
  function NetFlow(w: Value, txns: seq<FakeTxn>, c: Option<string>): real {
    if txns == [] then 0.0 else NetFlow(w, txns[..|txns| - 1], c) + Flow(txns[|txns| - 1], w, c)
  }

  lemma BookOne(m: Tally, t: FakeTxn, w: Value, c: Option<string>)
    ensures At(Book(m, t, w), c) == At(m, c) + Flow(t, w, c)
    ensures c in Book(m, t, w) <==> c in m || Touches(t, w, c)
  {
    BookFlow(m, t, w, c);
    BookKeys(m, t, w, c);
  }

  lemma BookFlow(m: Tally, t: FakeTxn, w: Value, c: Option<string>)
    ensures At(Book(m, t, w), c) == At(m, c) + Flow(t, w, c)
  {
    var from := LegFlow(FromApplies(t, w), Ledger(t.fromCurrency), -t.base.fromAmount, c);
    var to := LegFlow(ToApplies(t, w), Ledger(t.toCurrency), t.base.toAmount, c);
    var fee := LegFlow(FeeApplies(t, w), Ledger(t.feeCurrency), -t.base.feeAmount, c);
    assert Flow(t, w, c) == to + from + fee;
    assert At(Book(m, t, w), c) == At(m, c) + from + to + fee;
  }

  lemma BookKeys(m: Tally, t: FakeTxn, w: Value, c: Option<string>)
    ensures c in Book(m, t, w) <==> c in m || Touches(t, w, c)
  {
  }

  /**
   * The tally holds, for every ledger, exactly the net flow of the txns
   * into it, and has a key for exactly the ledgers some txn touches.
   */
  lemma {:induction false} TallyIsNetFlow(w: Value, txns: seq<FakeTxn>, c: Option<string>)
    ensures At(TallyOf(w, txns), c) == NetFlow(w, txns, c)
    ensures c in TallyOf(w, txns) <==> exists i :: 0 <= i < |txns| && Touches(txns[i], w, c)
  {
    if txns != [] {
      var front := txns[..|txns| - 1];
      TallyIsNetFlow(w, front, c);
      BookOne(TallyOf(w, front), txns[|txns| - 1], w, c);
      assert forall i :: 0 <= i < |front| ==> front[i] == txns[i];
      if c in TallyOf(w, txns) && !Touches(txns[|txns| - 1], w, c) {
        var i :| 0 <= i < |front| && Touches(front[i], w, c);
        assert Touches(txns[i], w, c);
      }
    }
  }

  // ---------------------------------------------------------------- the method

  /** The block of `calculate_amounts`: the three legs of one txn, each booked when it applies. */
  method BookTxn(balance: Tally, t: FakeTxn, w: Value) returns (next: Tally)
    ensures next == Book(balance, t, w)
  {
    next := BookIf(balance, t.fromCurrency.Some? && t.base.fromWallet == w, Ledger(t.fromCurrency), -t.base.fromAmount);
    next := BookIf(next, t.toCurrency.Some? && t.base.toWallet == w, Ledger(t.toCurrency), t.base.toAmount);
    next := BookIf(next, t.feeCurrency.Some? && t.base.fromWallet == w, Ledger(t.feeCurrency), -t.base.feeAmount);
  }

  /** `balance[k] += d if applies`. */
  method BookIf(m: Tally, applies: bool, k: Option<string>, d: real) returns (r: Tally)
    ensures r == BookLeg(m, applies, k, d)
  {
    r := m;
    if applies {
      r := r[k := At(r, k) + d];
    }
  }

  /**
   * `calculate_amounts(wallet, wallet_txns)`: books every txn into a
   * `Hash.new(0)` in order, then clamps every amount.
   */
  method CalculateAmounts(w: Value, txns: seq<FakeTxn>) returns (amounts: Tally)
    ensures amounts == Amounts(w, txns)
  {
    var balance: Tally := map[];
    for i := 0 to |txns|
      invariant balance == TallyOf(w, txns[..i])
    {
      assert txns[..i + 1][..i] == txns[..i];
      balance := BookTxn(balance, txns[i], w);
    }
    assert txns[..|txns|] == txns;
    amounts := map k | k in balance :: Clamp(balance[k], -AMOUNT_LIMIT, AMOUNT_LIMIT);
  }

  // ---------------------------------------------------------------- balances

  /** The keys of a sorted list of (ledger, amount) pairs. */
  function KeysOf(s: seq<(string, real)>): (r: seq<string>)
    ensures |r| == |s| && forall i :: 0 <= i < |s| ==> r[i] == s[i].0
  {
    seq(|s|, i requires 0 <= i < |s| => s[i].0)
  }

  /** A ledger's balance, rounded to the precision. */
  function Rounded(amounts: Tally, k: string): real {
    RoundHalfUp(At(amounts, Some(k)), PRECISION)
  }

  /** Whether ledger `k` appears in the balances: a non-blank symbol whose rounded amount is not zero. */
  predicate Listed(amounts: Tally, k: string) {
    Some(k) in amounts && !Blank(k) && Rounded(amounts, k) != 0.0
  }

  /**
   * `calculate_balances(wallet, wallet_txns)`: every ledger with a
   * non-blank symbol and a non-zero rounded amount, with that amount,
   * sorted by symbol.
   */
  function Balances(w: Value, txns: seq<FakeTxn>): (r: seq<(string, real)>)
    ensures StrictlySorted(KeysOf(r))
    ensures forall i :: 0 <= i < |r| ==> Listed(Amounts(w, txns), r[i].0) && r[i].1 == Rounded(Amounts(w, txns), r[i].0)
    ensures forall k :: Listed(Amounts(w, txns), k) ==> k in KeysOf(r)
  {
    var amounts := Amounts(w, txns);
    var keys := ListedKeys(amounts);
    var sorted := SortedKeys(keys);
    var r := BalanceEntries(amounts, sorted);
    assert forall i :: 0 <= i < |r| ==> r[i].0 == sorted[i] && sorted[i] in keys;
    r
  }

  /** The ledgers listed in the balances. */
  function ListedKeys(amounts: Tally): (r: set<string>)
    ensures forall k :: k in r <==> Listed(amounts, k)
  {
    var r := set o | o in amounts && o.Some? && Listed(amounts, o.value) :: o.value;
    assert forall k :: Listed(amounts, k) ==> k in r by {
      forall k | Listed(amounts, k)
        ensures k in r
      {
        assert Some(k) in amounts && Some(k).value == k;
      }
    }
    r
  }

  /** Each ledger paired with its rounded amount. */
  function BalanceEntries(amounts: Tally, ks: seq<string>): (r: seq<(string, real)>)
    ensures KeysOf(r) == ks
    ensures forall i :: 0 <= i < |r| ==> r[i].1 == Rounded(amounts, ks[i])
  {
    var r := seq(|ks|, i requires 0 <= i < |ks| => (ks[i], Rounded(amounts, ks[i])));
    assert KeysOf(r) == ks;
    r
  }

  /**
   * A listed balance is the wallet's net flow into that ledger, clamped
   * to the limit and rounded to the precision.
   */
  lemma BalanceIsNetFlow(w: Value, txns: seq<FakeTxn>, i: int)
    requires 0 <= i < |Balances(w, txns)|
    ensures var (k, v) := Balances(w, txns)[i];
            v == RoundHalfUp(Clamp(NetFlow(w, txns, Some(k)), -AMOUNT_LIMIT, AMOUNT_LIMIT), PRECISION)
  {
    var k := Balances(w, txns)[i].0;
    TallyIsNetFlow(w, txns, Some(k));
  }

  /** A ledger the wallet's txns never touch has no balance. */
  lemma UntouchedLedgerIsUnlisted(w: Value, txns: seq<FakeTxn>, k: string)
    requires forall i :: 0 <= i < |txns| ==> !Touches(txns[i], w, Some(k))
    ensures k !in KeysOf(Balances(w, txns))
  {
    TallyIsNetFlow(w, txns, Some(k));
  }

  // ---------------------------------------------------------------- the API balances

  /**
   * One reported API balance: a scalar under a currency key, or a hash
   * with its own currency (anything `CurrencyValue.build` accepts) and
   * amount, whose outer key is then ignored.
   */
  datatype ApiBalance = Plain(key: string, amount: real) | Keyed(currency: Value, amount: real)

  /**
   * The ledger an API balance is added to: the key upcased and stripped;
   * for a hash the built currency's symbol (empty when it has none). A
   * hash whose currency does not build has none (`nil.humanize` raises).
   */
  function ApiKey(b: ApiBalance): (r: Option<string>)
    ensures b.Plain? ==> r == Some(Strip(Upcase(b.key)))
    ensures b.Keyed? ==> (r.None? <==> BuildCurrency(b.currency).None?)
  {
    match b
    case Plain(c, _) => Some(Strip(Upcase(c)))
    case Keyed(v, _) =>
      match BuildCurrency(v)
      case None => None
      case Some(c) => Some(Strip(Upcase(c.symbol.GetOr(""))))
  }

  /** Each element's (key, amount) pair, in order; fails at the first element without a key. */
  function Resolve<T>(xs: seq<T>, key: T -> Option<string>, amount: T -> real): (r: Result<seq<(string, real)>, string>)
    ensures r.Failure? <==> exists i :: 0 <= i < |xs| && key(xs[i]).None?
    ensures r.Success? ==> && |r.value| == |xs|
                           && forall i :: 0 <= i < |xs| ==> r.value[i] == (key(xs[i]).value, amount(xs[i]))
  {
    if xs == [] then Success([])
    else
      var front := xs[..|xs| - 1];
      var last := xs[|xs| - 1];
      assert forall i :: 0 <= i < |front| ==> front[i] == xs[i];
      match Resolve(front, key, amount)
      case Failure(e) => Failure(e)
      case Success(es) =>
        match key(last)
        case None => Failure("NoMethodError: undefined method `humanize' for nil")
        case Some(k) => Success(es + [(k, amount(last))])
  }

  function ApiAmount(b: ApiBalance): real { b.amount }

  /** The API balances as (ledger, amount) pairs, in order; fails at the first whose currency does not build. */
  function ApiEntries(api: seq<ApiBalance>): (r: Result<seq<(string, real)>, string>)
    ensures r.Failure? <==> exists i :: 0 <= i < |api| && ApiKey(api[i]).None?
    ensures r.Success? ==> && |r.value| == |api|
                           && forall i :: 0 <= i < |api| ==> r.value[i] == (ApiKey(api[i]).value, api[i].amount)
  {
    Resolve(api, ApiKey, ApiAmount)
  }

  /** `memo[k] += amount` over a `Hash.new(0)`, pair by pair: the amounts summed per ledger. */
  function SumByKey(entries: seq<(string, real)>): (r: map<string, real>)
    ensures r.Keys == set i | 0 <= i < |entries| :: entries[i].0
  {
    if entries == [] then map[]
    else
      var front := entries[..|entries| - 1];
      var (k, v) := entries[|entries| - 1];
      var m := SumByKey(front);
      var r := m[k := (if k in m then m[k] else 0.0) + v];
      assert r.Keys == set i | 0 <= i < |entries| :: entries[i].0 by {
        forall j | j in set i | 0 <= i < |entries| :: entries[i].0
          ensures j in r.Keys
        {
          var i :| 0 <= i < |entries| && entries[i].0 == j;
          if i < |front| {
            assert front[i].0 == j;
          }
        }
        forall j | j in r.Keys
          ensures j in set i | 0 <= i < |entries| :: entries[i].0
        {
          if j != k {
            var i :| 0 <= i < |front| && front[i].0 == j;
            assert entries[i].0 == j;
          } else {
            assert entries[|entries| - 1].0 == j;
          }
        }
      }
      r
  }

  /** `adjusted_balances`: the API amounts summed per ledger; fails at a currency that does not build. */
  function Adjusted(api: seq<ApiBalance>): (r: Result<map<string, real>, string>)
    ensures r.Failure? <==> exists i :: 0 <= i < |api| && ApiKey(api[i]).None?
  {
    match ApiEntries(api)
    case Failure(e) => Failure(e)
    case Success(es) => Success(SumByKey(es))
  }

  /** `balances[symbol].to_d`: the balance listed under `k`, zero when there is none. */
  function BalanceOf(balances: seq<(string, real)>, k: string): real {
    if balances == [] then 0.0
    else if balances[|balances| - 1].0 == k then balances[|balances| - 1].1
    else BalanceOf(balances[..|balances| - 1], k)
  }

  /** The difference in ledger `k`: the rounded balance minus the rounded API amount. */
  function Difference(adjusted: map<string, real>, balances: seq<(string, real)>, k: string): real {
    RoundHalfUp(BalanceOf(balances, k), PRECISION) - RoundHalfUp(if k in adjusted then adjusted[k] else 0.0, PRECISION)
  }

  /** The ledgers either side names. */
  function DiffKeys(adjusted: map<string, real>, balances: seq<(string, real)>): set<string> {
    adjusted.Keys + set i | 0 <= i < |balances| :: balances[i].0
  }

  /** Whether ledger `k` is reported as differing. */
  predicate Differs(adjusted: map<string, real>, balances: seq<(string, real)>, k: string) {
    k in DiffKeys(adjusted, balances) && !Blank(k) && Difference(adjusted, balances, k) != 0.0
  }

  /**
   * The non-zero differences over the non-blank ledgers either side names,
   * sorted by ledger; nil when there is none.
   */
  function DiffList(adjusted: map<string, real>, balances: seq<(string, real)>): (r: Option<seq<(string, real)>>)
    ensures r.None? <==> forall k :: !Differs(adjusted, balances, k)
    ensures r.Some? ==> && |r.value| > 0
                        && StrictlySorted(KeysOf(r.value))
                        && (forall i :: 0 <= i < |r.value| ==>
                              Differs(adjusted, balances, r.value[i].0)
                              && r.value[i].1 == Difference(adjusted, balances, r.value[i].0))
                        && (forall k :: Differs(adjusted, balances, k) ==> k in KeysOf(r.value))
  {
    var keys := DifferingKeys(adjusted, balances);
    if keys == {} then None
    else
      var sorted := SortedKeys(keys);
      var diff := DiffEntries(adjusted, balances, sorted);
      assert forall i :: 0 <= i < |diff| ==> diff[i].0 == sorted[i] && sorted[i] in keys;
      Some(diff)
  }

  /** The ledgers reported as differing. */
  function DifferingKeys(adjusted: map<string, real>, balances: seq<(string, real)>): (r: set<string>)
    ensures forall k :: k in r <==> Differs(adjusted, balances, k)
  {
    set k | k in DiffKeys(adjusted, balances) && Differs(adjusted, balances, k)
  }

  /** Each listed ledger paired with its difference. */
  function DiffEntries(adjusted: map<string, real>, balances: seq<(string, real)>, ks: seq<string>): (r: seq<(string, real)>)
    ensures KeysOf(r) == ks
    ensures forall i :: 0 <= i < |r| ==> r[i].1 == Difference(adjusted, balances, ks[i])
  {
    var r := seq(|ks|, i requires 0 <= i < |ks| => (ks[i], Difference(adjusted, balances, ks[i])));
    assert KeysOf(r) == ks;
    r
  }

  /**
   * `balance_diff(balances)`: nil unless diffs are enabled; otherwise the
   * differences from the API balances summed per ledger, failing where
   * an API currency does not build.
   */
  function BalanceDiff(enabled: bool, api: seq<ApiBalance>, balances: seq<(string, real)>)
    : (r: Result<Option<seq<(string, real)>>, string>)
    ensures !enabled ==> r == Success(None)
    ensures enabled ==> (r.Failure? <==> exists i :: 0 <= i < |api| && ApiKey(api[i]).None?)
    ensures enabled && r.Success? ==> r.value == DiffList(Adjusted(api).value, balances)
  {
    if !enabled then Success(None)
    else
      match Adjusted(api)
      case Failure(e) => Failure(e)
      case Success(adjusted) => Success(DiffList(adjusted, balances))
  }

  /** The API balances that report exactly the listed balances, one scalar per ledger. */
  function AsApiBalances(balances: seq<(string, real)>): (r: seq<ApiBalance>)
    ensures |r| == |balances|
    ensures forall i :: 0 <= i < |r| ==> r[i] == Plain(balances[i].0, balances[i].1)
  {
    seq(|balances|, i requires 0 <= i < |balances| => Plain(balances[i].0, balances[i].1))
  }

  /** Summing pairs with distinct keys keeps each pair's amount. */
  lemma {:induction false} SumByKeyOfDistinct(entries: seq<(string, real)>)
    requires StrictlySorted(KeysOf(entries))
    ensures forall k :: k in SumByKey(entries) ==> SumByKey(entries)[k] == BalanceOf(entries, k)
  {
    if entries != [] {
      var front := entries[..|entries| - 1];
      var last := entries[|entries| - 1];
      assert KeysOf(front) == KeysOf(entries)[..|front|];
      SumByKeyOfDistinct(front);
      forall i | 0 <= i < |front|
        ensures front[i].0 != last.0
      {
        StrictlySortedIncreases(KeysOf(entries), i, |entries| - 1);
      }
      assert last.0 !in SumByKey(front);
    }
  }

  /** The API balances built from a list of balances resolve to that very list. */
  lemma OwnApiEntries(balances: seq<(string, real)>)
    requires forall i :: 0 <= i < |balances| ==> Strip(Upcase(balances[i].0)) == balances[i].0
    ensures ApiEntries(AsApiBalances(balances)) == Success(balances)
  {
    var api := AsApiBalances(balances);
    var r := ApiEntries(api);
    forall i | 0 <= i < |api|
      ensures ApiKey(api[i]) == Some(balances[i].0)
    {
      assert api[i] == Plain(balances[i].0, balances[i].1);
    }
    assert r.Success?;
    assert forall i :: 0 <= i < |api| ==> r.value[i] == (balances[i].0, balances[i].1) == balances[i];
    assert r.value == balances;
  }

  /** API balances that report exactly the wallet's balances leave no difference. */
  lemma OwnBalancesHaveNoDiff(balances: seq<(string, real)>)
    requires StrictlySorted(KeysOf(balances))
    requires forall i :: 0 <= i < |balances| ==> Strip(Upcase(balances[i].0)) == balances[i].0
    ensures BalanceDiff(true, AsApiBalances(balances), balances) == Success(None)
  {
    var api := AsApiBalances(balances);
    OwnApiEntries(balances);
    assert Adjusted(api) == Success(SumByKey(balances));
    NoLedgerDiffers(balances);
  }

  /** Summed against themselves, distinct balances differ nowhere. */
  lemma NoLedgerDiffers(balances: seq<(string, real)>)
    requires StrictlySorted(KeysOf(balances))
    ensures DiffList(SumByKey(balances), balances) == None
  {
    var adjusted := SumByKey(balances);
    SumByKeyOfDistinct(balances);
    forall k
      ensures !Differs(adjusted, balances, k)
    {
      if k in DiffKeys(adjusted, balances) {
        assert k in adjusted;
      }
    }
  }
}
