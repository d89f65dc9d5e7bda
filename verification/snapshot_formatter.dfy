/**
 * `SnapshotFormatter`: built from raw txns, it turns each into a fake txn,
 * keeps the valid ones, groups them, and files every txn under its
 * wallets; each wallet's balances are then computed from the txns filed
 * under it.
 */
module SnapshotFormatters {
  import opened Wrappers
  import opened Values
  import opened TxnModel
  import opened Enumerables
  import opened SnapshotCurrencies
  import opened SnapshotTxns
  import opened SnapshotGrouping
  import opened SnapshotBalances

  type Wallets = map<Value, seq<FakeTxn>>

  /** The wallets hash starts with the nil wallet and no txns. */
  const INITIAL_WALLETS: Wallets := map[Nil := []]

  /** Whether `add_to_wallets` files txn `t` under wallet `w`: its from-wallet, or its distinct to-wallet when it has a to-leg. */
  predicate FiledUnder(t: FakeTxn, w: Value) {
    t.base.fromWallet == w || (t.base.toWallet == w && t.base.toWallet != t.base.fromWallet && t.toCurrency.Some?)
  }

  /**
   * `add_to_wallets(txn)` on the wallets hash: both wallets get a list if
   * they have none; the txn is appended to its from-wallet's list, and to
   * its to-wallet's list when that wallet differs and the txn has a to-leg.
   */
  function AddedToWallets(ws: Wallets, t: FakeTxn): (r: Wallets)
    ensures r.Keys == ws.Keys + {t.base.fromWallet, t.base.toWallet}
    ensures forall w :: w in r ==> r[w] == (if w in ws then ws[w] else []) + (if FiledUnder(t, w) then [t] else [])
  {
    var from := t.base.fromWallet;
    var to := t.base.toWallet;
    var ws1 := if from in ws then ws else ws[from := []];
    var ws2 := if to in ws1 then ws1 else ws1[to := []];
    var ws3 := ws2[from := ws2[from] + [t]];
    if to != from && t.toCurrency.Some? then ws3[to := ws3[to] + [t]] else ws3
  }

  /** The wallets hash after filing `txns` in order. */
  function WalletsOf(txns: seq<FakeTxn>): Wallets {
    if txns == [] then INITIAL_WALLETS else AddedToWallets(WalletsOf(txns[..|txns| - 1]), txns[|txns| - 1])
  }

  /** Filing one more txn files it on top of the hash so far. */
  lemma WalletsOfSnoc(front: seq<FakeTxn>, t: FakeTxn)
    ensures WalletsOf(front + [t]) == AddedToWallets(WalletsOf(front), t)
  {
    assert (front + [t])[..|front|] == front;
  }

  lemma PrefixGrows<T>(s: seq<T>, i: nat)
    requires i < |s|
    ensures s[..i + 1] == s[..i] + [s[i]]
  {
  }

  /** The txns filed under wallet `w`, in order. */
  function FiledTxns(txns: seq<FakeTxn>, w: Value): (r: seq<FakeTxn>)
    ensures forall t :: t in r <==> t in txns && FiledUnder(t, w)
  {
    if txns == [] then []
    else FiledTxns(txns[..|txns| - 1], w) + (if FiledUnder(txns[|txns| - 1], w) then [txns[|txns| - 1]] else [])
  }

  /** Filing under a wallet is `select` with the filing test: order and multiplicity are kept. */
  lemma {:induction false} FiledTxnsAreSelected(txns: seq<FakeTxn>, w: Value)
    ensures FiledTxns(txns, w) == Select(txns, t => FiledUnder(t, w))
  {
    if txns != [] {
      var front := txns[..|txns| - 1];
      var last := txns[|txns| - 1];
      FiledTxnsAreSelected(front, w);
      assert txns == front + [last];
      SelectAppend(front, [last], t => FiledUnder(t, w));
      SelectOne(last, t => FiledUnder(t, w));
    }
  }

  /** Whether some txn names `w` as its from- or to-wallet. */
  predicate Named(txns: seq<FakeTxn>, w: Value) {
    exists i :: 0 <= i < |txns| && (txns[i].base.fromWallet == w || txns[i].base.toWallet == w)
  }

  /** The wallets hash has a list for the nil wallet and for every wallet some txn names, and for no other. */
  lemma {:induction false} WalletsKeys(txns: seq<FakeTxn>, w: Value)
    ensures w in WalletsOf(txns) <==> w == Nil || Named(txns, w)
  {
    if txns != [] {
      var front := txns[..|txns| - 1];
      var t := txns[|txns| - 1];
      WalletsKeys(front, w);
      assert WalletsOf(txns).Keys == WalletsOf(front).Keys + {t.base.fromWallet, t.base.toWallet};
      NamedSplit(txns, w);
    }
  }

  lemma NamedSplit(txns: seq<FakeTxn>, w: Value)
    requires txns != []
    ensures Named(txns, w) <==> || Named(txns[..|txns| - 1], w)
                                || txns[|txns| - 1].base.fromWallet == w
                                || txns[|txns| - 1].base.toWallet == w
  {
    var front := txns[..|txns| - 1];
    assert forall i :: 0 <= i < |front| ==> front[i] == txns[i];
  }

  /** A wallet no txn names has nothing filed under it. */
  lemma UnnamedHasNothingFiled(txns: seq<FakeTxn>, w: Value)
    requires !Named(txns, w)
    ensures FiledTxns(txns, w) == []
  {
  }

  /** Each wallet's list holds exactly the txns filed under that wallet, in order, each once. */
  lemma {:induction false} WalletsFileTheirTxns(txns: seq<FakeTxn>, w: Value)
    requires w in WalletsOf(txns)
    ensures WalletsOf(txns)[w] == FiledTxns(txns, w)
  {
    if txns != [] {
      var front := txns[..|txns| - 1];
      var t := txns[|txns| - 1];
      var before := WalletsOf(front);
      assert WalletsOf(txns) == AddedToWallets(before, t);
      assert FiledTxns(txns, w) == FiledTxns(front, w) + (if FiledUnder(t, w) then [t] else []);
      if w in before {
        WalletsFileTheirTxns(front, w);
      } else {
        WalletsKeys(front, w);
        UnnamedHasNothingFiled(front, w);
      }
    }
  }

  /** A txn not filed under `w` books nothing into `w`'s tally. */
  lemma UnfiledBooksNothing(m: Tally, t: FakeTxn, w: Value)
    requires !FiledUnder(t, w)
    ensures Book(m, t, w) == m
  {
  }

  /**
   * Tallying a wallet over the txns filed under it gives the tally over
   * all txns: filing leaves out only txns that book nothing there.
   */
  lemma {:induction false} FiledTallyIsWholeTally(txns: seq<FakeTxn>, w: Value)
    ensures TallyOf(w, FiledTxns(txns, w)) == TallyOf(w, txns)
  {
    if txns != [] {
      var front := txns[..|txns| - 1];
      var t := txns[|txns| - 1];
      FiledTallyIsWholeTally(front, w);
      TallyOfAppend(w, front, t);
      assert txns == front + [t];
      if FiledUnder(t, w) {
        assert FiledTxns(txns, w) == FiledTxns(front, w) + [t];
        TallyOfAppend(w, FiledTxns(front, w), t);
      } else {
        assert FiledTxns(txns, w) == FiledTxns(front, w);
        UnfiledBooksNothing(TallyOf(w, front), t, w);
      }
    }
  }

  lemma TallyOfAppend(w: Value, s: seq<FakeTxn>, t: FakeTxn)
    ensures TallyOf(w, s + [t]) == Book(TallyOf(w, s), t, w)
  {
    assert (s + [t])[..|s|] == s;
  }

  /** A wallet's snapshot balances, computed over its own list, are its balances over all txns. */
  lemma WalletBalancesSeeAllTxns(txns: seq<FakeTxn>, w: Value)
    requires w in WalletsOf(txns)
    ensures Balances(w, WalletsOf(txns)[w]) == Balances(w, txns)
  {
    WalletsFileTheirTxns(txns, w);
    FiledTallyIsWholeTally(txns, w);
    assert Amounts(w, WalletsOf(txns)[w]) == Amounts(w, txns);
  }

  // ---------------------------------------------------------------- the pipeline

  /** `txns.map { FakeTxn.new(txn) }`: raises at the first txn with neither currency. */
  function Fakes(raw: seq<Txn>, fiats: set<string>): (r: Result<seq<FakeTxn>, string>)
    ensures r.Failure? <==> exists i :: 0 <= i < |raw| && NewFakeTxn(raw[i], fiats).Failure?
    ensures r.Success? ==> |r.value| == |raw| && forall i :: 0 <= i < |raw| ==> NewFakeTxn(raw[i], fiats) == Success(r.value[i])
  {
    MapAll(raw, t => NewFakeTxn(t, fiats))
  }

  /** `.select(&:valid?)`. */
  function ValidOnly(fakes: seq<FakeTxn>, fiats: set<string>): (r: seq<FakeTxn>)
    ensures forall f :: f in r <==> f in fakes && ValidFake(f, fiats)
  {
    Select(fakes, f => ValidFake(f, fiats))
  }

  /** `select(&:valid?)` keeps the order of the fakes: it works piece by piece. */
  lemma ValidOnlyInOrder(a: seq<FakeTxn>, b: seq<FakeTxn>, fiats: set<string>)
    ensures ValidOnly(a + b, fiats) == ValidOnly(a, fiats) + ValidOnly(b, fiats)
  {
    SelectAppend(a, b, f => ValidFake(f, fiats));
  }

  /** `select(&:valid?)` keeps each valid fake as often as it occurs, and no invalid one. */
  lemma ValidOnlyCount(fakes: seq<FakeTxn>, fiats: set<string>, f: FakeTxn)
    ensures multiset(ValidOnly(fakes, fiats))[f] == if ValidFake(f, fiats) then multiset(fakes)[f] else 0
  {
    SelectCount(fakes, g => ValidFake(g, fiats), f);
  }

  /** The txns the formatter keeps: the valid fake txns, grouped. */
  function Prepared(raw: seq<Txn>, fiats: set<string>): (r: Result<seq<FakeTxn>, string>)
    ensures r.Success? ==> forall f :: f in r.value ==> ValidFake(f, fiats)
  {
    match Fakes(raw, fiats)
    case Failure(e) => Failure(e)
    case Success(fakes) =>
      var valid := ValidOnly(fakes, fiats);
      var r := Grouped(valid);
      if r.Success? then GroupingKeepsValidity(valid, fiats); r else r
  }

  class SnapshotFormatter {
    var txns: seq<FakeTxn>
    var apiBalances: seq<ApiBalance>
    var diffsEnabled: bool
    var wallets: Wallets

    /** The wallets hash files exactly the formatter's txns. */
    ghost predicate Valid()
      reads this
    {
      wallets == WalletsOf(txns)
    }

    /** The end of `initialize`: files every prepared txn under its wallets, in order. */
    constructor (prepared: seq<FakeTxn>, apiBalances: seq<ApiBalance>, diffsEnabled: bool)
      ensures Valid()
      ensures txns == prepared && this.apiBalances == apiBalances && this.diffsEnabled == diffsEnabled
    {
      wallets := INITIAL_WALLETS;
      txns := [];
      this.apiBalances := apiBalances;
      this.diffsEnabled := diffsEnabled;
      new;
      var filed: seq<FakeTxn> := [];
      for i := 0 to |prepared|
        invariant filed == prepared[..i] && wallets == WalletsOf(filed)
        invariant this.apiBalances == apiBalances && this.diffsEnabled == diffsEnabled
      {
        var t := AddToWallets(prepared[i]);
        WalletsOfSnoc(filed, t);
        PrefixGrows(prepared, i);
        filed := filed + [t];
      }
      assert prepared[..|prepared|] == prepared;
      txns := filed;
    }

    /** `add_to_wallets(txn)`: files the txn and returns it. */
    method AddToWallets(t: FakeTxn) returns (r: FakeTxn)
      modifies this
      ensures r == t
      ensures wallets == AddedToWallets(old(wallets), t)
      ensures txns == old(txns) && apiBalances == old(apiBalances) && diffsEnabled == old(diffsEnabled)
    {
      var from := t.base.fromWallet;
      var to := t.base.toWallet;
      if from !in wallets {
        wallets := wallets[from := []];
      }
      if to !in wallets {
        wallets := wallets[to := []];
      }
      wallets := wallets[from := wallets[from] + [t]];
      if to != from && t.toCurrency.Some? {
        wallets := wallets[to := wallets[to] + [t]];
      }
      r := t;
    }

    /** `balance_diff(balances)` against this formatter's API balances. */
    function BalanceDiffOf(balances: seq<(string, real)>): (r: Result<Option<seq<(string, real)>>, string>)
      reads this
      ensures !diffsEnabled ==> r == Success(None)
      ensures diffsEnabled ==> (r.Failure? <==> exists i :: 0 <= i < |apiBalances| && ApiKey(apiBalances[i]).None?)
    {
      BalanceDiff(diffsEnabled, apiBalances, balances)
    }
  }

  /**
   * `SnapshotFormatter.new(txns:, api_balances:, diffs_enabled:)`: raises
   * where a txn has neither currency or a grouped txn has no date;
   * otherwise a formatter over the prepared txns with every one filed.
   */
  method NewFormatter(raw: seq<Txn>, fiats: set<string>, apiBalances: seq<ApiBalance>, diffsEnabled: bool)
    returns (r: Result<SnapshotFormatter, string>)
    ensures r.Failure? <==> Prepared(raw, fiats).Failure?
    ensures r.Success? ==> && fresh(r.value) && r.value.Valid()
                           && r.value.txns == Prepared(raw, fiats).value
                           && r.value.apiBalances == apiBalances && r.value.diffsEnabled == diffsEnabled
  {
    var fakes := Fakes(raw, fiats);
    if fakes.Failure? {
      return Failure(fakes.error);
    }
    var grouped := GroupTransactions(ValidOnly(fakes.value, fiats));
    if grouped.Failure? {
      return Failure(grouped.error);
    }
    var formatter := new SnapshotFormatter(grouped.value, apiBalances, diffsEnabled);
    return Success(formatter);
  }
}
