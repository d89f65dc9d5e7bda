/**
 * `group_transactions`: deposits and withdrawals that carry a group name
 * are merged, one txn per (group, type, currency, wallet, day), into a txn
 * whose amounts are the group's sums and whose date is the group's
 * earliest (with a to-leg) or latest (otherwise); the other txns are kept
 * in order and the merged ones follow.
 */
module SnapshotGrouping {
  import opened Wrappers
  import opened Values
  import opened SnapshotCurrencies
  import opened SnapshotTxns
  import opened Enumerables

  const SECONDS_PER_DAY := 86400

  /** The grouping key: group name, legacy type, the leg's currency and wallet, and the UTC day. */
  datatype GroupKey = GroupKey(group: string, legacyType: string, currency: Option<CurrencyValue>, wallet: Value, day: int)

  /** A deposit or withdrawal with a group name takes part in grouping. */
  predicate Groupable(f: FakeTxn) {
    f.base.groupName.Some? && (f.IsDeposit() || f.IsWithdrawal())
  }

  /**
   * The key of a grouped txn, by its from-leg if it has one, else by its
   * to-leg; none without a group name or a date (`strftime` on nil raises).
   */
  function KeyOf(f: FakeTxn): (r: Option<GroupKey>)
    ensures r.Some? <==> f.base.groupName.Some? && f.base.date.Some?
    ensures r.Some? ==> r.value.group == f.base.groupName.value && r.value.legacyType == f.legacyType
    ensures r.Some? && f.fromCurrency.Some? ==> r.value.currency == f.fromCurrency && r.value.wallet == f.base.fromWallet
    ensures r.Some? && f.fromCurrency.None? ==> r.value.currency == f.toCurrency && r.value.wallet == f.base.toWallet
    ensures r.Some? ==> r.value.day * SECONDS_PER_DAY <= f.base.date.value < (r.value.day + 1) * SECONDS_PER_DAY
  {
    if f.base.groupName.None? || f.base.date.None? then None
    else
      var day := f.base.date.value / SECONDS_PER_DAY;
      if f.fromCurrency.Some? then Some(GroupKey(f.base.groupName.value, f.legacyType, f.fromCurrency, f.base.fromWallet, day))
      else Some(GroupKey(f.base.groupName.value, f.legacyType, f.toCurrency, f.base.toWallet, day))
  }

  predicate AllDated(g: seq<FakeTxn>) {
    forall i :: 0 <= i < |g| ==> g[i].base.date.Some?
  }

  /** The legs whose amounts the snapshot sums. */
  datatype Leg = FromLeg | ToLeg | FeeLeg

  function FromAmount(f: FakeTxn): real { f.base.fromAmount }
  function ToAmount(f: FakeTxn): real { f.base.toAmount }
  function FeeAmount(f: FakeTxn): real { f.base.feeAmount }

  function Amount(leg: Leg): FakeTxn -> real {
    match leg
    case FromLeg => FromAmount
    case ToLeg => ToAmount
    case FeeLeg => FeeAmount
  }

  /** The earliest date of a dated group. */
  function MinDate(g: seq<FakeTxn>): (r: int)
    requires |g| > 0 && AllDated(g)
    ensures forall i :: 0 <= i < |g| ==> r <= g[i].base.date.value
    ensures exists i :: 0 <= i < |g| && r == g[i].base.date.value
  {
    if |g| == 1 then g[0].base.date.value
    else
      var m := MinDate(g[..|g| - 1]);
      assert forall i :: 0 <= i < |g| - 1 ==> g[..|g| - 1][i] == g[i];
      if g[|g| - 1].base.date.value < m then g[|g| - 1].base.date.value else m
  }

  /** The latest date of a dated group. */
  function MaxDate(g: seq<FakeTxn>): (r: int)
    requires |g| > 0 && AllDated(g)
    ensures forall i :: 0 <= i < |g| ==> g[i].base.date.value <= r
    ensures exists i :: 0 <= i < |g| && r == g[i].base.date.value
  {
    if |g| == 1 then g[0].base.date.value
    else
      var m := MaxDate(g[..|g| - 1]);
      assert forall i :: 0 <= i < |g| - 1 ==> g[..|g| - 1][i] == g[i];
      if g[|g| - 1].base.date.value > m then g[|g| - 1].base.date.value else m
  }

  /**
   * The merged txn of a group: its first member, dated at the earliest
   * date when it has a to-leg and at the latest otherwise, with the
   * group's summed from- and to-amounts; the fee stays the first member's.
   */
  function Merge(g: seq<FakeTxn>): (r: FakeTxn)
    requires |g| > 0 && AllDated(g)
    ensures r.base.date.Some?
    ensures g[0].toCurrency.Some? ==> forall i :: 0 <= i < |g| ==> r.base.date.value <= g[i].base.date.value
    ensures g[0].toCurrency.None? ==> forall i :: 0 <= i < |g| ==> g[i].base.date.value <= r.base.date.value
    ensures exists i :: 0 <= i < |g| && r.base.date == g[i].base.date
    ensures FromAmount(r) == Total(g, FromAmount) && ToAmount(r) == Total(g, ToAmount)
  {
    var date := if g[0].toCurrency.Some? then MinDate(g) else MaxDate(g);
    g[0].(base := g[0].base.(date := Some(date), fromAmount := Total(g, FromAmount), toAmount := Total(g, ToAmount)))
  }

  /**
   * Everything but the date and the two amounts is the first member's:
   * its currencies and type, its wallets, its fee and its group.
   */
  lemma MergeKeepsFirst(g: seq<FakeTxn>)
    requires |g| > 0 && AllDated(g)
    ensures var r := Merge(g);
            && r.(base := g[0].base) == g[0]
            && r.base.fromWallet == g[0].base.fromWallet && r.base.toWallet == g[0].base.toWallet
            && r.base.feeAmount == g[0].base.feeAmount && r.base.groupName == g[0].base.groupName
  {
  }

  /** Every member of a group has the group's key, hence a date. */
  lemma MembersDated(g: seq<FakeTxn>, k: GroupKey)
    ensures AllDated(Members(g, KeyOf, k))
  {
  }

  /** Every group of `keys` can be merged: it has a member, and all its members a date. */
  predicate Mergeable(g: seq<FakeTxn>, keys: seq<GroupKey>) {
    forall k :: k in keys ==> |Members(g, KeyOf, k)| > 0 && AllDated(Members(g, KeyOf, k))
  }

  /** The groups of the keys that occur are mergeable. */
  lemma KeyGroupsMergeable(g: seq<FakeTxn>, keys: seq<GroupKey>)
    requires forall k :: k in keys ==> k in KeysInOrder(g, KeyOf)
    ensures Mergeable(g, keys)
  {
    forall k | k in keys
      ensures |Members(g, KeyOf, k)| > 0 && AllDated(Members(g, KeyOf, k))
    {
      MembersNonEmpty(g, KeyOf, k);
      MembersDated(g, k);
    }
  }

  /** The merged txns of the groups `keys`, in that order. */
  function MergedGroups(g: seq<FakeTxn>, keys: seq<GroupKey>): (r: seq<FakeTxn>)
    requires Mergeable(g, keys)
    ensures |r| == |keys|
  {
    if keys == [] then []
    else
      var k := keys[|keys| - 1];
      MergedGroups(g, keys[..|keys| - 1]) + [Merge(Members(g, KeyOf, k))]
  }

  /**
   * `group_transactions(txns)`: fails as `strftime` on nil does when a
   * groupable txn has no date; otherwise the other txns in order followed
   * by one merged txn per group, in order of first appearance.
   */
  function Grouped(txns: seq<FakeTxn>): (r: Result<seq<FakeTxn>, string>)
    ensures r.Failure? <==> !AllDated(Select(txns, Groupable))
  {
    var g := Select(txns, Groupable);
    if !AllDated(g) then Failure("NoMethodError: undefined method `strftime' for nil")
    else
      KeyGroupsMergeable(g, KeysInOrder(g, KeyOf));
      Success(Reject(txns, Groupable) + MergedGroups(g, KeysInOrder(g, KeyOf)))
  }

  // ---------------------------------------------------------------- lemmas

  /** The merged txns carry the group totals of the from- and to-legs. */
  lemma {:induction false} MergedTotals(g: seq<FakeTxn>, keys: seq<GroupKey>, leg: Leg)
    requires Mergeable(g, keys)
    requires leg != FeeLeg
    ensures Total(MergedGroups(g, keys), Amount(leg)) == GroupTotals(g, KeyOf, keys, Amount(leg))
  {
    if keys != [] {
      var k := keys[|keys| - 1];
      var front := keys[..|keys| - 1];
      MergedTotals(g, front, leg);
      var m := Merge(Members(g, KeyOf, k));
      MergedAmount(Members(g, KeyOf, k), leg);
      TotalAppend(MergedGroups(g, front), [m], Amount(leg));
      TotalOfOne(m, Amount(leg));
    }
  }

  /** A merged txn's from- or to-amount is the group's total of it. */
  lemma MergedAmount(members: seq<FakeTxn>, leg: Leg)
    requires |members| > 0 && AllDated(members) && leg != FeeLeg
    ensures Amount(leg)(Merge(members)) == Total(members, Amount(leg))
  {
    if leg == FromLeg {
      assert Amount(leg) == FromAmount;
    } else {
      assert Amount(leg) == ToAmount;
    }
  }

  /**
   * Grouping preserves the total from-amount and the total to-amount of
   * the txns (the fee totals are not: a merged txn keeps only its first
   * member's fee).
   */
  lemma GroupingPreservesTotals(txns: seq<FakeTxn>, leg: Leg)
    requires Grouped(txns).Success?
    requires leg != FeeLeg
    ensures Total(Grouped(txns).value, Amount(leg)) == Total(txns, Amount(leg))
  {
    var g := Select(txns, Groupable);
    var keys := KeysInOrder(g, KeyOf);
    KeyGroupsMergeable(g, keys);
    TotalAppend(Reject(txns, Groupable), MergedGroups(g, keys), Amount(leg));
    AllMergedTotal(g, leg);
    TotalSplit(txns, Groupable, Amount(leg));
  }

  /** Merging every group of dated, groupable txns keeps their from- and to-totals. */
  lemma AllMergedTotal(g: seq<FakeTxn>, leg: Leg)
    requires AllDated(g) && leg != FeeLeg
    requires forall i :: 0 <= i < |g| ==> Groupable(g[i])
    ensures Mergeable(g, KeysInOrder(g, KeyOf))
    ensures Total(MergedGroups(g, KeysInOrder(g, KeyOf)), Amount(leg)) == Total(g, Amount(leg))
  {
    var keys := KeysInOrder(g, KeyOf);
    KeyGroupsMergeable(g, keys);
    MergedTotals(g, keys, leg);
    assert forall i :: 0 <= i < |g| ==> KeyOf(g[i]).Some?;
    GroupsPartitionTotal(g, KeyOf, Amount(leg));
  }

  /** A merged txn keeps only its first member's fee: two fees of 1 in one group merge into a fee of 1. */
  lemma MergeDropsLaterFees(a: FakeTxn, b: FakeTxn)
    requires a.base.date.Some? && b.base.date.Some?
    requires FeeAmount(a) == 1.0 && FeeAmount(b) == 1.0
    ensures Total([a, b], FeeAmount) == 2.0
    ensures FeeAmount(Merge([a, b])) == 1.0
  {
    assert [a, b][..1] == [a];
    TotalOfOne(a, FeeAmount);
  }

  /** A merged txn is valid when the group's first txn is: validity reads only currencies and wallets. */
  lemma {:induction false} MergedAreValid(g: seq<FakeTxn>, keys: seq<GroupKey>, fiats: set<string>)
    requires Mergeable(g, keys)
    requires forall f :: f in g ==> ValidFake(f, fiats)
    ensures forall f :: f in MergedGroups(g, keys) ==> ValidFake(f, fiats)
  {
    if keys != [] {
      var k := keys[|keys| - 1];
      MergedAreValid(g, keys[..|keys| - 1], fiats);
      var members := Members(g, KeyOf, k);
      assert members[0] in g;
      MergeKeepsFirst(members);
    }
  }

  /** Grouping valid txns yields valid txns. */
  lemma GroupingKeepsValidity(txns: seq<FakeTxn>, fiats: set<string>)
    requires Grouped(txns).Success?
    requires forall f :: f in txns ==> ValidFake(f, fiats)
    ensures forall f :: f in Grouped(txns).value ==> ValidFake(f, fiats)
  {
    var g := Select(txns, Groupable);
    KeyGroupsMergeable(g, KeysInOrder(g, KeyOf));
    MergedAreValid(g, KeysInOrder(g, KeyOf), fiats);
  }

  /** The txns grouping leaves alone are exactly the ones that are not groupable, kept in order at the front. */
  lemma GroupingKeepsOthers(txns: seq<FakeTxn>)
    requires Grouped(txns).Success?
    ensures var r := Grouped(txns).value;
            && r[..|Reject(txns, Groupable)|] == Reject(txns, Groupable)
            && |r| == |Reject(txns, Groupable)| + |KeysInOrder(Select(txns, Groupable), KeyOf)|
  {
  }

  // ---------------------------------------------------------------- the method

  /**
   * The merge of one group, as the source computes it: the earliest and
   * latest dates, a copy of the first member, then the from- and
   * to-amounts of the other members added in order.
   */
  method MergeGroup(group: seq<FakeTxn>) returns (m: FakeTxn)
    requires |group| > 0 && AllDated(group)
    ensures m == Merge(group)
  {
    var earliest := MinDate(group);
    var latest := MaxDate(group);
    var from := group[0].base.fromAmount;
    var to := group[0].base.toAmount;
    assert group[..1][..0] == [];
    for i := 1 to |group|
      invariant from == Total(group[..i], FromAmount) && to == Total(group[..i], ToAmount)
    {
      SumStep(group, i);
      from := from + group[i].base.fromAmount;
      to := to + group[i].base.toAmount;
    }
    assert group[..|group|] == group;
    var date := if group[0].toCurrency.Some? then earliest else latest;
    m := group[0].(base := group[0].base.(date := Some(date), fromAmount := from, toAmount := to));
  }

  /** One more member summed: how the two totals of the prefix move. */
  lemma SumStep(group: seq<FakeTxn>, i: int)
    requires 1 <= i < |group|
    ensures Total(group[..i + 1], FromAmount) == Total(group[..i], FromAmount) + group[i].base.fromAmount
    ensures Total(group[..i + 1], ToAmount) == Total(group[..i], ToAmount) + group[i].base.toAmount
  {
    assert group[..i + 1][..i] == group[..i];
  }

  /** `txns.select { groupable }` and `txns - groupable`, in one pass. */
  method SplitGroupable(txns: seq<FakeTxn>) returns (groupable: seq<FakeTxn>, others: seq<FakeTxn>)
    ensures groupable == Select(txns, Groupable) && others == Reject(txns, Groupable)
  {
    groupable := [];
    others := [];
    for i := 0 to |txns|
      invariant groupable == Select(txns[..i], Groupable) && others == Reject(txns[..i], Groupable)
    {
      assert txns[..i + 1][..i] == txns[..i];
      if Groupable(txns[i]) {
        assert Select(txns[..i + 1], Groupable) == Select(txns[..i], Groupable) + [txns[i]];
        assert Reject(txns[..i + 1], Groupable) == Reject(txns[..i], Groupable);
        groupable := groupable + [txns[i]];
      } else {
        assert Select(txns[..i + 1], Groupable) == Select(txns[..i], Groupable);
        assert Reject(txns[..i + 1], Groupable) == Reject(txns[..i], Groupable) + [txns[i]];
        others := others + [txns[i]];
      }
    }
    assert txns[..|txns|] == txns;
  }

  /** The merged txn of every group, in the order of the keys. */
  method MergeAll(g: seq<FakeTxn>, keys: seq<GroupKey>, groups: map<GroupKey, seq<FakeTxn>>) returns (merged: seq<FakeTxn>)
    requires Mergeable(g, keys)
    requires forall k :: k in keys ==> k in groups && groups[k] == Members(g, KeyOf, k)
    ensures merged == MergedGroups(g, keys)
  {
    merged := [];
    for j := 0 to |keys|
      invariant merged == MergedGroups(g, keys[..j])
    {
      var m := MergeNext(g, keys, j, groups[keys[j]]);
      merged := merged + [m];
    }
    assert keys[..|keys|] == keys;
  }

  /** The merge of the group of the `j`th key, the next after the first `j` keys. */
  method MergeNext(g: seq<FakeTxn>, keys: seq<GroupKey>, j: int, group: seq<FakeTxn>) returns (m: FakeTxn)
    requires Mergeable(g, keys) && 0 <= j < |keys| && group == Members(g, KeyOf, keys[j])
    ensures Mergeable(g, keys[..j]) && Mergeable(g, keys[..j + 1])
    ensures MergedGroups(g, keys[..j + 1]) == MergedGroups(g, keys[..j]) + [m]
  {
    assert forall x :: x in keys[..j + 1] ==> x in keys;
    assert keys[..j + 1] == keys[..j] + [keys[j]];
    MergedGroupsAppend(g, keys[..j], keys[j]);
    m := MergeGroup(group);
  }

  /** One more group merged: the merges of the keys followed by one more key. */
  lemma MergedGroupsAppend(g: seq<FakeTxn>, front: seq<GroupKey>, k: GroupKey)
    requires Mergeable(g, front + [k])
    ensures Mergeable(g, front) && |Members(g, KeyOf, k)| > 0 && AllDated(Members(g, KeyOf, k))
    ensures MergedGroups(g, front + [k]) == MergedGroups(g, front) + [Merge(Members(g, KeyOf, k))]
  {
    assert (front + [k])[..|front|] == front;
  }


  /**
   * `group_transactions(txns)`: selects the groupable txns, groups them by
   * key in order of first appearance, merges each group and returns the
   * other txns followed by the merged ones.
   */
  method GroupTransactions(txns: seq<FakeTxn>) returns (r: Result<seq<FakeTxn>, string>)
    ensures r == Grouped(txns)
  {
    var groupable, others := SplitGroupable(txns);
    var keys, groups := GroupBy(groupable, KeyOf);
    assert keys.None? <==> !AllDated(groupable);
    if keys.None? {
      return Failure("NoMethodError: undefined method `strftime' for nil");
    }
    KeyGroupsMergeable(groupable, keys.value);
    var merged := MergeAll(groupable, keys.value, groups);
    return Success(others + merged);
  }
}
