/**
 * The `Enumerable` operations the snapshot formatter uses: `select`,
 * `reject`, `map` with a block that may raise, and `group_by` over a key
 * that may be missing (the distinct keys in order of first appearance and
 * each key's members in order), with the fact that the groups partition
 * every total.
 */
module Enumerables {
  import opened Wrappers

  /** The distinct present keys of `g`, in order of first appearance. */
  function KeysInOrder<T, K(==,!new)>(g: seq<T>, key: T -> Option<K>): (r: seq<K>)
    ensures forall i, j :: 0 <= i < j < |r| ==> r[i] != r[j]
    ensures forall k :: k in r <==> exists i :: 0 <= i < |g| && key(g[i]) == Some(k)
  {
    if g == [] then []
    else
      var front := KeysInOrder(g[..|g| - 1], key);
      var k := key(g[|g| - 1]);
      assert forall i :: 0 <= i < |g| - 1 ==> g[..|g| - 1][i] == g[i];
      if k.None? || k.value in front then front else front + [k.value]
  }

  /** The keys come in order of first appearance: a later key never occurs before an earlier one has. */
  lemma KeysInFirstAppearanceOrder<T, K(!new)>(g: seq<T>, key: T -> Option<K>)
    ensures var r := KeysInOrder(g, key);
            forall i, j :: 0 <= i < j < |r| ==> Precedes(g, key, r[i], r[j])
  {
    var r := KeysInOrder(g, key);
    forall i, j | 0 <= i < j < |r|
      ensures Precedes(g, key, r[i], r[j])
    {
      KeyPairOrder(g, key, i, j);
    }
  }

  lemma {:induction false} KeyPairOrder<T, K(!new)>(g: seq<T>, key: T -> Option<K>, i: nat, j: nat)
    requires i < j < |KeysInOrder(g, key)|
    ensures var r := KeysInOrder(g, key);
            Precedes(g, key, r[i], r[j])
  {
    var front := g[..|g| - 1];
    var keys := KeysInOrder(front, key);
    var k := key(g[|g| - 1]);
    var r := KeysInOrder(g, key);
    assert forall a :: 0 <= a < |front| ==> front[a] == g[a];
    if j < |keys| {
      KeyPairOrder(front, key, i, j);
      assert r[i] == keys[i] && r[j] == keys[j];
      assert keys[j] in keys;
      PrecedesExtend(g, key, keys[i], keys[j]);
    } else {
      assert k.Some? && k.value !in keys && r == keys + [k.value];
      assert keys[i] in keys;
      PrecedesNewKey(g, key, keys[i], k.value);
    }
  }

  /** Key `k2` never occurs in `g` before `k1` has: `k1`'s first appearance comes first. */
  predicate Precedes<T, K(==)>(g: seq<T>, key: T -> Option<K>, k1: K, k2: K) {
    forall b :: 0 <= b < |g| && key(g[b]) == Some(k2) ==> exists a :: 0 <= a < b && key(g[a]) == Some(k1)
  }

  lemma PrecedesExtend<T, K>(g: seq<T>, key: T -> Option<K>, k1: K, k2: K)
    requires g != [] && Precedes(g[..|g| - 1], key, k1, k2)
    requires exists i :: 0 <= i < |g| - 1 && key(g[i]) == Some(k2)
    ensures Precedes(g, key, k1, k2)
  {
    var front := g[..|g| - 1];
    assert forall i :: 0 <= i < |front| ==> front[i] == g[i];
    forall b | 0 <= b < |g| && key(g[b]) == Some(k2)
      ensures exists a :: 0 <= a < b && key(g[a]) == Some(k1)
    {
      var c :| 0 <= c < |g| - 1 && key(g[c]) == Some(k2);
      var a :| 0 <= a < c && key(front[a]) == Some(k1);
      if b < |g| - 1 {
        var a' :| 0 <= a' < b && key(front[a']) == Some(k1);
        assert key(g[a']) == Some(k1);
      } else {
        assert key(g[a]) == Some(k1);
      }
    }
  }

  lemma PrecedesNewKey<T, K>(g: seq<T>, key: T -> Option<K>, k1: K, k2: K)
    requires g != [] && key(g[|g| - 1]) == Some(k2)
    requires forall i :: 0 <= i < |g| - 1 ==> key(g[i]) != Some(k2)
    requires exists i :: 0 <= i < |g| - 1 && key(g[i]) == Some(k1)
    ensures Precedes(g, key, k1, k2)
  {
  }

  /** The members of group `k`, in order: exactly the elements `select` keeps for that key. */
  function Members<T(!new), K(==,!new)>(g: seq<T>, key: T -> Option<K>, k: K): (r: seq<T>)
    ensures forall i :: 0 <= i < |r| ==> key(r[i]) == Some(k)
    ensures forall x :: x in r ==> x in g
  {
    if g == [] then []
    else
      var front := Members(g[..|g| - 1], key, k);
      if key(g[|g| - 1]) == Some(k) then front + [g[|g| - 1]] else front
  }

  /** `select`: the elements satisfying `p`, in order, each as often as in `s`. */
  function Select<T(!new)>(s: seq<T>, p: T -> bool): (r: seq<T>)
    ensures |r| <= |s|
    ensures forall i :: 0 <= i < |r| ==> p(r[i])
    ensures forall x :: x in r <==> x in s && p(x)
  {
    if s == [] then []
    else Select(s[..|s| - 1], p) + (if p(s[|s| - 1]) then [s[|s| - 1]] else [])
  }

  /** `reject`: the elements not satisfying `p`, in order, each as often as in `s`. */
  function Reject<T(!new)>(s: seq<T>, p: T -> bool): (r: seq<T>)
    ensures |r| <= |s|
    ensures forall i :: 0 <= i < |r| ==> !p(r[i])
    ensures forall x :: x in r <==> x in s && !p(x)
  {
    if s == [] then []
    else Reject(s[..|s| - 1], p) + (if p(s[|s| - 1]) then [] else [s[|s| - 1]])
  }

  /** `select` keeps the order of its input: it works piece by piece. */
  lemma {:induction false} SelectAppend<T(!new)>(a: seq<T>, b: seq<T>, p: T -> bool)
    ensures Select(a + b, p) == Select(a, p) + Select(b, p)
    decreases |b|
  {
    if b == [] {
      assert a + b == a;
    } else {
      var b' := b[..|b| - 1];
      assert (a + b)[..|a + b| - 1] == a + b';
      assert (a + b)[|a + b| - 1] == b[|b| - 1];
      SelectAppend(a, b', p);
    }
  }

  /** `reject` keeps the order of its input: it works piece by piece. */
  lemma {:induction false} RejectAppend<T(!new)>(a: seq<T>, b: seq<T>, p: T -> bool)
    ensures Reject(a + b, p) == Reject(a, p) + Reject(b, p)
    decreases |b|
  {
    if b == [] {
      assert a + b == a;
    } else {
      var b' := b[..|b| - 1];
      assert (a + b)[..|a + b| - 1] == a + b';
      assert (a + b)[|a + b| - 1] == b[|b| - 1];
      RejectAppend(a, b', p);
    }
  }

  /** `select` keeps every element satisfying the block as often as it occurs, and no other. */
  lemma {:induction false} SelectCount<T(!new)>(s: seq<T>, p: T -> bool, x: T)
    ensures multiset(Select(s, p))[x] == if p(x) then multiset(s)[x] else 0
  {
    if s != [] {
      var front := s[..|s| - 1];
      assert s == front + [s[|s| - 1]];
      SelectCount(front, p, x);
    }
  }

  /** `reject` keeps every element failing the block as often as it occurs, and no other. */
  lemma {:induction false} RejectCount<T(!new)>(s: seq<T>, p: T -> bool, x: T)
    ensures multiset(Reject(s, p))[x] == if p(x) then 0 else multiset(s)[x]
  {
    if s != [] {
      var front := s[..|s| - 1];
      assert s == front + [s[|s| - 1]];
      RejectCount(front, p, x);
    }
  }

  /** A group's members are exactly what `select` keeps for its key: all of them, in order. */
  lemma {:induction false} MembersAreSelected<T(!new), K(!new)>(g: seq<T>, key: T -> Option<K>, k: K)
    ensures Members(g, key, k) == Select(g, x => key(x) == Some(k))
  {
    if g != [] {
      MembersAreSelected(g[..|g| - 1], key, k);
    }
  }

  /** `select` of one element keeps it iff it satisfies the block. */
  lemma SelectOne<T(!new)>(x: T, p: T -> bool)
    ensures Select([x], p) == if p(x) then [x] else []
  {
    assert [x][..0] == [];
  }

  /** `reject` is `select` of the negated block. */
  lemma {:induction false} RejectIsSelectNot<T(!new)>(s: seq<T>, p: T -> bool)
    ensures Reject(s, p) == Select(s, x => !p(x))
  {
    if s != [] {
      RejectIsSelectNot(s[..|s| - 1], p);
    }
  }

  /** `map` with a block that may raise: every result in order, or the first failure. */
  function MapAll<A, B>(xs: seq<A>, f: A -> Result<B, string>): (r: Result<seq<B>, string>)
    ensures r.Failure? <==> exists i :: 0 <= i < |xs| && f(xs[i]).Failure?
    ensures r.Success? ==> |r.value| == |xs| && forall i :: 0 <= i < |xs| ==> f(xs[i]) == Success(r.value[i])
  {
    if xs == [] then Success([])
    else
      var front := xs[..|xs| - 1];
      assert forall i :: 0 <= i < |front| ==> front[i] == xs[i];
      match MapAll(front, f)
      case Failure(e) => Failure(e)
      case Success(ys) =>
        match f(xs[|xs| - 1])
        case Failure(e) => Failure(e)
        case Success(y) => Success(ys + [y])
  }

  /** The total of `amt` over a list. */
  function Total<T>(s: seq<T>, amt: T -> real): real {
    if s == [] then 0.0 else Total(s[..|s| - 1], amt) + amt(s[|s| - 1])
  }

  /** The total of `amt` over the groups `keys`: the sum of the group totals. */
  function GroupTotals<T(!new), K(==,!new)>(g: seq<T>, key: T -> Option<K>, keys: seq<K>, amt: T -> real): real {
    if keys == [] then 0.0
    else GroupTotals(g, key, keys[..|keys| - 1], amt) + Total(Members(g, key, keys[|keys| - 1]), amt)
  }

  // ---------------------------------------------------------------- lemmas

  lemma TotalOfOne<T>(x: T, amt: T -> real)
    ensures Total([x], amt) == amt(x)
  {
    assert [x][..0] == [];
  }

  lemma {:induction false} TotalAppend<T>(a: seq<T>, b: seq<T>, amt: T -> real)
    ensures Total(a + b, amt) == Total(a, amt) + Total(b, amt)
    decreases |b|
  {
    if b == [] {
      assert a + b == a;
    } else {
      assert (a + b)[..|a + b| - 1] == a + b[..|b| - 1];
      TotalAppend(a, b[..|b| - 1], amt);
    }
  }

  /** Splitting a list by a predicate splits every total. */
  lemma {:induction false} TotalSplit<T(!new)>(s: seq<T>, p: T -> bool, amt: T -> real)
    ensures Total(s, amt) == Total(Select(s, p), amt) + Total(Reject(s, p), amt)
  {
    if s != [] {
      var front := s[..|s| - 1];
      var last := s[|s| - 1];
      TotalSplit(front, p, amt);
      TotalOfOne(last, amt);
      if p(last) {
        assert Select(s, p) == Select(front, p) + [last];
        assert Reject(s, p) == Reject(front, p);
        TotalAppend(Select(front, p), [last], amt);
      } else {
        assert Select(s, p) == Select(front, p);
        assert Reject(s, p) == Reject(front, p) + [last];
        TotalAppend(Reject(front, p), [last], amt);
      }
    }
  }

  /** Every key that occurs names a non-empty group. */
  lemma {:induction false} MembersNonEmpty<T(!new), K(!new)>(g: seq<T>, key: T -> Option<K>, k: K)
    requires k in KeysInOrder(g, key)
    ensures |Members(g, key, k)| > 0
  {
    var front := g[..|g| - 1];
    if key(g[|g| - 1]) != Some(k) {
      var i :| 0 <= i < |g| && key(g[i]) == Some(k);
      assert i < |g| - 1 && front[i] == g[i];
      MembersNonEmpty(front, key, k);
    }
  }

  /** A key that does not occur names an empty group. */
  lemma {:induction false} MembersOfAbsentKey<T(!new), K(!new)>(g: seq<T>, key: T -> Option<K>, k: K)
    requires k !in KeysInOrder(g, key)
    ensures Members(g, key, k) == []
  {
    if g != [] {
      var front := g[..|g| - 1];
      assert forall i :: 0 <= i < |front| ==> front[i] == g[i];
      MembersOfAbsentKey(front, key, k);
    }
  }

  /** Appending one keyed element adds its amount to the total of the one group (among distinct keys) it joins. */
  lemma {:induction false} GroupTotalsStep<T(!new), K(!new)>(p: seq<T>, t: T, key: T -> Option<K>, keys: seq<K>, amt: T -> real)
    requires key(t).Some?
    requires forall i, j :: 0 <= i < j < |keys| ==> keys[i] != keys[j]
    ensures GroupTotals(p + [t], key, keys, amt)
            == GroupTotals(p, key, keys, amt) + (if key(t).value in keys then amt(t) else 0.0)
  {
    var g := p + [t];
    assert g[..|g| - 1] == p;
    if keys != [] {
      var front := keys[..|keys| - 1];
      var k := keys[|keys| - 1];
      GroupTotalsStep(p, t, key, front, amt);
      if key(t) == Some(k) {
        assert Members(g, key, k) == Members(p, key, k) + [t];
        TotalAppend(Members(p, key, k), [t], amt);
        TotalOfOne(t, amt);
        assert k !in front;
      } else {
        assert Members(g, key, k) == Members(p, key, k);
        assert key(t).value in keys <==> key(t).value in front;
      }
    }
  }

  /** When every element has a key, the group totals over all keys are the list's total. */
  lemma {:induction false} GroupsPartitionTotal<T(!new), K(!new)>(g: seq<T>, key: T -> Option<K>, amt: T -> real)
    requires forall i :: 0 <= i < |g| ==> key(g[i]).Some?
    ensures GroupTotals(g, key, KeysInOrder(g, key), amt) == Total(g, amt)
  {
    if g != [] {
      var p := g[..|g| - 1];
      var t := g[|g| - 1];
      assert g == p + [t];
      assert forall i :: 0 <= i < |p| ==> p[i] == g[i];
      var keys := KeysInOrder(p, key);
      GroupsPartitionTotal(p, key, amt);
      GroupTotalsStep(p, t, key, keys, amt);
      var k := key(t).value;
      if k !in keys {
        assert KeysInOrder(g, key) == keys + [k];
        assert (keys + [k])[..|keys|] == keys;
        MembersOfAbsentKey(p, key, k);
        assert Members(g, key, k) == [t];
        TotalOfOne(t, amt);
      }
    }
  }

  // ---------------------------------------------------------------- the method

  /**
   * `group_by`: the keys in order of first appearance and each key's
   * members, collected in one pass; none at the first element without a key.
   */
  method GroupBy<T(!new), K(==,!new)>(g: seq<T>, key: T -> Option<K>) returns (keys: Option<seq<K>>, groups: map<K, seq<T>>)
    ensures keys.None? <==> exists i :: 0 <= i < |g| && key(g[i]).None?
    ensures keys.Some? ==> && keys.value == KeysInOrder(g, key)
                           && (forall k :: k in keys.value <==> k in groups)
                           && (forall k :: k in groups ==> groups[k] == Members(g, key, k))
  {
    var ks: seq<K> := [];
    groups := map[];
    for i := 0 to |g|
      invariant forall j :: 0 <= j < i ==> key(g[j]).Some?
      invariant ks == KeysInOrder(g[..i], key)
      invariant forall k :: k in groups <==> k in ks
      invariant forall k :: k in groups ==> groups[k] == Members(g[..i], key, k)
    {
      assert g[..i + 1][..i] == g[..i];
      var k := key(g[i]);
      if k.None? {
        return None, groups;
      }
      if k.value in groups {
        groups := groups[k.value := groups[k.value] + [g[i]]];
      } else {
        MembersOfAbsentKey(g[..i], key, k.value);
        groups := groups[k.value := [g[i]]];
      }
      ks := if k.value in ks then ks else ks + [k.value];
    }
    assert g[..|g|] == g;
    return Some(ks), groups;
  }
}
