/**
 * Ruby's `String#<=>` (lexicographic on character codes, a proper prefix
 * first) and the sorted key list that `Hash#sort.to_h` produces for a
 * hash with string keys.
 */
module StringOrder {

  /** `a < b` as Ruby compares strings. */
  predicate Less(a: string, b: string)
    decreases |a|
  {
    if a == [] then b != []
    else b != [] && (a[0] < b[0] || (a[0] == b[0] && Less(a[1..], b[1..])))
  }

  lemma {:induction false} LessIrreflexive(a: string)
    ensures !Less(a, a)
    decreases |a|
  {
    if a != [] {
      LessIrreflexive(a[1..]);
    }
  }

  lemma {:induction false} LessAsymmetric(a: string, b: string)
    requires Less(a, b)
    ensures !Less(b, a)
    decreases |a|
  {
    if a != [] && a[0] == b[0] {
      LessAsymmetric(a[1..], b[1..]);
    }
  }

  lemma {:induction false} LessTotal(a: string, b: string)
    ensures a == b || Less(a, b) || Less(b, a)
    decreases |a|
  {
    if a != [] && b != [] && a[0] == b[0] {
      LessTotal(a[1..], b[1..]);
      if a[1..] == b[1..] {
        assert a == [a[0]] + a[1..] && b == [b[0]] + b[1..];
      }
    }
  }

  lemma {:induction false} LessTransitive(a: string, b: string, c: string)
    requires Less(a, b) && Less(b, c)
    ensures Less(a, c)
    decreases |a|
  {
    if a != [] && a[0] == b[0] && b[0] == c[0] {
      LessTransitive(a[1..], b[1..], c[1..]);
    }
  }

  /** Strictly increasing, pair by pair. */
  predicate StrictlySorted(s: seq<string>) {
    forall i :: 0 <= i < |s| - 1 ==> Less(s[i], s[i + 1])
  }

  /** Pairwise increase of a strictly sorted list; in particular it has no duplicates. */
  lemma {:induction false} StrictlySortedIncreases(s: seq<string>, i: int, j: int)
    requires StrictlySorted(s)
    requires 0 <= i < j < |s|
    ensures Less(s[i], s[j]) && s[i] != s[j]
    decreases j - i
  {
    if j > i + 1 {
      StrictlySortedIncreases(s, i + 1, j);
      LessTransitive(s[i], s[i + 1], s[j]);
    }
    LessIrreflexive(s[i]);
  }

  /** Every non-empty finite set of strings has a least element. */
  lemma {:induction false} HasLeast(s: set<string>)
    requires s != {}
    ensures exists m :: m in s && forall x :: x in s && x != m ==> Less(m, x)
    decreases |s|
  {
    var y :| y in s;
    if s != {y} {
      HasLeast(s - {y});
      var m :| m in s - {y} && forall x :: x in s - {y} && x != m ==> Less(m, x);
      LessTotal(m, y);
      if Less(y, m) {
        forall x | x in s && x != y
          ensures Less(y, x)
        {
          if x != m {
            LessTransitive(y, m, x);
          }
        }
      }
    }
  }

  /** The least element of a non-empty set of strings. */
  function Least(s: set<string>): (m: string)
    requires s != {}
    ensures m in s && forall x :: x in s && x != m ==> Less(m, x)
  {
    HasLeast(s);
    var m :| m in s && forall x :: x in s && x != m ==> Less(m, x);
    assert forall m' :: m' in s && (forall x :: x in s && x != m' ==> Less(m', x)) ==> m' == m by {
      forall m' | m' in s && (forall x :: x in s && x != m' ==> Less(m', x))
        ensures m' == m
      {
        if m' != m {
          LessAsymmetric(m, m');
        }
      }
    }
    m
  }

  /** The keys of a string-keyed hash in the order `sort` gives them. */
  function SortedKeys(s: set<string>): (r: seq<string>)
    ensures StrictlySorted(r)
    ensures forall k :: k in r <==> k in s
    ensures |r| == |s|
    decreases |s|
  {
    if s == {} then []
    else
      var m := Least(s);
      var rest := SortedKeys(s - {m});
      assert rest != [] ==> Less(m, rest[0]) by {
        if rest != [] {
          assert rest[0] in s - {m};
        }
      }
      [m] + rest
  }
}
