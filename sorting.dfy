/**
 * Python's `sorted(xs, key=...)` for the two-level keys the inspectors use:
 * a stable sort on a (primary, secondary) pair of reals compared
 * lexicographically.  A one-level key is a pair whose second part is 0, and
 * `reverse=True` on a numeric key is the negated key (Python's reverse sort is
 * stable too).
 */
module Sorting {

  datatype Key = Key(primary: real, secondary: real)

  /** Strict lexicographic order on keys. */
  predicate KeyLt(a: Key, b: Key)
  {
    a.primary < b.primary || (a.primary == b.primary && a.secondary < b.secondary)
  }

  ghost predicate SortedBy<T>(s: seq<T>, key: T -> Key)
  {
    forall i, j :: 0 <= i < j < |s| ==> !KeyLt(key(s[j]), key(s[i]))
  }

  /** Insert `x` in front of the first element whose key is not smaller than x's. */
  function InsertBy<T>(x: T, s: seq<T>, key: T -> Key): (r: seq<T>)
    ensures multiset(r) == multiset(s) + multiset{x}
    ensures |r| == |s| + 1
  {
    if |s| == 0 || !KeyLt(key(s[0]), key(x)) then [x] + s
    else
      assert s == [s[0]] + s[1..];
      [s[0]] + InsertBy(x, s[1..], key)
  }

  /**
   * The stable sort: each element goes in front of the later elements with an
   * equal key, so equal keys keep their input order.
   */
  function SortBy<T>(s: seq<T>, key: T -> Key): (r: seq<T>)
    ensures multiset(r) == multiset(s)
    ensures |r| == |s|
  {
    if |s| == 0 then []
    else
      assert s == [s[0]] + s[1..];
      InsertBy(s[0], SortBy(s[1..], key), key)
  }

  lemma {:induction false} InsertSorted<T>(x: T, s: seq<T>, key: T -> Key)
    requires SortedBy(s, key)
    ensures SortedBy(InsertBy(x, s, key), key)
  {
    if |s| == 0 || !KeyLt(key(s[0]), key(x)) {
    } else {
      InsertSorted(x, s[1..], key);
      var t := InsertBy(x, s[1..], key);
      assert forall k :: 0 <= k < |t| ==> t[k] in multiset(s[1..]) + multiset{x};
      forall k | 0 <= k < |t| ensures !KeyLt(key(t[k]), key(s[0])) {
        if t[k] == x {
        } else {
          assert t[k] in multiset(s[1..]);
          var m :| 0 <= m < |s[1..]| && s[1..][m] == t[k];
          assert s[m + 1] == t[k];
        }
      }
    }
  }

  /** The result of SortBy is sorted (and, by its contract, a permutation of the input). */
  lemma {:induction false} SortBySorted<T>(s: seq<T>, key: T -> Key)
    ensures SortedBy(SortBy(s, key), key)
  {
    if |s| > 0 {
      SortBySorted(s[1..], key);
      InsertSorted(s[0], SortBy(s[1..], key), key);
    }
  }

  /** Sorting keeps the elements: x occurs in the result exactly when it occurs in the input. */
  lemma SortByMembers<T>(s: seq<T>, key: T -> Key, x: T)
    ensures x in SortBy(s, key) <==> x in s
  {
    assert x in SortBy(s, key) <==> x in multiset(SortBy(s, key));
    assert x in s <==> x in multiset(s);
  }
}
