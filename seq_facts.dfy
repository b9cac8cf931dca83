/**
 * Small facts about sequences and multisets that the loop and induction
 * proofs of the inspectors call on, stated once for any element type so that
 * they are proved without the elements' own definitions in view.
 */
module SeqFacts {

  lemma ConcatAssoc<T>(a: seq<T>, b: seq<T>, c: seq<T>)
    ensures (a + b) + c == a + (b + c)
  {
  }

  /** A prefix one longer is the prefix and the next element. */
  lemma SliceStep<T>(s: seq<T>, i: nat)
    requires i < |s|
    ensures s[..i + 1] == s[..i] + [s[i]]
  {
  }

  /** The prefix one longer, seen from its end. */
  lemma PrefixStep<T>(s: seq<T>, i: nat)
    requires i < |s|
    ensures s[..i + 1][..i] == s[..i] && s[..i + 1][i] == s[i]
  {
  }

  /** A suffix starts with its first element and goes on with the next suffix. */
  lemma DropOne<T>(s: seq<T>, i: nat)
    requires i < |s|
    ensures s[i..][0] == s[i] && s[i..][1..] == s[i + 1..]
  {
  }

  /** The last element of a concatenation with a non-empty right part. */
  lemma AppendLast<T>(a: seq<T>, b: seq<T>)
    requires |b| > 0
    ensures (a + b)[..|a + b| - 1] == a + b[..|b| - 1]
    ensures (a + b)[|a + b| - 1] == b[|b| - 1]
  {
    assert a + b == (a + b[..|b| - 1]) + [b[|b| - 1]];
  }

  /** A sequence that starts with `p + q` continues after `p` with `q`. */
  lemma SliceAfter<T>(r: seq<T>, p: seq<T>, q: seq<T>)
    requires |p + q| <= |r| && r[..|p + q|] == p + q
    ensures r[|p|..] == q + r[|p + q|..]
  {
    assert forall i :: 0 <= i < |q| ==> r[|p|..][i] == (p + q)[|p| + i];
  }

  /** The multiset of a non-empty sequence: that of all but the last, and the last. */
  lemma MultisetLast<T>(s: seq<T>)
    requires |s| > 0
    ensures multiset(s) == multiset(s[..|s| - 1]) + multiset{s[|s| - 1]}
  {
    assert s == s[..|s| - 1] + [s[|s| - 1]];
  }

  lemma PartOfSum<T>(a: multiset<T>, b: multiset<T>, c: multiset<T>)
    requires a + b == c
    ensures a <= c
  {
  }

  lemma InLeft<T>(a: seq<T>, b: seq<T>, x: T)
    requires x in a
    ensures x in a + b
  {
  }

  lemma InRight<T>(a: seq<T>, b: seq<T>, x: T)
    requires x in b
    ensures x in a + b
  {
  }

  /** The rows row(0), ..., row(n - 1), one after the other. */
  function Rows<T>(row: nat -> seq<T>, n: nat): seq<T>
  {
    if n == 0 then [] else Rows(row, n - 1) + row(n - 1)
  }

  lemma RowsNext<T>(row: nat -> seq<T>, n: nat)
    ensures Rows(row, n + 1) == Rows(row, n) + row(n)
  {
  }

  /** Every element of the rows comes from one of them. */
  lemma {:induction false} RowsSound<T>(row: nat -> seq<T>, n: nat, x: T) returns (i: nat)
    requires x in Rows(row, n)
    ensures i < n && x in row(i)
  {
    if x in row(n - 1) {
      i := n - 1;
    } else {
      i := RowsSound(row, n - 1, x);
    }
  }

  /** Every element of one of the rows is among them. */
  lemma {:induction false} RowsComplete<T>(row: nat -> seq<T>, n: nat, i: nat, x: T)
    requires i < n && x in row(i)
    ensures x in Rows(row, n)
  {
    if i < n - 1 {
      RowsComplete(row, n - 1, i, x);
    }
  }

  /** Membership in six concatenated sequences is membership in one of them. */
  lemma InSix<T>(a: seq<T>, b: seq<T>, c: seq<T>, d: seq<T>, e: seq<T>, f: seq<T>, x: T)
    ensures x in a + b + c + d + e + f <==> x in a || x in b || x in c || x in d || x in e || x in f
  {
  }

  /** Membership in the concatenation of f over six keys is membership in f of one of the keys. */
  lemma InSixOf<K, T>(ks: seq<K>, f: K -> seq<T>, x: T)
    requires |ks| == 6
    ensures x in f(ks[0]) + f(ks[1]) + f(ks[2]) + f(ks[3]) + f(ks[4]) + f(ks[5]) <==> exists k :: k in ks && x in f(k)
  {
    InSix(f(ks[0]), f(ks[1]), f(ks[2]), f(ks[3]), f(ks[4]), f(ks[5]), x);
    if exists k :: k in ks && x in f(k) {
      var k :| k in ks && x in f(k);
      var i :| 0 <= i < 6 && ks[i] == k;
      assert i == 0 || i == 1 || i == 2 || i == 3 || i == 4 || i == 5;
    }
  }
}
