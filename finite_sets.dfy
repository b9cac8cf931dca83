/** Sizes of finite sets (mostly of naturals), shared by the counting arguments. */
module FiniteSets {

  lemma SubsetTrans(a: set<nat>, b: set<nat>, c: set<nat>)
    requires a <= b && b <= c
    ensures a <= c
  {
  }

  lemma SubsetSize<T>(a: set<T>, b: set<T>)
    requires a <= b
    ensures |a| <= |b|
  {
    assert b == a + (b - a);
  }

  /** |s| <= n for a set of naturals below n. */
  lemma {:induction false} BoundedSetSize(s: set<nat>, n: nat)
    requires forall j :: j in s ==> j < n
    ensures |s| <= n
  {
    if n > 0 {
      BoundedSetSize(s - {n - 1}, n - 1);
    } else {
      assert s == {};
    }
  }

  /** The values of an injective sequence form a set of its length. */
  lemma {:induction false} InjectiveImageSize(p: seq<nat>)
    requires forall i, j :: 0 <= i < j < |p| ==> p[i] != p[j]
    ensures |set i | 0 <= i < |p| :: p[i]| == |p|
    decreases |p|
  {
    if |p| > 0 {
      var init := p[..|p| - 1];
      InjectiveImageSize(init);
      var last := p[|p| - 1];
      assert (set i | 0 <= i < |p| :: p[i]) == (set i | 0 <= i < |init| :: init[i]) + {last};
      assert last !in (set i | 0 <= i < |init| :: init[i]);
    }
  }

  /** An injective sequence of naturals below n that has length n takes every value below n. */
  lemma InjectiveOnto(p: seq<nat>, n: nat, s: nat)
    requires |p| == n && s < n && forall i :: 0 <= i < |p| ==> p[i] < n
    requires forall i, j :: 0 <= i < j < |p| ==> p[i] != p[j]
    ensures exists i :: 0 <= i < |p| && p[i] == s
  {
    if forall i :: 0 <= i < |p| ==> p[i] != s {
      var q := p + [s];
      assert forall i, j :: 0 <= i < j < |q| ==> q[i] != q[j];
      InjectiveImageSize(q);
      BoundedSetSize(set i | 0 <= i < |q| :: q[i], n);
    }
  }
}
