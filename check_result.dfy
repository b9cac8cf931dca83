/**
 * The finding record every inspector returns (`CheckResult`), with the ordinal
 * `num` that its callers set, and the renumbering that makes ordinals 1..N.
 */
module CheckResults {
  import opened Geometry

  /**
   * One finding: its ordinal, the inspection it comes from, whether it is an
   * error, where to point at (if anywhere), a short caption, a description
   * and a drawing colour.
   */
  datatype CheckResult = CheckResult(
    num: nat,
    checkType: string,
    error: bool,
    pos: Option<Point>,
    caption: string,
    desc: string,
    color: int)

  /** The colour the record uses when a caller gives none. */
  const DefaultColor: int := 7

  /** Ordinals run k, k+1, ... along the list. */
  ghost predicate NumberedFrom(rs: seq<CheckResult>, k: nat)
  {
    forall i :: 0 <= i < |rs| ==> rs[i].num == k + i
  }

  /** `rs` with ordinal k+i written into its i-th record and nothing else changed. */
  function RenumberFrom(rs: seq<CheckResult>, k: nat): (r: seq<CheckResult>)
    ensures |r| == |rs|
    ensures NumberedFrom(r, k)
    ensures forall i :: 0 <= i < |rs| ==> r[i] == rs[i].(num := k + i)
  {
    if |rs| == 0 then [] else [rs[0].(num := k)] + RenumberFrom(rs[1..], k + 1)
  }

  /** Renumbering already numbered results changes nothing. */
  lemma {:induction false} RenumberNumbered(rs: seq<CheckResult>, k: nat)
    requires NumberedFrom(rs, k)
    ensures RenumberFrom(rs, k) == rs
  {
    var r := RenumberFrom(rs, k);
    assert forall i :: 0 <= i < |rs| ==> r[i] == rs[i];
  }
}
