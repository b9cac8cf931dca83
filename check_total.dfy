/**
 * `CheckTotal`: runs the inspectors in a fixed order on the same frame
 * result, concatenates their findings and renumbers them 1..N.  The four
 * inspectors' findings are the inputs, in the order Frame, TitleBlock,
 * OuterObject, OutlineConnectivity.
 */
module CheckTotal {
  import opened CheckResults

  /** The order-preserving concatenation of the inspectors' findings. */
  function Flatten(lists: seq<seq<CheckResult>>): (r: seq<CheckResult>)
  {
    if |lists| == 0 then [] else Flatten(lists[..|lists| - 1]) + lists[|lists| - 1]
  }

  /** The number of findings over all inspectors. */
  function TotalCount(lists: seq<seq<CheckResult>>): nat
  {
    if |lists| == 0 then 0 else TotalCount(lists[..|lists| - 1]) + |lists[|lists| - 1]|
  }

  /** The combined length is the sum of the per-inspector counts. */
  lemma {:induction false} FlattenLength(lists: seq<seq<CheckResult>>)
    ensures |Flatten(lists)| == TotalCount(lists)
  {
    if |lists| > 0 {
      FlattenLength(lists[..|lists| - 1]);
    }
  }

  /** Every finding of inspector k appears, in order, after those of the inspectors before it. */
  lemma {:induction false} FlattenPlaces(lists: seq<seq<CheckResult>>, k: nat, j: nat)
    requires k < |lists| && j < |lists[k]|
    ensures TotalCount(lists[..k]) + j < |Flatten(lists)|
    ensures Flatten(lists)[TotalCount(lists[..k]) + j] == lists[k][j]
    decreases |lists|
  {
    var init := lists[..|lists| - 1];
    FlattenLength(init);
    FlattenLength(lists);
    if k < |lists| - 1 {
      FlattenPlaces(init, k, j);
      assert init[..k] == lists[..k];
    } else {
      assert lists[..k] == init;
    }
  }

  /** `CheckTotal.inspect_doc`: concatenate, then write ordinal i+1 into the i-th finding. */
  method InspectDoc(frame: seq<CheckResult>, titleBlock: seq<CheckResult>,
                    outerObject: seq<CheckResult>, outline: seq<CheckResult>)
    returns (res: seq<CheckResult>)
    ensures res == RenumberFrom(Flatten([frame, titleBlock, outerObject, outline]), 1)
  {
    var inspectorResults := [frame, titleBlock, outerObject, outline];
    res := [];
    for k := 0 to |inspectorResults|
      invariant res == Flatten(inspectorResults[..k])
    {
      assert inspectorResults[..k + 1][..k] == inspectorResults[..k];
      var results := inspectorResults[k];
      ghost var before := res;
      for j := 0 to |results|
        invariant res == before + results[..j]
      {
        assert results[..j + 1] == results[..j] + [results[j]];
        res := res + [results[j]];
      }
      assert results[..|results|] == results;
    }
    assert inspectorResults[..|inspectorResults|] == inspectorResults;
    ghost var combined := res;
    for i := 0 to |res|
      invariant |res| == |combined|
      invariant forall m :: 0 <= m < i ==> res[m] == combined[m].(num := m + 1)
      invariant forall m :: i <= m < |res| ==> res[m] == combined[m]
    {
      res := res[i := res[i].(num := i + 1)];
    }
  }

  /**
   * The outcome of `InspectDoc`: ordinals exactly 1..N, N the sum of the
   * inspectors' counts, and finding j of inspector k at its place in the
   * concatenation with only its ordinal changed.
   */
  lemma TotalSound(lists: seq<seq<CheckResult>>, k: nat, j: nat)
    requires k < |lists| && j < |lists[k]|
    ensures var res := RenumberFrom(Flatten(lists), 1);
      |res| == TotalCount(lists) && NumberedFrom(res, 1)
      && TotalCount(lists[..k]) + j < |res|
      && res[TotalCount(lists[..k]) + j] == lists[k][j].(num := TotalCount(lists[..k]) + j + 1)
  {
    FlattenLength(lists);
    FlattenPlaces(lists, k, j);
  }
}
