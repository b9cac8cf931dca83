/**
 * `CheckFrame`: the inspector that reports the outline frame found by the
 * frame extractor, as exactly one finding.
 */
module CheckFrame {
  import opened Geometry
  import opened CheckResults
  import opened Entities
  import opened FrameExtractor

  const InspectName: string := "輪郭線表示"
  const FrameColor: int := 1
  const NoFrameCaption: string := "輪郭線なし"
  const LayerCaption: string := "輪郭線のレイヤーがおかしい"
  const LayerDesc: string := "輪郭線を構成するレイヤーが一つではありません"
  const FoundCaption: string := "輪郭線が存在しました"

  /**
   * `CheckFrame.inspect_doc`: no frame points, the layer-error message, or a
   * frame; the rectangle drawn in the last two cases is not modelled.
   */
  function InspectDoc(fr: FrameResult): (results: seq<CheckResult>)
    ensures |results| == 1
    ensures results[0].num == 1 && results[0].pos.None? && results[0].color == FrameColor
    ensures results[0].checkType == InspectName
    ensures |fr.framePoint| == 0 ==> results[0].error && results[0].desc == fr.message
    ensures |fr.framePoint| != 0 && fr.message == LayerErrorMsg ==> results[0].error && results[0].caption == LayerCaption
    ensures results[0].error <==> |fr.framePoint| == 0 || fr.message == LayerErrorMsg
  {
    if |fr.framePoint| == 0 then
      [CheckResult(1, InspectName, true, None, NoFrameCaption, fr.message, FrameColor)]
    else if fr.message == LayerErrorMsg then
      [CheckResult(1, InspectName, true, None, LayerCaption, LayerDesc, FrameColor)]
    else
      [CheckResult(1, InspectName, false, None, FoundCaption, FoundCaption, FrameColor)]
  }

  /**
   * On a drawing, the frame check passes exactly when the union of all
   * layers has a frame and some single layer has one too.
   */
  lemma VerdictOnDrawing(lib: Lib, d: Drawing)
    requires FrameOf(lib, d).Some?
    ensures var lss := LayerLines(lib, d.entities, d.layers);
      var fs, all := Fields(lib, lss), Cursory(lib, Concat(lss));
      !InspectDoc(FrameOf(lib, d).value)[0].error <==>
        all.hasFrame && exists k :: 0 <= k < |fs| && fs[k].hasFrame
  {
    var lss := LayerLines(lib, d.entities, d.layers);
    var fs, all := Fields(lib, lss), Cursory(lib, Concat(lss));
    DecideSound(lib, lss);
    assert FoundMsg != LayerErrorMsg;
  }
}
