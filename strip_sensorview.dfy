/**
 * strip_sensorview.py: removes selected road and environment content from the
 * global ground truth of every SensorView of a trace and appends the result,
 * framed, to an output file.
 */
module StripSensorView {
  import opened Common
  import opened OsiModel
  import opened Framing

  /** The six command-line switches; each one clears one ground-truth field. */
  datatype StripFlags = StripFlags(
    laneBoundary: bool,
    referenceLine: bool,
    logicalLane: bool,
    logicalLaneBoundary: bool,
    lane: bool,
    environmentalConditions: bool)

  const NO_FLAGS := StripFlags(false, false, false, false, false, false)

  /** The ground truth with the six strippable fields cleared: the part no flag can touch. */
  function Outside(gt: GroundTruth): GroundTruth
  {
    gt.(laneBoundary := [], referenceLine := [], logicalLane := [], logicalLaneBoundary := [],
        lane := [], environmentalConditions := None)
  }

  /**
   * The message after the ClearField calls the flags select: each enabled
   * flag empties its own field, every other field keeps its value.
   */
  function Stripped(sv: SensorView, f: StripFlags): (r: SensorView)
    ensures r.globalGroundTruth.laneBoundary == if f.laneBoundary then [] else sv.globalGroundTruth.laneBoundary
    ensures r.globalGroundTruth.referenceLine == if f.referenceLine then [] else sv.globalGroundTruth.referenceLine
    ensures r.globalGroundTruth.logicalLane == if f.logicalLane then [] else sv.globalGroundTruth.logicalLane
    ensures r.globalGroundTruth.logicalLaneBoundary ==
      if f.logicalLaneBoundary then [] else sv.globalGroundTruth.logicalLaneBoundary
    ensures r.globalGroundTruth.lane == if f.lane then [] else sv.globalGroundTruth.lane
    ensures r.globalGroundTruth.environmentalConditions ==
      if f.environmentalConditions then None else sv.globalGroundTruth.environmentalConditions
  {
    var g := sv.globalGroundTruth;
    sv.(globalGroundTruth := g.(
      laneBoundary := if f.laneBoundary then [] else g.laneBoundary,
      referenceLine := if f.referenceLine then [] else g.referenceLine,
      logicalLane := if f.logicalLane then [] else g.logicalLane,
      logicalLaneBoundary := if f.logicalLaneBoundary then [] else g.logicalLaneBoundary,
      lane := if f.lane then [] else g.lane,
      environmentalConditions := if f.environmentalConditions then None else g.environmentalConditions))
  }

  /** Everything outside the six strippable fields is left as it was, whatever the flags. */
  lemma StrippedKeepsOutside(sv: SensorView, f: StripFlags)
    ensures var r := Stripped(sv, f);
      r.(globalGroundTruth := Outside(r.globalGroundTruth)) == sv.(globalGroundTruth := Outside(sv.globalGroundTruth))
  {
  }

  /** Stripping an already stripped message with the same flags changes nothing. */
  lemma StrippedIdempotent(sv: SensorView, f: StripFlags)
    ensures Stripped(Stripped(sv, f), f) == Stripped(sv, f)
  {
  }

  /** With every flag off the message is passed through unchanged. */
  lemma StrippedNoFlags(sv: SensorView)
    ensures Stripped(sv, NO_FLAGS) == sv
  {
  }

  /** The payloads strip writes: each input message stripped and serialised. */
  function StrippedPayloads(svs: seq<SensorView>, f: StripFlags, serialize: Message -> Bytes): (ps: seq<Bytes>)
    ensures |ps| == |svs|
    ensures forall i :: 0 <= i < |svs| ==> ps[i] == serialize(SV(Stripped(svs[i], f)))
  {
    seq(|svs|, i requires 0 <= i < |svs| => serialize(SV(Stripped(svs[i], f))))
  }

  /** The in-place ClearField calls of one loop iteration, in the source's order. */
  method ClearFields(sv: SensorView, f: StripFlags) returns (message: SensorView)
    ensures message == Stripped(sv, f)
  {
    message := sv;
    if f.laneBoundary {
      message := message.(globalGroundTruth := message.globalGroundTruth.(laneBoundary := []));
    }
    if f.referenceLine {
      message := message.(globalGroundTruth := message.globalGroundTruth.(referenceLine := []));
    }
    if f.logicalLane {
      message := message.(globalGroundTruth := message.globalGroundTruth.(logicalLane := []));
    }
    if f.logicalLaneBoundary {
      message := message.(globalGroundTruth := message.globalGroundTruth.(logicalLaneBoundary := []));
    }
    if f.lane {
      message := message.(globalGroundTruth := message.globalGroundTruth.(lane := []));
    }
    if f.environmentalConditions {
      message := message.(globalGroundTruth := message.globalGroundTruth.(environmentalConditions := None));
    }
  }

  /**
   * strip: for each message, clear the selected fields, serialise it and
   * append one record to the file opened in append mode.  A payload too long
   * for the length prefix aborts the run with the records before it already
   * written.
   */
  method Strip(svs: seq<SensorView>, f: StripFlags, out: OutputFile, serialize: Message -> Bytes)
    returns (r: Result<()>)
    modifies out
    ensures var ps := StrippedPayloads(svs, f, serialize);
      r.Ok? <==> AllFit(ps)
    ensures var ps := StrippedPayloads(svs, f, serialize);
      r.Ok? ==> out.content == old(out.content) + Framed(ps)
    ensures var ps := StrippedPayloads(svs, f, serialize);
      r.Err? ==>
        r.error == StructError &&
        exists k :: 0 <= k < |ps| && !Fits(ps[k]) && AllFit(ps[..k]) &&
          out.content == old(out.content) + Framed(ps[..k])
  {
    ghost var ps := StrippedPayloads(svs, f, serialize);
    var i := 0;
    while i < |svs|
      invariant 0 <= i <= |svs|
      invariant AllFit(ps[..i])
      invariant out.content == old(out.content) + Framed(ps[..i])
    {
      var message := ClearFields(svs[i], f);
      var buffer := serialize(SV(message));
      assert buffer == ps[i];
      var written := AppendRecord(out, old(out.content), ps[..i], buffer);
      if written.Err? {
        return Err(written.error);
      }
      assert ps[..i + 1] == ps[..i] + [buffer];
      i := i + 1;
    }
    assert ps[..i] == ps;
    return Ok(());
  }
}
