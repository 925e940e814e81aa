/**
 * esminigt2sv.py: turns the GroundTruth trace exported by esmini into a
 * SensorView trace.  Every frame gets the current interface version, host
 * vehicle id 1 and moving-object ids 1..n, and is wrapped in a SensorView that
 * is appended, framed, to the output file.
 */
module EsminiGt2Sv {
  import opened Common
  import opened Timestamps
  import opened OsiModel
  import opened Framing

  /** The host vehicle id every rewritten frame gets. */
  const HOST_VEHICLE_ID: nat := 1

  /** The moving objects numbered 1, 2, ..., n in their existing order, nothing else changed. */
  function Renumbered(mos: seq<MovingObject>): (r: seq<MovingObject>)
    ensures |r| == |mos|
    ensures forall i :: 0 <= i < |mos| ==> r[i].id == i + 1 && r[i].(id := mos[i].id) == mos[i]
  {
    seq(|mos|, i requires 0 <= i < |mos| => mos[i].(id := i + 1))
  }

  /** The loop over gt_msg.moving_object with its running id counter. */
  method RenumberMovingObjects(mos: seq<MovingObject>) returns (r: seq<MovingObject>)
    ensures r == Renumbered(mos)
  {
    r := mos;
    var id := 1;
    var i := 0;
    while i < |r|
      invariant 0 <= i <= |r| == |mos| && id == i + 1
      invariant forall k :: 0 <= k < i ==> r[k] == mos[k].(id := k + 1)
      invariant forall k :: i <= k < |r| ==> r[k] == mos[k]
    {
      r := r[i := r[i].(id := id)];
      id := id + 1;
      i := i + 1;
    }
  }

  /** The ground truth after the in-place fixes: version, host vehicle id and object ids. */
  function FixedGroundTruth(gt: GroundTruth, current: Version): GroundTruth
  {
    gt.(version := current, hostVehicleId := HOST_VEHICLE_ID, movingObjects := Renumbered(gt.movingObjects))
  }

  /** The SensorView wrapping one rewritten frame. */
  function WrapGroundTruth(gt: GroundTruth, current: Version): (sv: SensorView)
    ensures sv.timestamp == gt.timestamp
    ensures sv.version == current && sv.globalGroundTruth.version == current
    ensures sv.hostVehicleId == HOST_VEHICLE_ID && sv.globalGroundTruth.hostVehicleId == sv.hostVehicleId
    ensures sv.globalGroundTruth.timestamp == gt.timestamp && sv.other == []
    ensures |sv.globalGroundTruth.movingObjects| == |gt.movingObjects|
    ensures forall i :: 0 <= i < |gt.movingObjects| ==> sv.globalGroundTruth.movingObjects[i].id == i + 1
  {
    var fixed := FixedGroundTruth(gt, current);
    SensorView(current, fixed.timestamp, fixed.hostVehicleId, fixed, [])
  }

  /** Apart from version, host vehicle id and object ids the wrapped frame is the input frame. */
  lemma WrapKeepsContent(gt: GroundTruth, current: Version)
    ensures var g := WrapGroundTruth(gt, current).globalGroundTruth;
      g.(version := gt.version, hostVehicleId := gt.hostVehicleId, movingObjects := gt.movingObjects) == gt
  {
  }

  /** The payloads gt2sv writes, one per input frame. */
  function SensorViewPayloads(gts: seq<GroundTruth>, current: Version, serialize: Message -> Bytes): (ps: seq<Bytes>)
    ensures |ps| == |gts|
    ensures forall i :: 0 <= i < |gts| ==> ps[i] == serialize(SV(WrapGroundTruth(gts[i], current)))
  {
    seq(|gts|, i requires 0 <= i < |gts| => serialize(SV(WrapGroundTruth(gts[i], current))))
  }

  /**
   * gt2sv: rewrite each frame in place, wrap it, serialise the SensorView and
   * append one record to the file opened in append mode.  A payload too long
   * for the length prefix aborts with the records before it already written.
   */
  method Gt2Sv(gts: seq<GroundTruth>, current: Version, out: OutputFile, serialize: Message -> Bytes)
    returns (r: Result<()>)
    modifies out
    ensures var ps := SensorViewPayloads(gts, current, serialize);
      r.Ok? <==> AllFit(ps)
    ensures var ps := SensorViewPayloads(gts, current, serialize);
      r.Ok? ==> out.content == old(out.content) + Framed(ps)
    ensures var ps := SensorViewPayloads(gts, current, serialize);
      r.Err? ==>
        r.error == StructError &&
        exists k :: 0 <= k < |ps| && !Fits(ps[k]) && AllFit(ps[..k]) &&
          out.content == old(out.content) + Framed(ps[..k])
  {
    ghost var ps := SensorViewPayloads(gts, current, serialize);
    var i := 0;
    while i < |gts|
      invariant 0 <= i <= |gts|
      invariant AllFit(ps[..i])
      invariant out.content == old(out.content) + Framed(ps[..i])
    {
      var gt := gts[i];
      gt := gt.(version := current);
      gt := gt.(hostVehicleId := HOST_VEHICLE_ID);
      var renumbered := RenumberMovingObjects(gt.movingObjects);
      gt := gt.(movingObjects := renumbered);
      var sv := SensorView(current, gt.timestamp, gt.hostVehicleId, gt, []);
      assert sv == WrapGroundTruth(gts[i], current);
      var buffer := serialize(SV(sv));
      var written := AppendRecord(out, old(out.content), ps[..i], buffer);
      if written.Err? {
        return Err(written.error);
      }
      assert ps[..i + 1] == ps[..i] + [buffer];
      i := i + 1;
    }
    assert ps[..i] == ps;
    return Ok(());
  }
}
