/**
 * utils.py: the trace helpers used around the conversion.  They collect the
 * moving-object ids of a trace, extract the trajectory of one object inside a
 * time window, pick the tool trajectory whose start is nearest a reference
 * trajectory, and crop a trace to a time window.
 *
 * The channel reader decodes every message with the channel's declared type;
 * the helpers read global_ground_truth.moving_object from a SensorView and
 * moving_object from a GroundTruth, and a message of the other kind has no
 * such field.
 */
module TraceUtils {
  import opened Common
  import opened Timestamps
  import opened OsiModel

  /** The assertion both id and trajectory helpers start with. */
  predicate SupportedMessageType(messageType: string)
  {
    messageType == "SensorView" || messageType == "GroundTruth"
  }

  /** The moving objects of a message, read through the field its declared type names. */
  function MovingObjectsField(messageType: string, m: Message): (r: Result<seq<MovingObject>>)
    requires SupportedMessageType(messageType)
    ensures r.Ok? <==> (messageType == "SensorView" <==> m.SV?)
    ensures r.Ok? ==> r.value == MovingObjectsOf(m)
    ensures r.Err? ==> r.error == AttributeError
  {
    if messageType == "SensorView" then
      if m.SV? then Ok(m.sv.globalGroundTruth.movingObjects) else Err(AttributeError)
    else
      if m.GT? then Ok(m.gt.movingObjects) else Err(AttributeError)
  }

  /** Every message of the trace has the kind the channel declares. */
  predicate TypedAs(messageType: string, ms: seq<Message>)
  {
    forall i :: 0 <= i < |ms| ==> (messageType == "SensorView" <==> ms[i].SV?)
  }

  lemma TypedAsPrefix(messageType: string, ms: seq<Message>, f: nat)
    requires f < |ms| && TypedAs(messageType, ms[..f]) && (messageType == "SensorView" <==> ms[f].SV?)
    ensures TypedAs(messageType, ms[..f + 1])
  {
    assert forall i :: 0 <= i < f ==> ms[..f + 1][i] == ms[..f][i];
  }

  /*
   * get_all_moving_object_ids
   */

  /** One round of the inner loop: the id list grows by the sample's id unless it is already listed. */
  lemma DistinctIdsAppend(s: seq<Sample>, x: Sample)
    ensures Distinct(Ids(s + [x])) ==
      if x.obj.id in Distinct(Ids(s)) then Distinct(Ids(s)) else Distinct(Ids(s)) + [x.obj.id]
  {
    IdsAppend(s, x);
    DistinctAppend(Ids(s), x.obj.id);
  }

  /** The inner loop of get_all_moving_object_ids over the objects of one frame. */
  method AddFrameIds(ids0: seq<nat>, ghost done: seq<Sample>, m: Message, movingObjects: seq<MovingObject>)
    returns (ids: seq<nat>)
    requires movingObjects == MovingObjectsOf(m) && ids0 == Distinct(Ids(done))
    ensures ids == Distinct(Ids(done + FrameSamples(m)))
  {
    ids := ids0;
    ghost var fs := FrameSamples(m);
    PrefixEnds(done, fs);
    for j := 0 to |movingObjects|
      invariant ids == Distinct(Ids(done + fs[..j]))
    {
      PrefixStep(done, fs, j);
      DistinctIdsAppend(done + fs[..j], fs[j]);
      if !(movingObjects[j].id in ids) {
        ids := ids + [movingObjects[j].id];
      }
    }
  }

  /**
   * get_all_moving_object_ids: every moving-object id of the trace once, in
   * order of first appearance.
   */
  method GetAllMovingObjectIds(messageType: string, ms: seq<Message>) returns (r: Result<seq<nat>>)
    ensures r.Err? <==> !SupportedMessageType(messageType) || !TypedAs(messageType, ms)
    ensures !SupportedMessageType(messageType) ==> r == Err(AssertionError)
    ensures SupportedMessageType(messageType) && r.Err? ==> r.error == AttributeError
    ensures r.Ok? ==> r.value == Distinct(Ids(Samples(ms)))
  {
    if !SupportedMessageType(messageType) {
      return Err(AssertionError);
    }
    var movingObjectIds: seq<nat> := [];
    for f := 0 to |ms|
      invariant TypedAs(messageType, ms[..f])
      invariant movingObjectIds == Distinct(Ids(Samples(ms[..f])))
    {
      var field := MovingObjectsField(messageType, ms[f]);
      if field.Err? {
        assert !TypedAs(messageType, ms) by {
          assert !(messageType == "SensorView" <==> ms[f].SV?);
        }
        return Err(field.error);
      }
      var movingObjects := field.value;
      movingObjectIds := AddFrameIds(movingObjectIds, Samples(ms[..f]), ms[f], movingObjects);
      SamplesPrefixStep(ms, f);
      TypedAsPrefix(messageType, ms, f);
    }
    assert ms[..|ms|] == ms;
    return Ok(movingObjectIds);
  }

  /** Each id of the trace is listed, and listed once. */
  lemma AllIdsListed(ms: seq<Message>)
    ensures forall id :: id in Distinct(Ids(Samples(ms))) <==> id in Ids(Samples(ms))
    ensures NoDuplicates(Distinct(Ids(Samples(ms))))
  {
    DistinctMembers(Ids(Samples(ms)));
  }

  /*
   * get_trajectory_by_moving_object_id
   */

  /** The inclusive time window; a missing bound leaves that side open. */
  predicate InWindow(t: real, start: Option<real>, end: Option<real>)
  {
    (start.None? || t >= start.value) && (end.None? || t <= end.value)
  }

  /** The samples whose frame time lies in the window, in order. */
  function WindowSamples(s: seq<Sample>, start: Option<real>, end: Option<real>): (w: seq<Sample>)
    ensures |w| <= |s|
    ensures forall i :: 0 <= i < |w| ==> w[i] in s && InWindow(w[i].time, start, end)
  {
    if s == [] then []
    else
      var w := WindowSamples(s[..|s| - 1], start, end);
      if InWindow(s[|s| - 1].time, start, end) then w + [s[|s| - 1]] else w
  }

  lemma WindowSamplesAppend(s: seq<Sample>, x: Sample, start: Option<real>, end: Option<real>)
    ensures WindowSamples(s + [x], start, end) ==
      if InWindow(x.time, start, end) then WindowSamples(s, start, end) + [x] else WindowSamples(s, start, end)
  {
    assert (s + [x])[..|s|] == s;
  }

  /** Samples all outside the window add nothing. */
  lemma {:induction false} WindowSamplesOutside(s: seq<Sample>, xs: seq<Sample>, start: Option<real>, end: Option<real>)
    requires forall i :: 0 <= i < |xs| ==> !InWindow(xs[i].time, start, end)
    ensures WindowSamples(s + xs, start, end) == WindowSamples(s, start, end)
  {
    if xs != [] {
      var last := xs[|xs| - 1];
      WindowSamplesOutside(s, xs[..|xs| - 1], start, end);
      assert xs == xs[..|xs| - 1] + [last];
      assert s + xs == (s + xs[..|xs| - 1]) + [last];
      WindowSamplesAppend(s + xs[..|xs| - 1], last, start, end);
    } else {
      assert s + xs == s;
    }
  }

  /** Size and type data kept with a trajectory. */
  datatype ObjectMetadata = ObjectMetadata(id: nat, length: real, width: real, height: real, objectType: int,
                                           vehicleType: int)

  /** A trajectory data frame: its rows and, when the object was seen, its attrs. */
  datatype Trajectory = Trajectory(rows: seq<Row>, metadata: Option<ObjectMetadata>)

  function MetadataOf(id: nat, mo: MovingObject): ObjectMetadata
  {
    ObjectMetadata(id, mo.dimension.length, mo.dimension.width, mo.dimension.height, mo.objectType, mo.vehicleType)
  }

  /** The trajectory of one object: its samples inside the window, metadata from the first of them. */
  function TrajectoryOf(s: seq<Sample>, id: nat, start: Option<real>, end: Option<real>): Trajectory
  {
    var w := WindowSamples(s, start, end);
    Trajectory(RowsOf(w, id), if id in Ids(w) then Some(MetadataOf(id, FirstSampleOf(w, id).obj)) else None)
  }

  /** The metadata of the window after one more sample. */
  lemma FirstSampleOfAppend(w: seq<Sample>, x: Sample, id: nat)
    requires id in Ids(w + [x])
    ensures id in Ids(w) ==> FirstSampleOf(w + [x], id) == FirstSampleOf(w, id)
    ensures id !in Ids(w) ==> FirstSampleOf(w + [x], id) == x
  {
    IdsAppend(w, x);
    if id in Ids(w) {
      FirstIndexOfPrefix(Ids(w), x.obj.id, id);
      assert (w + [x])[..|w|] == w;
    } else {
      LastFirstIndex(Ids(w), id);
    }
  }

  /** One round of the inner loop of get_trajectory_by_moving_object_id. */
  lemma TrajectoryOfAppend(s: seq<Sample>, x: Sample, id: nat, start: Option<real>, end: Option<real>)
    requires InWindow(x.time, start, end)
    ensures var t := TrajectoryOf(s, id, start, end);
      TrajectoryOf(s + [x], id, start, end) ==
        if x.obj.id != id then t
        else Trajectory(t.rows + [RowOf(x)], if t.metadata.None? then Some(MetadataOf(id, x.obj)) else t.metadata)
  {
    var w := WindowSamples(s, start, end);
    WindowSamplesAppend(s, x, start, end);
    assert (w + [x])[..|w|] == w;
    IdsAppend(w, x);
    if id in Ids(w + [x]) {
      FirstSampleOfAppend(w, x, id);
    }
  }

  /** The inner loop of get_trajectory_by_moving_object_id over one frame inside the window. */
  method AddFrameRows(t0: Trajectory, ghost done: seq<Sample>, m: Message, movingObjects: seq<MovingObject>, id: nat,
                      start: Option<real>, end: Option<real>) returns (t: Trajectory)
    requires movingObjects == MovingObjectsOf(m) && InWindow(ToSeconds(MessageTimestamp(m)), start, end)
    requires t0 == TrajectoryOf(done, id, start, end)
    ensures t == TrajectoryOf(done + FrameSamples(m), id, start, end)
  {
    var currentTimestamp := ToSeconds(MessageTimestamp(m));
    var rows, metadata := t0.rows, t0.metadata;
    ghost var fs := FrameSamples(m);
    PrefixEnds(done, fs);
    for j := 0 to |movingObjects|
      invariant Trajectory(rows, metadata) == TrajectoryOf(done + fs[..j], id, start, end)
    {
      var mo := movingObjects[j];
      assert fs[j] == Sample(currentTimestamp, mo);
      PrefixStep(done, fs, j);
      TrajectoryOfAppend(done + fs[..j], fs[j], id, start, end);
      if mo.id != id {
        continue;
      }
      rows := rows + [Row(currentTimestamp, mo.position.x, mo.position.y, mo.position.z,
                          mo.orientation.yaw, mo.orientation.pitch, mo.orientation.roll)];
      if metadata.None? {
        metadata := Some(MetadataOf(id, mo));
      }
    }
    t := Trajectory(rows, metadata);
  }

  /**
   * get_trajectory_by_moving_object_id: the rows of the requested object in
   * frames inside the window, with the attrs of its first kept sample.
   */
  method GetTrajectoryById(messageType: string, ms: seq<Message>, id: nat, start: Option<real>, end: Option<real>)
    returns (r: Result<Trajectory>)
    ensures r.Err? <==> !SupportedMessageType(messageType) || !TypedAs(messageType, ms)
    ensures !SupportedMessageType(messageType) ==> r == Err(AssertionError)
    ensures SupportedMessageType(messageType) && r.Err? ==> r.error == AttributeError
    ensures r.Ok? ==> r.value == TrajectoryOf(Samples(ms), id, start, end)
  {
    if !SupportedMessageType(messageType) {
      return Err(AssertionError);
    }
    var rows: seq<Row> := [];
    var metadata: Option<ObjectMetadata> := None;
    for f := 0 to |ms|
      invariant TypedAs(messageType, ms[..f])
      invariant Trajectory(rows, metadata) == TrajectoryOf(Samples(ms[..f]), id, start, end)
    {
      var field := MovingObjectsField(messageType, ms[f]);
      if field.Err? {
        assert !TypedAs(messageType, ms) by {
          assert !(messageType == "SensorView" <==> ms[f].SV?);
        }
        return Err(field.error);
      }
      var movingObjects := field.value;
      ghost var done := Samples(ms[..f]);
      SamplesPrefixStep(ms, f);
      TypedAsPrefix(messageType, ms, f);
      var currentTimestamp := ToSeconds(MessageTimestamp(ms[f]));
      if !InWindow(currentTimestamp, start, end) {
        WindowSamplesOutside(done, FrameSamples(ms[f]), start, end);
        continue;
      }
      var t := AddFrameRows(Trajectory(rows, metadata), done, ms[f], movingObjects, id, start, end);
      rows, metadata := t.rows, t.metadata;
    }
    assert ms[..|ms|] == ms;
    return Ok(Trajectory(rows, metadata));
  }

  /** Rows taken from samples that all lie in the window lie in the window. */
  lemma {:induction false} RowsOfWithin(s: seq<Sample>, id: nat, start: Option<real>, end: Option<real>)
    requires forall i :: 0 <= i < |s| ==> InWindow(s[i].time, start, end)
    ensures forall k :: 0 <= k < |RowsOf(s, id)| ==> InWindow(RowsOf(s, id)[k].timestamp, start, end)
  {
    if s != [] {
      RowsOfWithin(s[..|s| - 1], id, start, end);
    }
  }

  /**
   * The extracted trajectory has one row per sample of the object inside the
   * window, every row time lies in the window, and the metadata is present
   * exactly when some row is.
   */
  lemma TrajectoryOfProperties(s: seq<Sample>, id: nat, start: Option<real>, end: Option<real>)
    ensures var t := TrajectoryOf(s, id, start, end);
      |t.rows| == multiset(Ids(WindowSamples(s, start, end)))[id]
    ensures var t := TrajectoryOf(s, id, start, end);
      forall k :: 0 <= k < |t.rows| ==> InWindow(t.rows[k].timestamp, start, end)
    ensures var t := TrajectoryOf(s, id, start, end);
      t.metadata.None? <==> t.rows == []
    ensures var t := TrajectoryOf(s, id, start, end);
      t.metadata.Some? ==> t.metadata.value.id == id
  {
    var w := WindowSamples(s, start, end);
    RowsOfCount(w, id);
    RowsOfWithin(w, id, start, end);
    if id !in Ids(w) {
      RowsOfAbsent(w, id);
    }
  }

  /*
   * get_closest_trajectory
   */

  /** math.hypot compared through its square: both sides are non-negative, so the order is the same. */
  function SquaredDistance(a: Row, b: Row): real
  {
    (a.x - b.x) * (a.x - b.x) + (a.y - b.y) * (a.y - b.y)
  }

  /**
   * The position of the trajectory whose first row is nearest the reference
   * point; on a tie the earlier one wins, as the strict comparison keeps it.
   */
  function Nearest(ref: Row, ts: seq<Trajectory>): (k: nat)
    requires ts != [] && forall i :: 0 <= i < |ts| ==> ts[i].rows != []
    ensures k < |ts|
    ensures forall i :: 0 <= i < |ts| ==> SquaredDistance(ref, ts[k].rows[0]) <= SquaredDistance(ref, ts[i].rows[0])
    ensures forall i :: 0 <= i < k ==> SquaredDistance(ref, ts[k].rows[0]) < SquaredDistance(ref, ts[i].rows[0])
  {
    var n := |ts|;
    if n == 1 then 0
    else
      var k := Nearest(ref, ts[..n - 1]);
      assert ts[..n - 1][k] == ts[k];
      if SquaredDistance(ref, ts[n - 1].rows[0]) < SquaredDistance(ref, ts[k].rows[0]) then n - 1 else k
  }

  /**
   * The outcome of get_closest_trajectory for given tool trajectories: None
   * without any, IndexError when the reference or a tool trajectory has no
   * row, and otherwise the nearest one.
   */
  function ClosestTrajectory(ref: seq<Row>, ts: seq<Trajectory>): (r: Result<Option<Trajectory>>)
    ensures ts == [] ==> r == Ok(None)
    ensures ts != [] && (ref == [] || exists i :: 0 <= i < |ts| && ts[i].rows == []) ==> r == Err(IndexError)
    ensures r.Ok? && r.value.Some? ==>
      exists k :: 0 <= k < |ts| && r.value.value == ts[k] &&
        (forall i :: 0 <= i < |ts| ==> SquaredDistance(ref[0], ts[k].rows[0]) <= SquaredDistance(ref[0], ts[i].rows[0]))
  {
    if ts == [] then Ok(None)
    else if ref == [] || exists i :: 0 <= i < |ts| && ts[i].rows == [] then Err(IndexError)
    else Ok(Some(ts[Nearest(ref[0], ts)]))
  }

  /** The tool trajectories, one per moving-object id of the tool trace, in id order. */
  function ToolTrajectories(ms: seq<Message>, start: Option<real>, end: Option<real>): (ts: seq<Trajectory>)
    ensures |ts| == |Distinct(Ids(Samples(ms)))|
  {
    var ids := Distinct(Ids(Samples(ms)));
    seq(|ids|, i requires 0 <= i < |ids| => TrajectoryOf(Samples(ms), ids[i], start, end))
  }

  /** The argmin loop of get_closest_trajectory over the tool trajectories in id order. */
  method NearestTrajectory(ref: seq<Row>, ts: seq<Trajectory>) returns (r: Result<Option<Trajectory>>)
    ensures r == ClosestTrajectory(ref, ts)
  {
    var toolTrajectory: Option<Trajectory> := None;
    var minDistance: Option<real> := None;
    var nearest: nat := 0;
    for i := 0 to |ts|
      invariant forall k :: 0 <= k < i ==> ts[k].rows != []
      invariant i > 0 ==> ref != []
      invariant i == 0 <==> minDistance.None?
      invariant i > 0 ==> nearest == Nearest(ref[0], ts[..i]) && toolTrajectory == Some(ts[nearest]) &&
                          minDistance == Some(SquaredDistance(ref[0], ts[nearest].rows[0]))
      invariant i == 0 ==> toolTrajectory.None?
    {
      if ref == [] || ts[i].rows == [] {
        return Err(IndexError);
      }
      var distance := SquaredDistance(ref[0], ts[i].rows[0]);
      assert ts[..i + 1][..i] == ts[..i];
      if minDistance.None? || distance < minDistance.value {
        minDistance := Some(distance);
        nearest := i;
      }
      toolTrajectory := Some(ts[nearest]);
    }
    assert ts[..|ts|] == ts;
    return Ok(toolTrajectory);
  }

  /** The full outcome of get_closest_trajectory on a tool trace. */
  function ClosestTrajectoryOf(ref: seq<Row>, messageType: string, ms: seq<Message>, start: Option<real>,
                               end: Option<real>): Result<Option<Trajectory>>
  {
    if !SupportedMessageType(messageType) then Err(AssertionError)
    else if !TypedAs(messageType, ms) then Err(AttributeError)
    else ClosestTrajectory(ref, ToolTrajectories(ms, start, end))
  }

  /**
   * get_closest_trajectory: collect the tool ids, extract one trajectory per
   * id, then pick the one whose start is nearest the reference start.
   */
  method GetClosestTrajectory(ref: seq<Row>, messageType: string, ms: seq<Message>, start: Option<real>,
                              end: Option<real>) returns (r: Result<Option<Trajectory>>)
    ensures r == ClosestTrajectoryOf(ref, messageType, ms, start, end)
  {
    var ids := GetAllMovingObjectIds(messageType, ms);
    if ids.Err? {
      return Err(ids.error);
    }
    var toolTrajectories := CollectTrajectories(messageType, ms, ids.value, start, end);
    r := NearestTrajectory(ref, toolTrajectories);
  }

  /** The extraction loop of get_closest_trajectory: one trajectory per listed id, in list order. */
  method CollectTrajectories(messageType: string, ms: seq<Message>, ids: seq<nat>, start: Option<real>,
                             end: Option<real>) returns (ts: seq<Trajectory>)
    requires SupportedMessageType(messageType) && TypedAs(messageType, ms)
    requires ids == Distinct(Ids(Samples(ms)))
    ensures ts == ToolTrajectories(ms, start, end)
  {
    ts := [];
    for i := 0 to |ids|
      invariant |ts| == i
      invariant forall k :: 0 <= k < i ==> ts[k] == TrajectoryOf(Samples(ms), ids[k], start, end)
    {
      var t := GetTrajectoryById(messageType, ms, ids[i], start, end);
      ts := ts + [t.value];
    }
  }

  /*
   * crop_trace
   */

  /** The messages whose time stamp lies in the window, in order. */
  function Cropped(ms: seq<Message>, start: Option<real>, end: Option<real>): (c: seq<Message>)
    ensures |c| <= |ms|
  {
    if ms == [] then []
    else
      var c := Cropped(ms[..|ms| - 1], start, end);
      if InWindow(ToSeconds(MessageTimestamp(ms[|ms| - 1])), start, end) then c + [ms[|ms| - 1]] else c
  }

  /** The filter loop of crop_trace; the messages handed to the writer, in order. */
  method CropTrace(ms: seq<Message>, start: Option<real>, end: Option<real>) returns (written: seq<Message>)
    ensures written == Cropped(ms, start, end)
  {
    written := [];
    for i := 0 to |ms|
      invariant written == Cropped(ms[..i], start, end)
    {
      var messageTime := ToSeconds(MessageTimestamp(ms[i]));
      if (start.None? || messageTime >= start.value) && (end.None? || messageTime <= end.value) {
        written := written + [ms[i]];
      }
      assert ms[..i + 1][..i] == ms[..i];
    }
    assert ms[..|ms|] == ms;
  }

  /** A message is written exactly when it is in the trace and inside the window. */
  lemma {:induction false} CroppedMembers(ms: seq<Message>, start: Option<real>, end: Option<real>)
    ensures forall m :: m in Cropped(ms, start, end) <==> m in ms && InWindow(ToSeconds(MessageTimestamp(m)), start, end)
  {
    if ms != [] {
      var init := ms[..|ms| - 1];
      CroppedMembers(init, start, end);
      assert ms == init + [ms[|ms| - 1]];
    }
  }

  /** Cropping a cropped trace to the same window changes nothing. */
  lemma {:induction false} CroppedIdempotent(ms: seq<Message>, start: Option<real>, end: Option<real>)
    ensures Cropped(Cropped(ms, start, end), start, end) == Cropped(ms, start, end)
  {
    if ms != [] {
      var init := ms[..|ms| - 1];
      var c := Cropped(init, start, end);
      CroppedIdempotent(init, start, end);
      if InWindow(ToSeconds(MessageTimestamp(ms[|ms| - 1])), start, end) {
        assert (c + [ms[|ms| - 1]])[..|c|] == c;
      }
    }
  }

  /** Without bounds nothing is cropped. */
  lemma {:induction false} CroppedUnbounded(ms: seq<Message>)
    ensures Cropped(ms, None, None) == ms
  {
    if ms != [] {
      CroppedUnbounded(ms[..|ms| - 1]);
    }
  }
}
