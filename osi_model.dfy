/**
 * The parts of the ASAM OSI messages (SensorView, GroundTruth, MovingObject)
 * that the core reads or writes.  Everything else a message carries is kept
 * as an opaque blob so that "nothing else changes" can be stated.
 */
module OsiModel {
  import opened Common
  import opened Timestamps

  /** osi3.InterfaceVersion. */
  datatype Version = Version(major: nat, minor: nat, patch: nat)

  datatype Vector3 = Vector3(x: real, y: real, z: real)
  datatype Orientation3 = Orientation3(yaw: real, pitch: real, roll: real)
  datatype Dimension3 = Dimension3(length: real, width: real, height: real)

  /** osi3.MovingObject: id, base pose and size, type, vehicle classification type, rest. */
  datatype MovingObject = MovingObject(
    id: nat,
    position: Vector3,
    orientation: Orientation3,
    dimension: Dimension3,
    objectType: int,
    vehicleType: int,
    other: Bytes)

  /**
   * osi3.GroundTruth.  The five repeated road fields and environmental_conditions
   * are the ones strip_sensorview.py can clear.
   */
  datatype GroundTruth = GroundTruth(
    version: Version,
    timestamp: Timestamp,
    hostVehicleId: nat,
    movingObjects: seq<MovingObject>,
    laneBoundary: seq<Bytes>,
    referenceLine: seq<Bytes>,
    logicalLane: seq<Bytes>,
    logicalLaneBoundary: seq<Bytes>,
    lane: seq<Bytes>,
    environmentalConditions: Option<Bytes>,
    other: Bytes)

  /** osi3.SensorView. */
  datatype SensorView = SensorView(
    version: Version,
    timestamp: Timestamp,
    hostVehicleId: nat,
    globalGroundTruth: GroundTruth,
    other: Bytes)

  /** A top-level message of a trace: a SensorView or a GroundTruth. */
  datatype Message = SV(sv: SensorView) | GT(gt: GroundTruth)

  function MessageTimestamp(m: Message): Timestamp
  {
    match m
    case SV(sv) => sv.timestamp
    case GT(gt) => gt.timestamp
  }

  /**
   * The moving objects of a message: global_ground_truth.moving_object for a
   * SensorView, moving_object for a GroundTruth.
   */
  function MovingObjectsOf(m: Message): seq<MovingObject>
  {
    match m
    case SV(sv) => sv.globalGroundTruth.movingObjects
    case GT(gt) => gt.movingObjects
  }

  /**
   * What the trace statistics read of a message: its version (None when the
   * message has no version attribute) and its timestamp.
   */
  datatype Header = Header(version: Option<Version>, timestamp: Timestamp)

  function HeaderOf(m: Message): Header
  {
    match m
    case SV(sv) => Header(Some(sv.version), sv.timestamp)
    case GT(gt) => Header(Some(gt.version), gt.timestamp)
  }

  function Headers(ms: seq<Message>): (hs: seq<Header>)
    ensures |hs| == |ms| && forall i :: 0 <= i < |ms| ==> hs[i] == HeaderOf(ms[i])
  {
    seq(|ms|, i requires 0 <= i < |ms| => HeaderOf(ms[i]))
  }

  /** One moving object as seen in one frame, with that frame's time in seconds. */
  datatype Sample = Sample(time: real, obj: MovingObject)

  function FrameSamples(m: Message): (s: seq<Sample>)
    ensures |s| == |MovingObjectsOf(m)|
    ensures forall j :: 0 <= j < |s| ==>
      s[j] == Sample(ToSeconds(MessageTimestamp(m)), MovingObjectsOf(m)[j])
  {
    var t := ToSeconds(MessageTimestamp(m));
    seq(|MovingObjectsOf(m)|, j requires 0 <= j < |MovingObjectsOf(m)| => Sample(t, MovingObjectsOf(m)[j]))
  }

  /** A loop over b that extends a: one more element of b. */
  lemma PrefixStep<T>(a: seq<T>, b: seq<T>, j: nat)
    requires j < |b|
    ensures a + b[..j + 1] == (a + b[..j]) + [b[j]]
  {
    assert b[..j + 1] == b[..j] + [b[j]];
  }

  /** A loop over b that extends a: before the first and after the last element. */
  lemma PrefixEnds<T>(a: seq<T>, b: seq<T>)
    ensures a + b[..0] == a && a + b[..|b|] == a + b
  {
    assert b[..0] == [] && b[..|b|] == b;
  }

  /** All moving-object samples of a trace, frame by frame, in message order. */
  function Samples(ms: seq<Message>): seq<Sample>
  {
    if ms == [] then [] else Samples(ms[..|ms| - 1]) + FrameSamples(ms[|ms| - 1])
  }

  lemma SamplesAppend(ms: seq<Message>, m: Message)
    ensures Samples(ms + [m]) == Samples(ms) + FrameSamples(m)
  {
    assert (ms + [m])[..|ms|] == ms;
  }

  /** The samples of the first f + 1 frames: those of the first f, then frame f's. */
  lemma SamplesPrefixStep(ms: seq<Message>, f: nat)
    requires f < |ms|
    ensures Samples(ms[..f + 1]) == Samples(ms[..f]) + FrameSamples(ms[f])
  {
    assert ms[..f + 1] == ms[..f] + [ms[f]];
    SamplesAppend(ms[..f], ms[f]);
  }

  /** One trajectory row: time, base position and base orientation (yaw, pitch, roll). */
  datatype Row = Row(timestamp: real, x: real, y: real, z: real, h: real, p: real, r: real)

  function RowOf(s: Sample): Row
  {
    var o := s.obj;
    Row(s.time, o.position.x, o.position.y, o.position.z, o.orientation.yaw, o.orientation.pitch, o.orientation.roll)
  }

  /** The interface version a message carries. */
  function MessageVersion(m: Message): Version
  {
    match m
    case SV(sv) => sv.version
    case GT(gt) => gt.version
  }

  function Ids(s: seq<Sample>): (ids: seq<nat>)
    ensures |ids| == |s| && forall i :: 0 <= i < |s| ==> ids[i] == s[i].obj.id
  {
    seq(|s|, i requires 0 <= i < |s| => s[i].obj.id)
  }

  /** The elements of xs without repetitions, in order of first appearance. */
  function Distinct<T(==)>(xs: seq<T>): seq<T>
  {
    if xs == [] then []
    else
      var d := Distinct(xs[..|xs| - 1]);
      if xs[|xs| - 1] in d then d else d + [xs[|xs| - 1]]
  }

  predicate NoDuplicates<T(==)>(xs: seq<T>)
  {
    forall i, j :: 0 <= i < j < |xs| ==> xs[i] != xs[j]
  }

  /** Index of the first occurrence of x in xs. */
  function FirstIndex<T(==)>(xs: seq<T>, x: T): (k: nat)
    requires x in xs
    ensures k < |xs| && xs[k] == x && x !in xs[..k]
  {
    if xs[0] == x then 0 else assert xs == [xs[0]] + xs[1..]; FirstIndex(xs[1..], x) + 1
  }

  lemma DistinctAppend<T>(xs: seq<T>, x: T)
    ensures Distinct(xs + [x]) == if x in Distinct(xs) then Distinct(xs) else Distinct(xs) + [x]
  {
    assert (xs + [x])[..|xs|] == xs;
  }

  /** Distinct keeps exactly the values of its input, each once. */
  lemma {:induction false} DistinctMembers<T>(xs: seq<T>)
    ensures forall x :: x in Distinct(xs) <==> x in xs
    ensures NoDuplicates(Distinct(xs))
  {
    if xs != [] {
      var init := xs[..|xs| - 1];
      DistinctMembers(init);
      assert xs == init + [xs[|xs| - 1]];
    }
  }

  /** Distinct lists values in the order of their first appearance in the input. */
  lemma {:induction false} DistinctFirstAppearance<T>(xs: seq<T>, i: nat, j: nat)
    requires i < j < |Distinct(xs)|
    ensures Distinct(xs)[i] in xs && Distinct(xs)[j] in xs
    ensures FirstIndex(xs, Distinct(xs)[i]) < FirstIndex(xs, Distinct(xs)[j])
  {
    DistinctMembers(xs);
    var init := xs[..|xs| - 1];
    var last := xs[|xs| - 1];
    assert xs == init + [last];
    DistinctMembers(init);
    var d := Distinct(init);
    assert forall x :: x in d <==> x in init;
    assert Distinct(xs) == if last in d then d else d + [last];
    if j < |d| {
      DistinctFirstAppearance(init, i, j);
      FirstIndexOfPrefix(init, last, d[i]);
      FirstIndexOfPrefix(init, last, d[j]);
    } else {
      // d[j] is the last element, appearing first at position |init|
      assert last !in d && Distinct(xs)[j] == last && last !in init;
      var y := d[i];
      DistinctMember(init, y);
      FirstIndexOfPrefix(init, last, y);
      LastFirstIndex(init, last);
    }
  }

  lemma DistinctMember<T>(xs: seq<T>, y: T)
    requires y in Distinct(xs)
    ensures y in xs
  {
    DistinctMembers(xs);
  }

  lemma LastFirstIndex<T>(xs: seq<T>, y: T)
    requires y !in xs
    ensures y in xs + [y] && FirstIndex(xs + [y], y) == |xs|
  {
    assert (xs + [y])[|xs|] == y;
    var k := FirstIndex(xs + [y], y);
    assert (xs + [y])[..|xs|] == xs;
  }

  lemma FirstIndexOfPrefix<T>(xs: seq<T>, y: T, x: T)
    requires x in xs
    ensures x in xs + [y] && FirstIndex(xs + [y], x) == FirstIndex(xs, x)
  {
    var k := FirstIndex(xs, x);
    var k' := FirstIndex(xs + [y], x);
    assert (xs + [y])[k] == x;
  }

  lemma IdsAppend(s: seq<Sample>, x: Sample)
    ensures Ids(s + [x]) == Ids(s) + [x.obj.id]
  {
  }

  /** The first sample of the object with the given id. */
  function FirstSampleOf(s: seq<Sample>, id: nat): (x: Sample)
    requires id in Ids(s)
    ensures x in s && x.obj.id == id
  {
    s[FirstIndex(Ids(s), id)]
  }

  /** The rows of all samples of the object with the given id, in sample order. */
  function RowsOf(s: seq<Sample>, id: nat): seq<Row>
  {
    if s == [] then []
    else if s[|s| - 1].obj.id == id then RowsOf(s[..|s| - 1], id) + [RowOf(s[|s| - 1])]
    else RowsOf(s[..|s| - 1], id)
  }

  lemma RowsOfAbsent(s: seq<Sample>, id: nat)
    requires id !in Ids(s)
    ensures RowsOf(s, id) == []
  {
    if s != [] {
      assert Ids(s)[|s| - 1] == s[|s| - 1].obj.id;
      assert Ids(s[..|s| - 1]) == Ids(s)[..|s| - 1];
      RowsOfAbsent(s[..|s| - 1], id);
    }
  }

  /** An object gets one trajectory row per sample carrying its id. */
  lemma {:induction false} RowsOfCount(s: seq<Sample>, id: nat)
    ensures |RowsOf(s, id)| == multiset(Ids(s))[id]
  {
    if s != [] {
      var init := s[..|s| - 1];
      RowsOfCount(init, id);
      assert Ids(s) == Ids(init) + [s[|s| - 1].obj.id];
    }
  }
}
