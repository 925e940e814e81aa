/**
 * osi2osc.py: converts a SensorView trace into an OpenSCENARIO 1.3 document.
 * Moving-object samples are grouped into one trajectory per object id, and
 * every object becomes a ScenarioObject, an init teleport and an Act whose
 * FollowTrajectoryAction follows a timed polyline.
 *
 * str() of a float and rotatePointXYZ are parameters (Formatter, Rotation):
 * the structure of the document is stated for every choice of them.
 */
module Osi2Osc {
  import opened Common
  import opened Timestamps
  import opened OsiModel
  import opened Xml
  import opened OsiReader

  const XOSC_VERSION_MAJOR: nat := 1
  const XOSC_VERSION_MINOR: nat := 3
  const XOSC_AUTHOR := "PMSF OSI2OSC Converter"
  const XOSC_DESCRIPTION := ""
  const XOSC_LICENSE := ""
  const XOSC_LICENSE_RESOURCE := ""
  const STORY_NAME := "Story1"

  /** str() of a float. */
  type Formatter = real -> string

  /** rotatePointXYZ(x, y, z, h, p, r): the point (x, y, z) rotated by yaw h, pitch p and roll r. */
  type Rotation = (real, real, real, real, real, real) -> (real, real, real)

  /** A Python number: the default lateral offset is the int 0, the others are floats. */
  datatype Num = Int(i: int) | Float(f: real)
  {
    function Value(): real
    {
      match this
      case Int(i) => i as real
      case Float(f) => f
    }
  }

  /** str() of an int. */
  function IntString(i: int): (s: string)
    ensures ParseInt(s) == Some(i)
  {
    if i < 0 then
      ParseIntOfNat(-i);
      "-" + NatToString(-i)
    else
      ParseIntOfNat(i);
      NatToString(i)
  }

  /** str() of a number. */
  function NumString(n: Num, fmt: Formatter): string
  {
    match n
    case Int(i) => IntString(i)
    case Float(f) => fmt(f)
  }

  /** bbcenter_to_rear_x/y/z: from the bounding-box centre to the rear axle. */
  datatype RearOffset = RearOffset(x: Num, y: Num, z: Num)

  /** The default offset: 30 % of the length back, no lateral shift, half the height down. */
  function DefaultRearOffset(length: real, height: real): RearOffset
  {
    RearOffset(Float(length * 0.3), Int(0), Float(height * 0.5))
  }

  /** The ScenarioObject name: "Ego" for the host vehicle, "osi_moving_object_<id>" otherwise. */
  function EntityRef(id: nat, hostVehicle: bool): (name: string)
    ensures name == "Ego" <==> hostVehicle
  {
    if hostVehicle then "Ego" else "osi_moving_object_" + NatToString(id)
  }

  /** Different non-host objects get different entity names. */
  lemma EntityRefInjective(a: nat, b: nat)
    requires EntityRef(a, false) == EntityRef(b, false)
    ensures a == b
  {
    var prefix := "osi_moving_object_";
    assert EntityRef(a, false)[|prefix|..] == NatToString(a);
    assert EntityRef(b, false)[|prefix|..] == NatToString(b);
    NatToStringValue(a);
    NatToStringValue(b);
  }

  /** The data an OSI2OSCMovingObject holds, as a value. */
  datatype ObjectRecord = ObjectRecord(
    id: nat,
    entityRef: string,
    lengthStatic: real,
    widthStatic: real,
    heightStatic: real,
    objectType: int,
    vehicleType: int,
    rearOffset: RearOffset,
    trajectory: seq<Row>)

  /** OSI2OSCMovingObject: fixed object data and a trajectory that grows row by row. */
  class OscMovingObject {
    const id: nat
    const entityRef: string
    const lengthStatic: real
    const widthStatic: real
    const heightStatic: real
    const objectType: int
    const vehicleType: int
    const rearOffset: RearOffset
    var trajectory: seq<Row>

    /** The object after its offset has been resolved; the trajectory starts empty. */
    constructor (id: nat, lengthStatic: real, widthStatic: real, heightStatic: real, objectType: int,
                 vehicleType: int, rearOffset: RearOffset, hostVehicle: bool)
      ensures Record() == ObjectRecord(id, EntityRef(id, hostVehicle), lengthStatic, widthStatic, heightStatic,
                                       objectType, vehicleType, rearOffset, [])
    {
      this.id := id;
      this.entityRef := EntityRef(id, hostVehicle);
      this.lengthStatic := lengthStatic;
      this.widthStatic := widthStatic;
      this.heightStatic := heightStatic;
      this.objectType := objectType;
      this.vehicleType := vehicleType;
      this.rearOffset := rearOffset;
      this.trajectory := [];
    }

    function Record(): ObjectRecord
      reads this
    {
      ObjectRecord(id, entityRef, lengthStatic, widthStatic, heightStatic, objectType, vehicleType, rearOffset, trajectory)
    }

    /** append_trajectory_row: one more row at the end, nothing else changes. */
    method AppendTrajectoryRow(row: Row)
      modifies this
      ensures trajectory == old(trajectory) + [row]
      ensures Record() == old(Record()).(trajectory := old(trajectory) + [row])
    {
      trajectory := trajectory + [row];
    }
  }

  /**
   * OSI2OSCMovingObject.__init__: with no offset given the default is used,
   * with all three given they are kept, and any other combination raises
   * RuntimeError.
   */
  method NewOscMovingObject(id: nat, lengthStatic: real, widthStatic: real, heightStatic: real, objectType: int,
                            vehicleType: int, x: Option<Num>, y: Option<Num>, z: Option<Num>, hostVehicle: bool)
    returns (r: Result<OscMovingObject>)
    ensures r.Err? <==> !(x.None? && y.None? && z.None?) && !(x.Some? && y.Some? && z.Some?)
    ensures r.Err? ==> r.error == RuntimeError
    ensures r.Ok? ==> fresh(r.value) && r.value.trajectory == []
    ensures r.Ok? ==> r.value.id == id && r.value.entityRef == EntityRef(id, hostVehicle)
    ensures r.Ok? ==> r.value.lengthStatic == lengthStatic && r.value.widthStatic == widthStatic &&
                      r.value.heightStatic == heightStatic
    ensures r.Ok? ==> r.value.objectType == objectType && r.value.vehicleType == vehicleType
    ensures x.None? && y.None? && z.None? ==> r.Ok? && r.value.rearOffset == DefaultRearOffset(lengthStatic, heightStatic)
    ensures x.Some? && y.Some? && z.Some? ==> r.Ok? && r.value.rearOffset == RearOffset(x.value, y.value, z.value)
  {
    var offset;
    if x.None? && y.None? && z.None? {
      offset := DefaultRearOffset(lengthStatic, heightStatic);
    } else if x.Some? && y.Some? && z.Some? {
      offset := RearOffset(x.value, y.value, z.value);
    } else {
      return Err(RuntimeError);
    }
    var obj := new OscMovingObject(id, lengthStatic, widthStatic, heightStatic, objectType, vehicleType, offset, hostVehicle);
    return Ok(obj);
  }

  /*
   * What parse_moving_objects computes, stated per object.
   */

  /** An object created from its first sample, before any row is added. */
  function NewRecord(mo: MovingObject, host: nat): ObjectRecord
  {
    ObjectRecord(mo.id, EntityRef(mo.id, mo.id == host), mo.dimension.length, mo.dimension.width,
                 mo.dimension.height, mo.objectType, mo.vehicleType,
                 DefaultRearOffset(mo.dimension.length, mo.dimension.height), [])
  }

  /** The object with the given id: data of its first sample, a row per sample. */
  function ObjectFor(s: seq<Sample>, id: nat, host: nat): ObjectRecord
    requires id in Ids(s)
  {
    NewRecord(FirstSampleOf(s, id).obj, host).(trajectory := RowsOf(s, id))
  }

  /** One object per distinct id, in order of first appearance. */
  function ParsedObjects(s: seq<Sample>, host: nat): (os: seq<ObjectRecord>)
    ensures |os| == |Distinct(Ids(s))|
  {
    var d := Distinct(Ids(s));
    DistinctMembers(Ids(s));
    seq(|d|, k requires 0 <= k < |d| => ObjectFor(s, d[k], host))
  }

  /** Appending a sample changes only the object of that sample. */
  lemma ObjectForAppend(s: seq<Sample>, x: Sample, id: nat, host: nat)
    requires id in Ids(s)
    ensures id in Ids(s + [x])
    ensures ObjectFor(s + [x], id, host) ==
      var o := ObjectFor(s, id, host);
      if x.obj.id == id then o.(trajectory := o.trajectory + [RowOf(x)]) else o
  {
    IdsAppend(s, x);
    FirstIndexOfPrefix(Ids(s), x.obj.id, id);
    assert (s + [x])[..|s|] == s;
  }

  /** A sample of an id already seen adds a row to that object. */
  lemma ParsedObjectsAppendKnown(s: seq<Sample>, x: Sample, host: nat, k: nat)
    requires k < |Distinct(Ids(s))| && Distinct(Ids(s))[k] == x.obj.id
    ensures var os := ParsedObjects(s, host);
      k < |os| && ParsedObjects(s + [x], host) == os[k := os[k].(trajectory := os[k].trajectory + [RowOf(x)])]
  {
    var d := Distinct(Ids(s));
    DistinctMembers(Ids(s));
    IdsAppend(s, x);
    DistinctAppend(Ids(s), x.obj.id);
    assert Distinct(Ids(s + [x])) == d;
    var os, os' := ParsedObjects(s, host), ParsedObjects(s + [x], host);
    forall i | 0 <= i < |d|
      ensures os'[i] == os[k := os[k].(trajectory := os[k].trajectory + [RowOf(x)])][i]
    {
      ObjectForAppend(s, x, d[i], host);
      if i != k {
        assert d[i] != d[k];
      }
    }
  }

  /** A sample of a new id adds an object with that single row at the end. */
  lemma ParsedObjectsAppendNew(s: seq<Sample>, x: Sample, host: nat)
    requires x.obj.id !in Ids(s)
    ensures ParsedObjects(s + [x], host) == ParsedObjects(s, host) + [NewRecord(x.obj, host).(trajectory := [RowOf(x)])]
  {
    var d := Distinct(Ids(s));
    DistinctMembers(Ids(s));
    IdsAppend(s, x);
    DistinctAppend(Ids(s), x.obj.id);
    assert Distinct(Ids(s + [x])) == d + [x.obj.id];
    var os, os' := ParsedObjects(s, host), ParsedObjects(s + [x], host);
    forall i | 0 <= i < |d|
      ensures os'[i] == os[i]
    {
      ObjectForAppend(s, x, d[i], host);
    }
    LastFirstIndex(Ids(s), x.obj.id);
    assert FirstSampleOf(s + [x], x.obj.id) == x;
    RowsOfAbsent(s, x.obj.id);
    assert (s + [x])[..|s|] == s;
    assert RowsOf(s + [x], x.obj.id) == [RowOf(x)];
    assert os'[|d|] == NewRecord(x.obj, host).(trajectory := [RowOf(x)]);
  }

  /** The objects carry the distinct ids of the trace, each once, in order of first appearance. */
  lemma ParsedObjectsIds(s: seq<Sample>, host: nat)
    ensures forall k :: 0 <= k < |ParsedObjects(s, host)| ==> ParsedObjects(s, host)[k].id == Distinct(Ids(s))[k]
    ensures forall id :: (exists k :: 0 <= k < |ParsedObjects(s, host)| && ParsedObjects(s, host)[k].id == id) <==> id in Ids(s)
    ensures forall i, j :: 0 <= i < j < |ParsedObjects(s, host)| ==> ParsedObjects(s, host)[i].id != ParsedObjects(s, host)[j].id
  {
    var d := Distinct(Ids(s));
    DistinctMembers(Ids(s));
    forall id | id in Ids(s)
      ensures exists k :: 0 <= k < |ParsedObjects(s, host)| && ParsedObjects(s, host)[k].id == id
    {
      var k :| 0 <= k < |d| && d[k] == id;
      assert ParsedObjects(s, host)[k].id == id;
    }
  }

  /** An id that no parsed object carries does not occur in the samples. */
  lemma UnknownIdIsNew(s: seq<Sample>, host: nat, id: nat)
    requires forall k :: 0 <= k < |ParsedObjects(s, host)| ==> ParsedObjects(s, host)[k].id != id
    ensures id !in Ids(s)
  {
    ParsedObjectsIds(s, host);
  }

  /** The k-th parsed object carries the k-th distinct id. */
  lemma KnownIdPosition(s: seq<Sample>, host: nat, k: nat)
    requires k < |ParsedObjects(s, host)|
    ensures k < |Distinct(Ids(s))| && Distinct(Ids(s))[k] == ParsedObjects(s, host)[k].id
  {
  }

  /** The records of a list of objects. */
  function Records(objs: seq<OscMovingObject>): (rs: seq<ObjectRecord>)
    reads objs
    ensures |rs| == |objs|
  {
    seq(|objs|, i reads objs requires 0 <= i < |objs| => objs[i].Record())
  }

  /** The position of the first object with the given id (any(...) followed by next(...)). */
  method FindObject(objs: seq<OscMovingObject>, id: nat) returns (k: Option<nat>)
    ensures k.None? <==> forall i :: 0 <= i < |objs| ==> objs[i].id != id
    ensures k.Some? ==> k.value < |objs| && objs[k.value].id == id
  {
    var i := 0;
    while i < |objs|
      invariant 0 <= i <= |objs|
      invariant forall j :: 0 <= j < i ==> objs[j].id != id
    {
      if objs[i].id == id {
        return Some(i);
      }
      i := i + 1;
    }
    return None;
  }

  /** Every message of the trace is a SensorView. */
  predicate AllSensorViews(ms: seq<Message>)
  {
    forall i :: 0 <= i < |ms| ==> ms[i].SV?
  }

  /**
   * The body of the inner loop of parse_moving_objects for one sample: the
   * first sample of an id creates its object, every sample appends a row.
   */
  method AddSample(objs: seq<OscMovingObject>, ghost done: seq<Sample>, time: real, mo: MovingObject, host: nat)
    returns (objs': seq<OscMovingObject>)
    requires Records(objs) == ParsedObjects(done, host)
    requires forall i, j :: 0 <= i < j < |objs| ==> objs[i] != objs[j]
    modifies set i | 0 <= i < |objs| :: objs[i]
    ensures Records(objs') == ParsedObjects(done + [Sample(time, mo)], host)
    ensures forall i :: 0 <= i < |objs'| ==> objs'[i] in objs || fresh(objs'[i])
    ensures forall i, j :: 0 <= i < j < |objs'| ==> objs'[i] != objs'[j]
  {
    var row := Row(time, mo.position.x, mo.position.y, mo.position.z,
                   mo.orientation.yaw, mo.orientation.pitch, mo.orientation.roll);
    var k := FindObject(objs, mo.id);
    if k.None? {
      var obj := AddObject(objs, done, time, row, mo, host);
      objs' := objs + [obj];
    } else {
      AddRow(objs, done, k.value, time, row, mo, host);
      objs' := objs;
    }
  }

  /** The first sample of an id: a new object holding just that sample's row, appended to the list. */
  method AddObject(objs: seq<OscMovingObject>, ghost done: seq<Sample>, time: real, row: Row, mo: MovingObject, host: nat)
    returns (obj: OscMovingObject)
    requires Records(objs) == ParsedObjects(done, host)
    requires forall i :: 0 <= i < |objs| ==> objs[i].id != mo.id
    requires row == RowOf(Sample(time, mo))
    ensures fresh(obj)
    ensures Records(objs + [obj]) == ParsedObjects(done + [Sample(time, mo)], host)
  {
    ghost var x := Sample(time, mo);
    assert forall i :: 0 <= i < |objs| ==> Records(objs)[i].id != mo.id;
    UnknownIdIsNew(done, host, mo.id);
    var created := NewOscMovingObject(mo.id, mo.dimension.length, mo.dimension.width, mo.dimension.height,
                                      mo.objectType, mo.vehicleType, None, None, None, mo.id == host);
    obj := created.value;
    obj.AppendTrajectoryRow(row);
    assert obj.Record() == NewRecord(mo, host).(trajectory := [RowOf(x)]);
    ParsedObjectsAppendNew(done, x, host);
    assert Records(objs + [obj]) == Records(objs) + [obj.Record()];
  }

  /** A later sample of an id: one more row on the object at position k, nothing else changes. */
  method AddRow(objs: seq<OscMovingObject>, ghost done: seq<Sample>, k: nat, time: real, row: Row, mo: MovingObject, host: nat)
    requires Records(objs) == ParsedObjects(done, host)
    requires forall i, j :: 0 <= i < j < |objs| ==> objs[i] != objs[j]
    requires k < |objs| && objs[k].id == mo.id
    requires row == RowOf(Sample(time, mo))
    modifies objs[k]
    ensures Records(objs) == ParsedObjects(done + [Sample(time, mo)], host)
  {
    KnownIdPosition(done, host, k);
    ghost var before := Records(objs);
    objs[k].AppendTrajectoryRow(row);
    assert forall i :: 0 <= i < |objs| && i != k ==> objs[i].Record() == before[i];
    ParsedObjectsAppendKnown(done, Sample(time, mo), host, k);
    assert Records(objs) == before[k := before[k].(trajectory := before[k].trajectory + [row])];
  }

  /** The inner loop of parse_moving_objects: the moving objects of one frame, in order. */
  method AddFrame(objs: seq<OscMovingObject>, ghost ms: seq<Message>, ghost f: nat, m: Message, host: nat)
    returns (objs': seq<OscMovingObject>)
    requires f < |ms| && ms[f] == m && m.SV?
    requires Records(objs) == ParsedObjects(Samples(ms[..f]), host)
    requires forall i, j :: 0 <= i < j < |objs| ==> objs[i] != objs[j]
    modifies set i | 0 <= i < |objs| :: objs[i]
    ensures Records(objs') == ParsedObjects(Samples(ms[..f + 1]), host)
    ensures forall o | o in objs' :: o in objs || fresh(o)
    ensures forall i, j :: 0 <= i < j < |objs'| ==> objs'[i] != objs'[j]
  {
    var currentTimestamp := ToSeconds(m.sv.timestamp);
    var movingObjects := m.sv.globalGroundTruth.movingObjects;
    assert movingObjects == MovingObjectsOf(m);
    objs' := objs;
    var j := 0;
    ghost var done := Samples(ms[..f]);
    ghost var fs := FrameSamples(m);
    PrefixEnds(done, fs);
    while j < |movingObjects|
      invariant 0 <= j <= |movingObjects|
      invariant forall i :: 0 <= i < |objs'| ==> objs'[i] in objs || fresh(objs'[i])
      invariant forall i, j :: 0 <= i < j < |objs'| ==> objs'[i] != objs'[j]
      invariant Records(objs') == ParsedObjects(done + fs[..j], host)
    {
      assert fs[j] == Sample(currentTimestamp, movingObjects[j]);
      PrefixStep(done, fs, j);
      objs' := AddSample(objs', done + fs[..j], currentTimestamp, movingObjects[j], host);
      j := j + 1;
    }
    SamplesPrefixStep(ms, f);
  }

  /**
   * parse_moving_objects: one pass over the frames and their moving objects,
   * grouping the samples by id.  A message that is not a SensorView fails the
   * isinstance assertion.
   */
  method ParseMovingObjects(ms: seq<Message>, host: nat) returns (r: Result<seq<OscMovingObject>>)
    ensures r.Err? <==> !AllSensorViews(ms)
    ensures r.Err? ==> r.error == AssertionError
    ensures r.Ok? ==> Records(r.value) == ParsedObjects(Samples(ms), host)
    ensures r.Ok? ==> forall i :: 0 <= i < |r.value| ==> fresh(r.value[i])
    ensures r.Ok? ==> forall i, j :: 0 <= i < j < |r.value| ==> r.value[i] != r.value[j]
  {
    var objs: seq<OscMovingObject> := [];
    var f := 0;
    while f < |ms|
      invariant 0 <= f <= |ms|
      invariant forall i | 0 <= i < f :: ms[i].SV?
      invariant forall o | o in objs :: fresh(o)
      invariant forall i, j :: 0 <= i < j < |objs| ==> objs[i] != objs[j]
      invariant Records(objs) == ParsedObjects(Samples(ms[..f]), host)
    {
      if ms[f].GT? {
        assert !ms[f].SV?;
        return Err(AssertionError);
      }
      assert forall i :: 0 <= i < |objs| ==> objs[i] in objs;
      objs := AddFrame(objs, ms, f, ms[f], host);
      f := f + 1;
    }
    assert ms[..f] == ms;
    assert forall i :: 0 <= i < |objs| ==> objs[i] in objs;
    return Ok(objs);
  }

  /*
   * The elements an object contributes to the document.
   */

  /** osc_category_to_osi_type: vehicle classification types 0 to 5 map to "car", any other raises KeyError. */
  function VehicleCategory(vehicleType: int): (r: Result<string>)
    ensures r.Ok? <==> 0 <= vehicleType <= 5
    ensures r.Ok? ==> r.value == "car"
    ensures r.Err? ==> r.error == KeyError
  {
    if 0 <= vehicleType <= 5 then Ok("car") else Err(KeyError)
  }

  /** "osi_moving_object_vehicle_<id>", the stem of the vehicle, trajectory and act names. */
  function VehicleName(id: nat): string
  {
    "osi_moving_object_vehicle_" + NatToString(id)
  }

  /** build_osc_scenario_object: the ScenarioObject with its Vehicle description. */
  function BuildScenarioObject(o: ObjectRecord, fmt: Formatter): (r: Result<Element>)
    ensures r.Ok? <==> VehicleCategory(o.vehicleType).Ok?
    ensures r.Err? ==> r.error == KeyError
    ensures r.Ok? ==> r.value.tag == "ScenarioObject" && Attr(r.value, "name") == Some(o.entityRef)
  {
    var category :- VehicleCategory(o.vehicleType);
    var off := o.rearOffset;
    Ok(Element("ScenarioObject", [("name", o.entityRef)], [
      Element("Vehicle", [("name", VehicleName(o.id)), ("vehicleCategory", category)], [
        Element("BoundingBox", [], [
          Leaf("Center", [("x", NumString(off.x, fmt)), ("y", NumString(off.y, fmt)), ("z", NumString(off.z, fmt))]),
          Leaf("Dimensions", [("height", fmt(o.heightStatic)), ("length", fmt(o.lengthStatic)),
                              ("width", fmt(o.widthStatic))])]),
        Leaf("Performance", [("maxAcceleration", "4"), ("maxDeceleration", "9"), ("maxSpeed", "250")]),
        Element("Axles", [], [
          Leaf("FrontAxle", [("maxSteering", "0.5"), ("positionX", "2.7"), ("positionZ", "0.4"),
                             ("trackWidth", "1.63"), ("wheelDiameter", "0.8")]),
          Leaf("RearAxle", [("maxSteering", "0.5"), ("positionX", "0"), ("positionZ", "0.4"),
                            ("trackWidth", "1.63"), ("wheelDiameter", "0.8")])])])]))
  }

  /** Find through a child: the first step of a path. */
  lemma FindStep(e: Element, tag: string, rest: seq<string>, c: Element)
    requires Child(e, tag) == Some(c)
    ensures Find(e, [tag] + rest) == Find(c, rest)
  {
    assert ([tag] + rest)[0] == tag && ([tag] + rest)[1..] == rest;
  }

  /** The bounding box written for an object is its offset and its static size. */
  lemma ScenarioObjectBoundingBox(o: ObjectRecord, fmt: Formatter)
    requires BuildScenarioObject(o, fmt).Ok?
    ensures var so := BuildScenarioObject(o, fmt).value;
      var center := Find(so, ["Vehicle", "BoundingBox", "Center"]);
      center.Some? && center.value.attrs ==
        [("x", NumString(o.rearOffset.x, fmt)), ("y", NumString(o.rearOffset.y, fmt)),
         ("z", NumString(o.rearOffset.z, fmt))]
    ensures var so := BuildScenarioObject(o, fmt).value;
      var dims := Find(so, ["Vehicle", "BoundingBox", "Dimensions"]);
      dims.Some? && dims.value.attrs ==
        [("height", fmt(o.heightStatic)), ("length", fmt(o.lengthStatic)), ("width", fmt(o.widthStatic))]
  {
    var so := BuildScenarioObject(o, fmt).value;
    var vehicle := so.children[0];
    var box := vehicle.children[0];
    FindStep(so, "Vehicle", ["BoundingBox", "Center"], vehicle);
    FindStep(vehicle, "BoundingBox", ["Center"], box);
    FindStep(box, "Center", [], box.children[0]);
    assert ["Vehicle", "BoundingBox", "Center"] == ["Vehicle"] + ["BoundingBox", "Center"];
    assert ["BoundingBox", "Center"] == ["BoundingBox"] + ["Center"];
    assert ["Center"] == ["Center"] + [];
    FindStep(so, "Vehicle", ["BoundingBox", "Dimensions"], vehicle);
    FindStep(vehicle, "BoundingBox", ["Dimensions"], box);
    FindStep(box, "Dimensions", [], box.children[1]);
    assert ["Vehicle", "BoundingBox", "Dimensions"] == ["Vehicle"] + ["BoundingBox", "Dimensions"];
    assert ["BoundingBox", "Dimensions"] == ["BoundingBox"] + ["Dimensions"];
    assert ["Dimensions"] == ["Dimensions"] + [];
  }

  /**
   * One Vertex of the polyline: the row's time, and its position moved from
   * the bounding-box centre to the rear axle by the offset rotated into the
   * object's orientation; the orientation itself is copied.
   */
  function Vertex(row: Row, off: RearOffset, fmt: Formatter, rot: Rotation): (v: Element)
    ensures v.tag == "Vertex" && Attr(v, "time") == Some(fmt(row.timestamp))
  {
    var shift := rot(off.x.Value(), off.y.Value(), off.z.Value(), row.h, row.p, row.r);
    Element("Vertex", [("time", fmt(row.timestamp))], [
      Element("Position", [], [
        Leaf("WorldPosition", [("x", fmt(row.x - shift.0)), ("y", fmt(row.y - shift.1)), ("z", fmt(row.z - shift.2)),
                               ("h", fmt(row.h)), ("p", fmt(row.p)), ("r", fmt(row.r))])])])
  }

  /** The Polyline: one vertex per trajectory row, in row order. */
  function Polyline(o: ObjectRecord, fmt: Formatter, rot: Rotation): (p: Element)
    ensures p.tag == "Polyline" && |p.children| == |o.trajectory|
    ensures forall k :: 0 <= k < |o.trajectory| ==> p.children[k] == Vertex(o.trajectory[k], o.rearOffset, fmt, rot)
  {
    Element("Polyline", [], seq(|o.trajectory|, k requires 0 <= k < |o.trajectory| =>
      Vertex(o.trajectory[k], o.rearOffset, fmt, rot)))
  }

  /** build_osc_polyline_trajectory: a named, open Trajectory whose shape is the polyline. */
  function BuildPolylineTrajectory(o: ObjectRecord, fmt: Formatter, rot: Rotation): (t: Element)
    ensures t.tag == "Trajectory"
    ensures Attr(t, "name") == Some(VehicleName(o.id) + "_trajectory") && Attr(t, "closed") == Some("false")
  {
    var attrs := [("closed", "false"), ("name", VehicleName(o.id) + "_trajectory")];
    LookupAt(attrs, 1);
    Element("Trajectory", attrs, [
      Element("Shape", [], [Polyline(o, fmt, rot)])])
  }

  /** The path from an Act to its Maneuver. */
  const ACT_TO_MANEUVER: seq<string> := ["ManeuverGroup", "Maneuver"]

  /** The path from a Maneuver down to its FollowTrajectoryAction. */
  const MANEUVER_TO_FOLLOW: seq<string> := ["Event", "Action", "PrivateAction", "RoutingAction", "FollowTrajectoryAction"]

  /** The path from a FollowTrajectoryAction down to the polyline of its trajectory. */
  const FOLLOW_TO_POLYLINE: seq<string> := ["TrajectoryRef", "Trajectory", "Shape", "Polyline"]

  /** The path from an Act to its Event. */
  const ACT_TO_EVENT: seq<string> := ACT_TO_MANEUVER + ["Event"]

  /** The path from an Act to its FollowTrajectoryAction. */
  const ACT_TO_FOLLOW: seq<string> := ACT_TO_MANEUVER + MANEUVER_TO_FOLLOW

  /** The path from an Act down to the polyline of its trajectory. */
  const ACT_TO_POLYLINE: seq<string> := ACT_TO_FOLLOW + FOLLOW_TO_POLYLINE

  /** The path from an Act to the entity it moves. */
  const ACT_TO_ACTOR: seq<string> := ["ManeuverGroup", "Actors", "EntityRef"]

  /** The FollowTrajectoryAction: the trajectory itself, absolute timing, position following. */
  function FollowTrajectoryAction(o: ObjectRecord, fmt: Formatter, rot: Rotation): Element
  {
    Element("FollowTrajectoryAction", [], [
      Element("TrajectoryRef", [], [BuildPolylineTrajectory(o, fmt, rot)]),
      Element("TimeReference", [], [
        Leaf("Timing", [("domainAbsoluteRelative", "absolute"), ("offset", "0.0"), ("scale", "1.0")])]),
      Leaf("TrajectoryFollowingMode", [("followingMode", "position")])])
  }

  /** The Maneuver with its single Event and routing Action, named after the entity. */
  function Maneuver(o: ObjectRecord, fmt: Formatter, rot: Rotation): Element
  {
    var ref := o.entityRef;
    Element("Maneuver", [("name", ref + "_maneuver")], [
      Element("Event", [("name", ref + "_maneuver_event"), ("priority", "override")], [
        Element("Action", [("name", ref + "_maneuver_event_action")], [
          Element("PrivateAction", [], [
            Element("RoutingAction", [], [FollowTrajectoryAction(o, fmt, rot)])])])])])
  }

  /** build_act: one Act that makes the object follow its trajectory with absolute timing. */
  function BuildAct(o: ObjectRecord, fmt: Formatter, rot: Rotation): (act: Element)
    ensures act.tag == "Act" && Attr(act, "name") == Some(VehicleName(o.id) + "_act")
  {
    Element("Act", [("name", VehicleName(o.id) + "_act")], [
      Element("ManeuverGroup", [("name", VehicleName(o.id) + "_maneuvergroup"), ("maximumExecutionCount", "1")], [
        Element("Actors", [("selectTriggeringEntities", "false")], [Leaf("EntityRef", [("entityRef", o.entityRef)])]),
        Maneuver(o, fmt, rot)])])
  }

  /** Following a path in two parts. */
  lemma {:induction false} FindAppend(e: Element, p: seq<string>, q: seq<string>)
    ensures Find(e, p + q) == if Find(e, p).Some? then Find(Find(e, p).value, q) else None
    decreases |p|
  {
    if p != [] {
      assert (p + q)[0] == p[0] && (p + q)[1..] == p[1..] + q;
      if Child(e, p[0]).Some? {
        FindAppend(Child(e, p[0]).value, p[1..], q);
      }
    } else {
      assert p + q == q;
    }
  }

  lemma FindTwo(e: Element, t1: string, t2: string, c1: Element, c2: Element)
    requires Child(e, t1) == Some(c1) && Child(c1, t2) == Some(c2)
    ensures Find(e, [t1, t2]) == Some(c2)
  {
    FindStep(e, t1, [t2], c1);
    FindStep(c1, t2, [], c2);
    assert [t1, t2] == [t1] + [t2] && [t2] == [t2] + [];
  }

  lemma ManeuverToFollow(o: ObjectRecord, fmt: Formatter, rot: Rotation)
    ensures Find(Maneuver(o, fmt, rot), MANEUVER_TO_FOLLOW) == Some(FollowTrajectoryAction(o, fmt, rot))
  {
    var m := Maneuver(o, fmt, rot);
    var event := m.children[0];
    var action := event.children[0];
    var privateAction := action.children[0];
    var routing := privateAction.children[0];
    FindTwo(m, "Event", "Action", event, action);
    FindTwo(action, "PrivateAction", "RoutingAction", privateAction, routing);
    FindStep(routing, "FollowTrajectoryAction", [], routing.children[0]);
    assert ["FollowTrajectoryAction"] == ["FollowTrajectoryAction"] + [];
    FindAppend(action, ["PrivateAction", "RoutingAction"], ["FollowTrajectoryAction"]);
    assert ["PrivateAction", "RoutingAction"] + ["FollowTrajectoryAction"] ==
      ["PrivateAction", "RoutingAction", "FollowTrajectoryAction"];
    FindAppend(m, ["Event", "Action"], ["PrivateAction", "RoutingAction", "FollowTrajectoryAction"]);
    assert ["Event", "Action"] + ["PrivateAction", "RoutingAction", "FollowTrajectoryAction"] == MANEUVER_TO_FOLLOW;
  }

  lemma FollowToPolyline(o: ObjectRecord, fmt: Formatter, rot: Rotation)
    ensures Find(FollowTrajectoryAction(o, fmt, rot), FOLLOW_TO_POLYLINE) == Some(Polyline(o, fmt, rot))
  {
    var f := FollowTrajectoryAction(o, fmt, rot);
    var t := BuildPolylineTrajectory(o, fmt, rot);
    var shape := t.children[0];
    FindTwo(f, "TrajectoryRef", "Trajectory", f.children[0], t);
    FindTwo(t, "Shape", "Polyline", shape, shape.children[0]);
    FindAppend(f, ["TrajectoryRef", "Trajectory"], ["Shape", "Polyline"]);
    assert ["TrajectoryRef", "Trajectory"] + ["Shape", "Polyline"] == FOLLOW_TO_POLYLINE;
  }

  /** The Act moves the object's own entity. */
  lemma ActActor(o: ObjectRecord, fmt: Formatter, rot: Rotation)
    ensures var actor := Find(BuildAct(o, fmt, rot), ACT_TO_ACTOR);
      actor.Some? && Attr(actor.value, "entityRef") == Some(o.entityRef)
  {
    var act := BuildAct(o, fmt, rot);
    var group := act.children[0];
    var actors := group.children[0];
    assert ACT_TO_ACTOR == [ACT_TO_ACTOR[0], ACT_TO_ACTOR[1]] + ACT_TO_ACTOR[2..];
    FindTwo(act, "ManeuverGroup", "Actors", group, actors);
    FindAppend(act, [ACT_TO_ACTOR[0], ACT_TO_ACTOR[1]], ACT_TO_ACTOR[2..]);
    FindStep(actors, "EntityRef", [], actors.children[0]);
    assert ACT_TO_ACTOR[2..] == ["EntityRef"] + [];
  }

  lemma ActToManeuver(o: ObjectRecord, fmt: Formatter, rot: Rotation)
    ensures Find(BuildAct(o, fmt, rot), ACT_TO_MANEUVER) == Some(Maneuver(o, fmt, rot))
  {
    var act := BuildAct(o, fmt, rot);
    var group := act.children[0];
    ChildAt(group, 1);
    FindTwo(act, "ManeuverGroup", "Maneuver", group, Maneuver(o, fmt, rot));
  }

  /** The Act leads through its FollowTrajectoryAction to the object's polyline. */
  lemma ActPolyline(o: ObjectRecord, fmt: Formatter, rot: Rotation)
    ensures Find(BuildAct(o, fmt, rot), ACT_TO_POLYLINE) == Some(Polyline(o, fmt, rot))
    ensures Find(BuildAct(o, fmt, rot), ACT_TO_FOLLOW) == Some(FollowTrajectoryAction(o, fmt, rot))
  {
    var act := BuildAct(o, fmt, rot);
    ActToManeuver(o, fmt, rot);
    ManeuverToFollow(o, fmt, rot);
    FollowToPolyline(o, fmt, rot);
    FindAppend(act, ACT_TO_MANEUVER, MANEUVER_TO_FOLLOW);
    FindAppend(act, ACT_TO_FOLLOW, FOLLOW_TO_POLYLINE);
  }

  /** The Act moves the object's own entity, along a polyline with a vertex per trajectory row. */
  lemma ActContents(o: ObjectRecord, fmt: Formatter, rot: Rotation)
    ensures var actor := Find(BuildAct(o, fmt, rot), ACT_TO_ACTOR);
      actor.Some? && Attr(actor.value, "entityRef") == Some(o.entityRef)
    ensures Find(BuildAct(o, fmt, rot), ACT_TO_POLYLINE) == Some(Polyline(o, fmt, rot))
    ensures Find(BuildAct(o, fmt, rot), ACT_TO_FOLLOW) == Some(FollowTrajectoryAction(o, fmt, rot))
  {
    ActActor(o, fmt, rot);
    ActPolyline(o, fmt, rot);
  }

  /** An Act runs once, and its event overrides whatever the entity was doing. */
  lemma ActSettings(o: ObjectRecord, fmt: Formatter, rot: Rotation)
    ensures var group := Find(BuildAct(o, fmt, rot), ["ManeuverGroup"]);
      group.Some? && Attr(group.value, "maximumExecutionCount") == Some("1")
    ensures var event := Find(BuildAct(o, fmt, rot), ACT_TO_EVENT);
      event.Some? && Attr(event.value, "priority") == Some("override")
  {
    var act := BuildAct(o, fmt, rot);
    var group := act.children[0];
    FindStep(act, "ManeuverGroup", [], group);
    assert ["ManeuverGroup"] == ["ManeuverGroup"] + [];
    LookupAt(group.attrs, 1);
    var maneuver := Maneuver(o, fmt, rot);
    var event := maneuver.children[0];
    LookupAt(event.attrs, 1);
    ActToManeuver(o, fmt, rot);
    FindStep(maneuver, "Event", [], event);
    assert ["Event"] == ["Event"] + [];
    FindAppend(act, ACT_TO_MANEUVER, ["Event"]);
  }

  /** The trajectory is followed by position, with absolute, unshifted and unscaled timing. */
  lemma FollowSettings(o: ObjectRecord, fmt: Formatter, rot: Rotation)
    ensures var timing := Find(FollowTrajectoryAction(o, fmt, rot), ["TimeReference", "Timing"]);
      timing.Some? && timing.value.attrs == [("domainAbsoluteRelative", "absolute"), ("offset", "0.0"), ("scale", "1.0")]
    ensures var mode := Find(FollowTrajectoryAction(o, fmt, rot), ["TrajectoryFollowingMode"]);
      mode.Some? && Attr(mode.value, "followingMode") == Some("position")
  {
    var f := FollowTrajectoryAction(o, fmt, rot);
    ChildAt(f, 1);
    FindTwo(f, "TimeReference", "Timing", f.children[1], f.children[1].children[0]);
    ChildAt(f, 2);
    FindStep(f, "TrajectoryFollowingMode", [], f.children[2]);
    assert ["TrajectoryFollowingMode"] == ["TrajectoryFollowingMode"] + [];
  }

  /** A vertex keeps the row's orientation and moves its position back by the rotated rear offset. */
  lemma VertexPosition(row: Row, off: RearOffset, fmt: Formatter, rot: Rotation)
    ensures var shift := rot(off.x.Value(), off.y.Value(), off.z.Value(), row.h, row.p, row.r);
      var w := Find(Vertex(row, off, fmt, rot), ["Position", "WorldPosition"]);
      w.Some? && w.value.attrs == [("x", fmt(row.x - shift.0)), ("y", fmt(row.y - shift.1)), ("z", fmt(row.z - shift.2)),
                                   ("h", fmt(row.h)), ("p", fmt(row.p)), ("r", fmt(row.r))]
  {
    var v := Vertex(row, off, fmt, rot);
    FindTwo(v, "Position", "WorldPosition", v.children[0], v.children[0].children[0]);
  }

  /** build_init_action: a teleport of the entity to the world origin. */
  function BuildInitAction(o: ObjectRecord): (p: Element)
    ensures p.tag == "Private" && Attr(p, "entityRef") == Some(o.entityRef)
  {
    Element("Private", [("entityRef", o.entityRef)], [
      Element("PrivateAction", [], [
        Element("TeleportAction", [], [
          Element("Position", [], [
            Leaf("WorldPosition", [("x", "0"), ("y", "0"), ("z", "0"), ("h", "0"), ("p", "0"), ("r", "0")])])])])])
  }

  /*
   * The whole document.
   */

  /** Every object has a vehicle classification type the category table knows. */
  predicate KnownVehicleTypes(os: seq<ObjectRecord>)
  {
    forall i :: 0 <= i < |os| ==> VehicleCategory(os[i].vehicleType).Ok?
  }

  function ScenarioObjects(os: seq<ObjectRecord>, fmt: Formatter): (es: seq<Element>)
    requires KnownVehicleTypes(os)
    ensures |es| == |os| && forall i :: 0 <= i < |os| ==> es[i] == BuildScenarioObject(os[i], fmt).value
  {
    seq(|os|, i requires 0 <= i < |os| => BuildScenarioObject(os[i], fmt).value)
  }

  function Acts(os: seq<ObjectRecord>, fmt: Formatter, rot: Rotation): (es: seq<Element>)
    ensures |es| == |os| && forall i :: 0 <= i < |os| ==> es[i] == BuildAct(os[i], fmt, rot)
  {
    seq(|os|, i requires 0 <= i < |os| => BuildAct(os[i], fmt, rot))
  }

  function InitActions(os: seq<ObjectRecord>): (es: seq<Element>)
    ensures |es| == |os| && forall i :: 0 <= i < |os| ==> es[i] == BuildInitAction(os[i])
  {
    seq(|os|, i requires 0 <= i < |os| => BuildInitAction(os[i]))
  }

  /** The storyboard stop trigger: the simulation time passing the last time stamp of the trace. */
  function StopTrigger(stop: real, fmt: Formatter): Element
  {
    Element("StopTrigger", [], [
      Element("ConditionGroup", [], [
        Element("Condition", [("name", "End"), ("delay", "0"), ("conditionEdge", "rising")], [
          Element("ByValueCondition", [], [
            Leaf("SimulationTimeCondition", [("value", fmt(stop)), ("rule", "greaterThan")])])])])])
  }

  /** The OpenSCENARIO root around the entity, init and act lists. */
  function Assemble(scenarioObjects: seq<Element>, initActions: seq<Element>, acts: seq<Element>, stop: real,
                    xodr: Option<string>, date: string, fmt: Formatter): Element
  {
    Element("OpenSCENARIO", [], [
      Element("FileHeader", [("revMajor", NatToString(XOSC_VERSION_MAJOR)), ("revMinor", NatToString(XOSC_VERSION_MINOR)),
                             ("date", date), ("author", XOSC_AUTHOR), ("description", XOSC_DESCRIPTION)], [
        Leaf("License", [("name", XOSC_LICENSE), ("resource", XOSC_LICENSE_RESOURCE)])]),
      Leaf("CatalogLocations", []),
      Element("RoadNetwork", [], if xodr.Some? then [Leaf("LogicFile", [("filepath", xodr.value)])] else []),
      Element("Entities", [], scenarioObjects),
      Element("Storyboard", [], [
        Element("Init", [], [Element("Actions", [], initActions)]),
        Element("Story", [("name", STORY_NAME)], acts),
        StopTrigger(stop, fmt)])])
  }

  /** The objects of a trace whose first message is a SensorView, with its host vehicle. */
  function TraceObjects(ms: seq<Message>): seq<ObjectRecord>
    requires ms != [] && ms[0].SV?
  {
    ParsedObjects(Samples(ms), ms[0].sv.globalGroundTruth.hostVehicleId)
  }

  /**
   * osi2osc: the document written for a trace, or the exception raised on
   * the way.  The checks come in the order the source meets them: channel
   * info needs a message with a version, the host vehicle id is read from the
   * global ground truth of the first message, parsing asserts that every
   * message is a SensorView, and the category table rejects unknown vehicle
   * types.
   */
  function Osi2OscDocument(ms: seq<Message>, xodr: Option<string>, date: string, fmt: Formatter, rot: Rotation)
    : (r: Result<Element>)
    ensures r.Ok? ==> ms != [] && AllSensorViews(ms) && KnownVehicleTypes(TraceObjects(ms))
    ensures r.Err? && ChannelInfoOf(Headers(ms)).Err? ==> r.error == UnboundLocalError
    ensures ChannelInfoOf(Headers(ms)).Ok? ==> ms != []
    ensures ChannelInfoOf(Headers(ms)).Ok? && ms[0].GT? ==> r == Err(AttributeError)
    ensures ChannelInfoOf(Headers(ms)).Ok? && ms[0].SV? && !AllSensorViews(ms) ==> r == Err(AssertionError)
    ensures ChannelInfoOf(Headers(ms)).Ok? && AllSensorViews(ms) ==>
      (r.Ok? <==> KnownVehicleTypes(TraceObjects(ms))) && (r.Err? ==> r.error == KeyError)
  {
    var info :- ChannelInfoOf(Headers(ms));
    if ms[0].GT? then Err(AttributeError)
    else if !AllSensorViews(ms) then Err(AssertionError)
    else
      var os := TraceObjects(ms);
      if !KnownVehicleTypes(os) then Err(KeyError)
      else Ok(Assemble(ScenarioObjects(os, fmt), InitActions(os), Acts(os, fmt, rot), info.stop, xodr, date, fmt))
  }

  /** Where Assemble puts its parts. */
  lemma AssembleParts(scenarioObjects: seq<Element>, initActions: seq<Element>, acts: seq<Element>, stop: real,
                      xodr: Option<string>, date: string, fmt: Formatter)
    ensures var doc := Assemble(scenarioObjects, initActions, acts, stop, xodr, date, fmt);
      Find(doc, ["Entities"]) == Some(Element("Entities", [], scenarioObjects))

    ensures var doc := Assemble(scenarioObjects, initActions, acts, stop, xodr, date, fmt);
      Find(doc, ["Storyboard", "Init", "Actions"]) == Some(Element("Actions", [], initActions))
    ensures var doc := Assemble(scenarioObjects, initActions, acts, stop, xodr, date, fmt);
      Find(doc, ["Storyboard", "Story"]) == Some(Element("Story", [("name", STORY_NAME)], acts))
    ensures var doc := Assemble(scenarioObjects, initActions, acts, stop, xodr, date, fmt);
      Find(doc, ["Storyboard", "StopTrigger"]) == Some(StopTrigger(stop, fmt))
  {
    var doc := Assemble(scenarioObjects, initActions, acts, stop, xodr, date, fmt);
    var board := doc.children[4];
    var init := board.children[0];
    ChildAt(doc, 3);
    FindStep(doc, "Entities", [], doc.children[3]);
    assert ["Entities"] == ["Entities"] + [];
    ChildAt(doc, 4);
    FindTwo(doc, "Storyboard", "Init", board, init);
    FindStep(init, "Actions", [], init.children[0]);
    FindAppend(doc, ["Storyboard", "Init"], ["Actions"]);
    assert ["Storyboard", "Init", "Actions"] == ["Storyboard", "Init"] + ["Actions"];
    assert ["Actions"] == ["Actions"] + [];
    ChildAt(board, 1);
    FindTwo(doc, "Storyboard", "Story", board, board.children[1]);
    ChildAt(board, 2);
    FindTwo(doc, "Storyboard", "StopTrigger", board, board.children[2]);
  }

  lemma AssembleRoadNetwork(scenarioObjects: seq<Element>, initActions: seq<Element>, acts: seq<Element>, stop: real,
                            xodr: Option<string>, date: string, fmt: Formatter)
    ensures var doc := Assemble(scenarioObjects, initActions, acts, stop, xodr, date, fmt);
      ChildrenAt(doc, ["RoadNetwork"]) == if xodr.Some? then [Leaf("LogicFile", [("filepath", xodr.value)])] else []
  {
    var doc := Assemble(scenarioObjects, initActions, acts, stop, xodr, date, fmt);
    ChildAt(doc, 2);
    FindStep(doc, "RoadNetwork", [], doc.children[2]);
    assert ["RoadNetwork"] == ["RoadNetwork"] + [];
  }

  /** The simulation time condition inside the stop trigger compares with the given time. */
  lemma StopTriggerTime(stop: real, fmt: Formatter)
    ensures var c := Find(StopTrigger(stop, fmt), TRIGGER_TO_CONDITION);
      c.Some? && Attr(c.value, "value") == Some(fmt(stop)) && Attr(c.value, "rule") == Some("greaterThan")
  {
    var t := StopTrigger(stop, fmt);
    var group := t.children[0];
    var cond := group.children[0];
    var byValue := cond.children[0];
    FindTwo(t, "ConditionGroup", "Condition", group, cond);
    FindTwo(cond, "ByValueCondition", "SimulationTimeCondition", byValue, byValue.children[0]);
    FindAppend(t, ["ConditionGroup", "Condition"], ["ByValueCondition", "SimulationTimeCondition"]);
    assert TRIGGER_TO_CONDITION == ["ConditionGroup", "Condition"] + ["ByValueCondition", "SimulationTimeCondition"];
    LookupAt(byValue.children[0].attrs, 1);
  }

  /** Different objects get different entity names, the host vehicle included. */
  lemma EntityRefsDistinct(a: nat, b: nat, host: nat)
    requires a != b
    ensures EntityRef(a, a == host) != EntityRef(b, b == host)
  {
    if a != host && b != host && EntityRef(a, false) == EntityRef(b, false) {
      EntityRefInjective(a, b);
    }
  }

  /** The entity name and the sample count of the k-th parsed object. */
  lemma ParsedObjectAt(s: seq<Sample>, host: nat, k: nat)
    requires k < |ParsedObjects(s, host)|
    ensures var id := Distinct(Ids(s))[k];
      ParsedObjects(s, host)[k].id == id && ParsedObjects(s, host)[k].entityRef == EntityRef(id, id == host)
    ensures |ParsedObjects(s, host)[k].trajectory| == multiset(Ids(s))[Distinct(Ids(s))[k]]
    ensures var id := Distinct(Ids(s))[k];
      id in Ids(s) && ParsedObjects(s, host)[k].trajectory == RowsOf(s, id) &&
      ParsedObjects(s, host)[k].lengthStatic == FirstSampleOf(s, id).obj.dimension.length &&
      ParsedObjects(s, host)[k].widthStatic == FirstSampleOf(s, id).obj.dimension.width &&
      ParsedObjects(s, host)[k].heightStatic == FirstSampleOf(s, id).obj.dimension.height
  {
    DistinctMembers(Ids(s));
    RowsOfCount(s, Distinct(Ids(s))[k]);
  }

  /** The ScenarioObjects of parsed objects: one per distinct id, named after it, no name used twice. */
  lemma ScenarioObjectsNamed(s: seq<Sample>, host: nat, fmt: Formatter)
    requires KnownVehicleTypes(ParsedObjects(s, host))
    ensures |ScenarioObjects(ParsedObjects(s, host), fmt)| == |Distinct(Ids(s))|
    ensures var es := ScenarioObjects(ParsedObjects(s, host), fmt);
      var d := Distinct(Ids(s));
      forall i :: 0 <= i < |es| ==> es[i].tag == "ScenarioObject" && Attr(es[i], "name") == Some(EntityRef(d[i], d[i] == host))
    ensures var es := ScenarioObjects(ParsedObjects(s, host), fmt);
      forall i, j :: 0 <= i < j < |es| ==> Attr(es[i], "name") != Attr(es[j], "name")
  {
    var es := ScenarioObjects(ParsedObjects(s, host), fmt);
    var d := Distinct(Ids(s));
    forall i | 0 <= i < |es|
      ensures Attr(es[i], "name") == Some(EntityRef(d[i], d[i] == host))
    {
      ParsedObjectAt(s, host, i);
    }
    DistinctMembers(Ids(s));
    forall i, j | 0 <= i < j < |es|
      ensures Attr(es[i], "name") != Attr(es[j], "name")
    {
      EntityRefsDistinct(d[i], d[j], host);
    }
  }

  /** The entity, init and story lists of a written document are the ones built from the parsed objects. */
  lemma DocumentLists(ms: seq<Message>, xodr: Option<string>, date: string, fmt: Formatter, rot: Rotation)
    requires Osi2OscDocument(ms, xodr, date, fmt, rot).Ok?
    ensures ms != [] && ms[0].SV? && KnownVehicleTypes(TraceObjects(ms))
    ensures var doc := Osi2OscDocument(ms, xodr, date, fmt, rot).value;
      ChildrenAt(doc, ["Entities"]) == ScenarioObjects(TraceObjects(ms), fmt) &&
      ChildrenAt(doc, ["Storyboard", "Init", "Actions"]) == InitActions(TraceObjects(ms)) &&
      ChildrenAt(doc, ["Storyboard", "Story"]) == Acts(TraceObjects(ms), fmt, rot)
  {
    var os := TraceObjects(ms);
    var info := ChannelInfoOf(Headers(ms)).value;
    AssembleParts(ScenarioObjects(os, fmt), InitActions(os), Acts(os, fmt, rot), info.stop, xodr, date, fmt);
  }

  /**
   * The Entities of the document: one ScenarioObject per distinct object id
   * of the trace, in order of first appearance, named "Ego" for the host
   * vehicle and after the id otherwise, with no name used twice.
   */
  lemma DocumentEntities(ms: seq<Message>, xodr: Option<string>, date: string, fmt: Formatter, rot: Rotation)
    requires Osi2OscDocument(ms, xodr, date, fmt, rot).Ok?
    ensures var es := ChildrenAt(Osi2OscDocument(ms, xodr, date, fmt, rot).value, ["Entities"]);
      |es| == |Distinct(Ids(Samples(ms)))|
    ensures var es := ChildrenAt(Osi2OscDocument(ms, xodr, date, fmt, rot).value, ["Entities"]);
      var d := Distinct(Ids(Samples(ms)));
      var host := ms[0].sv.globalGroundTruth.hostVehicleId;
      forall i :: 0 <= i < |es| ==> es[i].tag == "ScenarioObject" && Attr(es[i], "name") == Some(EntityRef(d[i], d[i] == host))
    ensures var es := ChildrenAt(Osi2OscDocument(ms, xodr, date, fmt, rot).value, ["Entities"]);
      forall i, j :: 0 <= i < j < |es| ==> Attr(es[i], "name") != Attr(es[j], "name")
  {
    DocumentLists(ms, xodr, date, fmt, rot);
    ScenarioObjectsNamed(Samples(ms), ms[0].sv.globalGroundTruth.hostVehicleId, fmt);
  }

  /** A name list built by EntityRef contains "Ego" exactly when the host id is among the ids. */
  lemma EgoDeclared(es: seq<Element>, d: seq<nat>, host: nat)
    requires |es| == |d| && forall i :: 0 <= i < |es| ==> Attr(es[i], "name") == Some(EntityRef(d[i], d[i] == host))
    ensures (exists i :: 0 <= i < |es| && Attr(es[i], "name") == Some("Ego")) <==> host in d
  {
    if host in d {
      var i :| 0 <= i < |d| && d[i] == host;
      assert Attr(es[i], "name") == Some("Ego");
    }
  }

  /** The host vehicle's entity "Ego" is declared exactly when the host vehicle id occurs in the trace. */
  lemma DocumentEgo(ms: seq<Message>, xodr: Option<string>, date: string, fmt: Formatter, rot: Rotation)
    requires Osi2OscDocument(ms, xodr, date, fmt, rot).Ok?
    ensures var es := ChildrenAt(Osi2OscDocument(ms, xodr, date, fmt, rot).value, ["Entities"]);
      (exists i :: 0 <= i < |es| && Attr(es[i], "name") == Some("Ego")) <==>
      ms[0].sv.globalGroundTruth.hostVehicleId in Ids(Samples(ms))
  {
    var es := ChildrenAt(Osi2OscDocument(ms, xodr, date, fmt, rot).value, ["Entities"]);
    DocumentEntities(ms, xodr, date, fmt, rot);
    DistinctMembers(Ids(Samples(ms)));
    EgoDeclared(es, Distinct(Ids(Samples(ms))), ms[0].sv.globalGroundTruth.hostVehicleId);
  }

  /**
   * The Story holds one Act per entity, in the same order: the k-th Act moves
   * the k-th declared entity along a polyline with one vertex per sample of
   * that object, and the k-th init action places the same entity.
   */
  lemma DocumentStory(ms: seq<Message>, xodr: Option<string>, date: string, fmt: Formatter, rot: Rotation)
    requires Osi2OscDocument(ms, xodr, date, fmt, rot).Ok?
    ensures var doc := Osi2OscDocument(ms, xodr, date, fmt, rot).value;
      |ChildrenAt(doc, ["Storyboard", "Story"])| == |ChildrenAt(doc, ["Entities"])| &&
      |ChildrenAt(doc, ["Storyboard", "Init", "Actions"])| == |ChildrenAt(doc, ["Entities"])|
    ensures var doc := Osi2OscDocument(ms, xodr, date, fmt, rot).value;
      var es := ChildrenAt(doc, ["Entities"]);
      var acts := ChildrenAt(doc, ["Storyboard", "Story"]);
      forall k :: 0 <= k < |acts| && k < |es| ==>
        Find(acts[k], ACT_TO_ACTOR).Some? && Attr(Find(acts[k], ACT_TO_ACTOR).value, "entityRef") == Attr(es[k], "name")
    ensures var doc := Osi2OscDocument(ms, xodr, date, fmt, rot).value;
      var es := ChildrenAt(doc, ["Entities"]);
      var inits := ChildrenAt(doc, ["Storyboard", "Init", "Actions"]);
      forall k :: 0 <= k < |inits| && k < |es| ==> Attr(inits[k], "entityRef") == Attr(es[k], "name")
    ensures var doc := Osi2OscDocument(ms, xodr, date, fmt, rot).value;
      var acts := ChildrenAt(doc, ["Storyboard", "Story"]);
      var d := Distinct(Ids(Samples(ms)));
      forall k :: 0 <= k < |acts| && k < |d| ==>
        |ChildrenAt(acts[k], ACT_TO_POLYLINE)| == multiset(Ids(Samples(ms)))[d[k]]
  {
    DocumentLists(ms, xodr, date, fmt, rot);
    ActsFollowObjects(Samples(ms), ms[0].sv.globalGroundTruth.hostVehicleId, fmt, rot);
  }

  /** The k-th Act moves the k-th object's entity along one vertex per sample of that object. */
  lemma ActsFollowObjects(s: seq<Sample>, host: nat, fmt: Formatter, rot: Rotation)
    requires KnownVehicleTypes(ParsedObjects(s, host))
    ensures var os := ParsedObjects(s, host);
      var acts := Acts(os, fmt, rot);
      var es := ScenarioObjects(os, fmt);
      forall k :: 0 <= k < |acts| ==>
        Find(acts[k], ACT_TO_ACTOR).Some? && Attr(Find(acts[k], ACT_TO_ACTOR).value, "entityRef") == Attr(es[k], "name")
    ensures var os := ParsedObjects(s, host);
      forall k :: 0 <= k < |os| ==> Attr(InitActions(os)[k], "entityRef") == Attr(ScenarioObjects(os, fmt)[k], "name")
    ensures var acts := Acts(ParsedObjects(s, host), fmt, rot);
      var d := Distinct(Ids(s));
      forall k :: 0 <= k < |acts| && k < |d| ==> |ChildrenAt(acts[k], ACT_TO_POLYLINE)| == multiset(Ids(s))[d[k]]
  {
    var os := ParsedObjects(s, host);
    forall k | 0 <= k < |os|
      ensures Find(BuildAct(os[k], fmt, rot), ACT_TO_ACTOR).Some?
      ensures Attr(Find(BuildAct(os[k], fmt, rot), ACT_TO_ACTOR).value, "entityRef") == Some(os[k].entityRef)
      ensures |ChildrenAt(BuildAct(os[k], fmt, rot), ACT_TO_POLYLINE)| == multiset(Ids(s))[Distinct(Ids(s))[k]]
    {
      ActContents(os[k], fmt, rot);
      ParsedObjectAt(s, host, k);
    }
  }

  /** The path from the document root to the simulation time condition that ends the storyboard. */
  const STOP_CONDITION: seq<string> := ["Storyboard", "StopTrigger"] + TRIGGER_TO_CONDITION

  /** The path from the stop trigger to its simulation time condition. */
  const TRIGGER_TO_CONDITION: seq<string> := ["ConditionGroup", "Condition", "ByValueCondition", "SimulationTimeCondition"]

  lemma AssembleStopCondition(scenarioObjects: seq<Element>, initActions: seq<Element>, acts: seq<Element>, stop: real,
                              xodr: Option<string>, date: string, fmt: Formatter)
    ensures var c := Find(Assemble(scenarioObjects, initActions, acts, stop, xodr, date, fmt), STOP_CONDITION);
      c.Some? && Attr(c.value, "value") == Some(fmt(stop)) && Attr(c.value, "rule") == Some("greaterThan")
  {
    var doc := Assemble(scenarioObjects, initActions, acts, stop, xodr, date, fmt);
    AssembleParts(scenarioObjects, initActions, acts, stop, xodr, date, fmt);
    StopTriggerTime(stop, fmt);
    FindAppend(doc, ["Storyboard", "StopTrigger"], TRIGGER_TO_CONDITION);
  }

  /** The road network names an OpenDRIVE logic file exactly when a path was given. */
  lemma DocumentRoadNetwork(ms: seq<Message>, xodr: Option<string>, date: string, fmt: Formatter, rot: Rotation)
    requires Osi2OscDocument(ms, xodr, date, fmt, rot).Ok?
    ensures var files := ChildrenAt(Osi2OscDocument(ms, xodr, date, fmt, rot).value, ["RoadNetwork"]);
      (|files| == 1 <==> xodr.Some?) && (|files| == 0 <==> xodr.None?)
    ensures var files := ChildrenAt(Osi2OscDocument(ms, xodr, date, fmt, rot).value, ["RoadNetwork"]);
      xodr.Some? ==> files[0].tag == "LogicFile" && Attr(files[0], "filepath") == xodr
  {
    var os := TraceObjects(ms);
    var info := ChannelInfoOf(Headers(ms)).value;
    AssembleRoadNetwork(ScenarioObjects(os, fmt), InitActions(os), Acts(os, fmt, rot), info.stop, xodr, date, fmt);
  }

  /** The stop trigger fires once simulation time passes the time stamp of the last message. */
  lemma DocumentStopTrigger(ms: seq<Message>, xodr: Option<string>, date: string, fmt: Formatter, rot: Rotation)
    requires Osi2OscDocument(ms, xodr, date, fmt, rot).Ok?
    ensures var c := Find(Osi2OscDocument(ms, xodr, date, fmt, rot).value, STOP_CONDITION);
      c.Some? && Attr(c.value, "value") == Some(fmt(Seconds(HeaderOf(ms[|ms| - 1])))) &&
      Attr(c.value, "rule") == Some("greaterThan")
  {
    var os := TraceObjects(ms);
    var info := ChannelInfoOf(Headers(ms)).value;
    assert info.stop == Seconds(HeaderOf(ms[|ms| - 1]));
    AssembleStopCondition(ScenarioObjects(os, fmt), InitActions(os), Acts(os, fmt, rot), info.stop, xodr, date, fmt);
  }

  /** The element lists of the first i objects: what the loop below has built after i rounds. */
  predicate ElementsBuilt(os: seq<ObjectRecord>, fmt: Formatter, rot: Rotation, i: nat,
                          scenarioObjects: seq<Element>, acts: seq<Element>)
  {
    i <= |os| && |scenarioObjects| == i && |acts| == i &&
    (forall k :: 0 <= k < i ==> VehicleCategory(os[k].vehicleType).Ok?) &&
    (forall k :: 0 <= k < i ==> scenarioObjects[k] == BuildScenarioObject(os[k], fmt).value) &&
    (forall k :: 0 <= k < i ==> acts[k] == BuildAct(os[k], fmt, rot))
  }

  lemma ElementsBuiltNext(os: seq<ObjectRecord>, fmt: Formatter, rot: Rotation, i: nat,
                          scenarioObjects: seq<Element>, acts: seq<Element>, scenarioObject: Element, act: Element)
    requires ElementsBuilt(os, fmt, rot, i, scenarioObjects, acts) && i < |os|
    requires BuildScenarioObject(os[i], fmt) == Ok(scenarioObject) && act == BuildAct(os[i], fmt, rot)
    ensures ElementsBuilt(os, fmt, rot, i + 1, scenarioObjects + [scenarioObject], acts + [act])
  {
    var built, acted := scenarioObjects + [scenarioObject], acts + [act];
    assert forall k :: 0 <= k < i ==> built[k] == scenarioObjects[k] && acted[k] == acts[k];
  }

  lemma ElementsBuiltAll(os: seq<ObjectRecord>, fmt: Formatter, rot: Rotation,
                         scenarioObjects: seq<Element>, acts: seq<Element>)
    requires ElementsBuilt(os, fmt, rot, |os|, scenarioObjects, acts)
    ensures KnownVehicleTypes(os) && scenarioObjects == ScenarioObjects(os, fmt) && acts == Acts(os, fmt, rot)
  {
  }

  /** The loop of osi2osc that builds a ScenarioObject and an Act per object. */
  method BuildObjectElements(os: seq<ObjectRecord>, fmt: Formatter, rot: Rotation)
    returns (r: Result<(seq<Element>, seq<Element>)>)
    ensures r.Ok? <==> KnownVehicleTypes(os)
    ensures r.Err? ==> r.error == KeyError
    ensures r.Ok? ==> KnownVehicleTypes(os) && r.value.0 == ScenarioObjects(os, fmt)
    ensures r.Ok? ==> r.value.1 == Acts(os, fmt, rot)
  {
    var scenarioObjects: seq<Element> := [];
    var acts: seq<Element> := [];
    for i := 0 to |os|
      invariant ElementsBuilt(os, fmt, rot, i, scenarioObjects, acts)
    {
      var scenarioObject := BuildScenarioObject(os[i], fmt);
      if scenarioObject.Err? {
        return Err(scenarioObject.error);
      }
      var act := BuildAct(os[i], fmt, rot);
      ElementsBuiltNext(os, fmt, rot, i, scenarioObjects, acts, scenarioObject.value, act);
      scenarioObjects := scenarioObjects + [scenarioObject.value];
      acts := acts + [act];
    }
    ElementsBuiltAll(os, fmt, rot, scenarioObjects, acts);
    return Ok((scenarioObjects, acts));
  }

  /** The loop of osi2osc that builds the init action of every object. */
  method BuildInitActions(objs: seq<OscMovingObject>) returns (initActions: seq<Element>)
    ensures initActions == InitActions(Records(objs))
  {
    initActions := [];
    for i := 0 to |objs|
      invariant |initActions| == i
      invariant forall k :: 0 <= k < i ==> initActions[k] == BuildInitAction(objs[k].Record())
    {
      initActions := initActions + [BuildInitAction(objs[i].Record())];
    }
  }

  /**
   * osi2osc: read the channel info and the host vehicle id, parse the moving
   * objects, build a ScenarioObject and an Act per object, then the init
   * actions, and assemble the document.  Writing the XML file is left out;
   * the result is the element tree that would be written.
   */
  method Osi2Osc(ms: seq<Message>, xodr: Option<string>, date: string, fmt: Formatter, rot: Rotation)
    returns (r: Result<Element>)
    ensures r == Osi2OscDocument(ms, xodr, date, fmt, rot)
  {
    var info := RetrieveChannelInfoFromData(Headers(ms));
    if info.Err? {
      return Err(info.error);
    }
    var stopTimestamp := info.value.stop;
    if ms[0].GT? {
      return Err(AttributeError);
    }
    var host := ms[0].sv.globalGroundTruth.hostVehicleId;
    var parsed := ParseMovingObjects(ms, host);
    if parsed.Err? {
      return Err(parsed.error);
    }
    var objs := parsed.value;
    var built := BuildObjectElements(Records(objs), fmt, rot);
    if built.Err? {
      return Err(built.error);
    }
    var initActions := BuildInitActions(objs);
    return Ok(Assemble(built.value.0, initActions, built.value.1, stopTimestamp, xodr, date, fmt));
  }
}
