/**
 * osi_channel_specification.py: the description of one OSI channel (file
 * path, message type, topic, metadata), the extension-to-format table, the
 * parser for the OSI trace file naming convention and the rule-based
 * validator.
 */
module ChannelSpec {
  import opened Common
  import opened Paths

  /*
   * FormatMapper
   */

  datatype TraceFileFormat = SingleChannel | MultiChannel

  /** The extension table in its insertion order, which decides the preferred extension per format. */
  const EXT_TO_FORMAT: seq<(string, TraceFileFormat)> :=
    [(".osi", SingleChannel), (".xz", SingleChannel), (".lzma", SingleChannel), (".mcap", MultiChannel)]

  /** The format registered for an extension in an ordered table. */
  function LookupFormat(table: seq<(string, TraceFileFormat)>, ext: string): (r: Option<TraceFileFormat>)
    ensures r.None? <==> forall i :: 0 <= i < |table| ==> table[i].0 != ext
  {
    if table == [] then None
    else if table[0].0 == ext then Some(table[0].1)
    else
      assert forall i :: 1 <= i < |table| ==> table[1..][i - 1] == table[i];
      LookupFormat(table[1..], ext)
  }

  /** The first extension of each format, as the loop of FormatMapper.__init__ keeps it. */
  function FirstExtensions(table: seq<(string, TraceFileFormat)>): (m: map<TraceFileFormat, string>)
    ensures forall f :: f in m <==> exists i :: 0 <= i < |table| && table[i].1 == f
  {
    if table == [] then map[]
    else
      var m := FirstExtensions(table[..|table| - 1]);
      var (ext, fmt) := table[|table| - 1];
      assert forall i :: 0 <= i < |table| - 1 ==> table[..|table| - 1][i] == table[i];
      if fmt in m then m else m[fmt := ext]
  }

  /** get_format on the fixed table: the extension's format after lower-casing it. */
  function FormatOf(extension: string): (r: Result<TraceFileFormat>)
    ensures r == Ok(SingleChannel) <==> Lower(extension) in [".osi", ".xz", ".lzma"]
    ensures r == Ok(MultiChannel) <==> Lower(extension) == ".mcap"
    ensures r.Err? ==> r.error == KeyError
  {
    match LookupFormat(EXT_TO_FORMAT, Lower(extension))
    case None => Err(KeyError)
    case Some(f) => Ok(f)
  }

  /** The loop keeps ".osi" for single-channel files and ".mcap" for multi-channel ones. */
  lemma FirstExtensionsOfTable()
    ensures FirstExtensions(EXT_TO_FORMAT) == map[SingleChannel := ".osi", MultiChannel := ".mcap"]
  {
    var t := EXT_TO_FORMAT;
    assert t[..4][..3] == t[..3] && t[..3][..2] == t[..2] && t[..2][..1] == t[..1] && t[..1][..0] == [];
    assert FirstExtensions(t[..1]) == map[SingleChannel := ".osi"];
    assert FirstExtensions(t[..2]) == map[SingleChannel := ".osi"];
    assert FirstExtensions(t[..3]) == map[SingleChannel := ".osi"];
    assert t[..4] == t;
  }

  /** get_extension on the fixed table: the first extension registered for the format. */
  function ExtensionOf(f: TraceFileFormat): (ext: string)
    ensures ext == (if f == SingleChannel then ".osi" else ".mcap")
  {
    FirstExtensionsOfTable();
    FirstExtensions(EXT_TO_FORMAT)[f]
  }

  /** Both formats survive the trip through their preferred extension. */
  lemma FormatOfExtension(f: TraceFileFormat)
    ensures FormatOf(ExtensionOf(f)) == Ok(f)
  {
    assert Lower(".osi") == ".osi";
    assert Lower(".mcap") == ".mcap";
  }

  /** The preferred extension is a path suffix. */
  lemma ExtensionIsSuffix(f: TraceFileFormat)
    ensures ValidSuffix(ExtensionOf(f)) && |ExtensionOf(f)| >= 2 && '.' !in ExtensionOf(f)[1..]
  {
  }

  class FormatMapper {
    const extToFormat: seq<(string, TraceFileFormat)>
    const formatToExt: map<TraceFileFormat, string>

    predicate Valid()
    {
      extToFormat == EXT_TO_FORMAT && formatToExt == FirstExtensions(EXT_TO_FORMAT)
    }

    /** Fills format_to_ext with the first extension met for each format. */
    constructor()
      ensures Valid()
    {
      extToFormat := EXT_TO_FORMAT;
      var m: map<TraceFileFormat, string> := map[];
      for i := 0 to |EXT_TO_FORMAT|
        invariant m == FirstExtensions(EXT_TO_FORMAT[..i])
      {
        var (ext, fmt) := EXT_TO_FORMAT[i];
        assert EXT_TO_FORMAT[..i + 1][..i] == EXT_TO_FORMAT[..i];
        if fmt !in m {
          m := m[fmt := ext];
        }
      }
      assert EXT_TO_FORMAT[..|EXT_TO_FORMAT|] == EXT_TO_FORMAT;
      formatToExt := m;
    }

    function GetFormat(extension: string): (r: Result<TraceFileFormat>)
      requires Valid()
      ensures r == FormatOf(extension)
    {
      match LookupFormat(extToFormat, Lower(extension))
      case None => Err(KeyError)
      case Some(f) => Ok(f)
    }

    function GetExtension(f: TraceFileFormat): (ext: string)
      requires Valid()
      ensures ext == ExtensionOf(f)
    {
      formatToExt[f]
    }
  }

  /*
   * parse_osi_trace_filename
   */

  /** MESSAGE_TYPE_MAP: the type abbreviations of the naming convention. */
  const MESSAGE_TYPE_MAP: map<string, string> := map[
    "sv" := "SensorView",
    "svc" := "SensorViewConfiguration",
    "gt" := "GroundTruth",
    "hvd" := "HostVehicleData",
    "sd" := "SensorData",
    "tc" := "TrafficCommand",
    "tcu" := "TrafficCommandUpdate",
    "tu" := "TrafficUpdate",
    "mr" := "MotionRequest",
    "su" := "StreamingUpdate"
  ]

  /** No abbreviation contains the field separator. */
  lemma AbbreviationsWithoutSeparator(abbr: string)
    requires abbr in MESSAGE_TYPE_MAP
    ensures '_' !in abbr
  {
  }

  datatype DateTime = DateTime(year: nat, month: nat, day: nat, hour: nat, minute: nat, second: nat)

  predicate IsLeapYear(y: nat)
  {
    y % 4 == 0 && (y % 100 != 0 || y % 400 == 0)
  }

  function DaysInMonth(y: nat, m: nat): nat
  {
    if m == 2 then (if IsLeapYear(y) then 29 else 28)
    else if m == 4 || m == 6 || m == 9 || m == 11 then 30
    else 31
  }

  /**
   * What datetime.strptime accepts for "%Y%m%dT%H%M%SZ" on eight and six
   * digits: a real calendar date of year 1 or later and a time of day
   * without a leap second.
   */
  predicate ValidDateTime(dt: DateTime)
  {
    1 <= dt.year <= 9999 && 1 <= dt.month <= 12 && 1 <= dt.day <= DaysInMonth(dt.year, dt.month) &&
    dt.hour <= 23 && dt.minute <= 59 && dt.second <= 59
  }

  /** The timestamp field: eight digits, "T", six digits, "Z", read as a date and time. */
  function ParseTimestamp(ts: string): (r: Option<DateTime>)
    ensures r.Some? ==> ValidDateTime(r.value)
  {
    if |ts| == 16 && AllDigits(ts[..8]) && ts[8] == 'T' && AllDigits(ts[9..15]) && ts[15] == 'Z' then
      var date, time := ts[..8], ts[9..15];
      var dt := DateTime(DecimalValue(date[..4]), DecimalValue(date[4..6]), DecimalValue(date[6..]),
                         DecimalValue(time[..2]), DecimalValue(time[2..4]), DecimalValue(time[4..]));
      if ValidDateTime(dt) then Some(dt) else None
    else None
  }

  /** strftime("%Y%m%dT%H%M%SZ"). */
  function TimestampString(dt: DateTime): string
  {
    PaddedDigits(dt.year, 4) + PaddedDigits(dt.month, 2) + PaddedDigits(dt.day, 2) + "T" +
    PaddedDigits(dt.hour, 2) + PaddedDigits(dt.minute, 2) + PaddedDigits(dt.second, 2) + "Z"
  }

  /** Three zero-padded numbers side by side read back as those numbers. */
  lemma PaddedTripleValue(a: nat, wa: nat, b: nat, c: nat)
    requires a < Pow10(wa) && b < 100 && c < 100
    ensures var s := PaddedDigits(a, wa) + PaddedDigits(b, 2) + PaddedDigits(c, 2);
      |s| == wa + 4 && AllDigits(s) &&
      DecimalValue(s[..wa]) == a && DecimalValue(s[wa..wa + 2]) == b && DecimalValue(s[wa + 2..]) == c
  {
    var pa, pb, pc := PaddedDigits(a, wa), PaddedDigits(b, 2), PaddedDigits(c, 2);
    var s := pa + pb + pc;
    AllDigitsConcat(pa, pb);
    AllDigitsConcat(pa + pb, pc);
    assert Pow10(2) == 100;
    PaddedDigitsValue(a, wa);
    PaddedDigitsValue(b, 2);
    PaddedDigitsValue(c, 2);
    ConcatSlices(pa, pb, pc);
  }

  /** Where the date and time digits sit in the strftime output. */
  lemma TimestampStringLayout(dt: DateTime)
    ensures var ts := TimestampString(dt);
      |ts| == 16 && ts[8] == 'T' && ts[15] == 'Z' &&
      ts[..8] == PaddedDigits(dt.year, 4) + PaddedDigits(dt.month, 2) + PaddedDigits(dt.day, 2) &&
      ts[9..15] == PaddedDigits(dt.hour, 2) + PaddedDigits(dt.minute, 2) + PaddedDigits(dt.second, 2)
  {
    var ts := TimestampString(dt);
    var date := PaddedDigits(dt.year, 4) + PaddedDigits(dt.month, 2) + PaddedDigits(dt.day, 2);
    var time := PaddedDigits(dt.hour, 2) + PaddedDigits(dt.minute, 2) + PaddedDigits(dt.second, 2);
    assert ts == date + "T" + (time + "Z") == (date + "T") + time + "Z";
    ConcatSlices(date, "T", time + "Z");
    ConcatSlices(date + "T", time, "Z");
    assert ts[8] == ts[8..9][0] && ts[15] == ts[15..][0];
  }

  lemma ParseTimestampString(dt: DateTime)
    requires ValidDateTime(dt)
    ensures ParseTimestamp(TimestampString(dt)) == Some(dt)
  {
    assert Pow10(4) == 10000;
    TimestampStringLayout(dt);
    PaddedTripleValue(dt.year, 4, dt.month, dt.day);
    PaddedTripleValue(dt.hour, 2, dt.minute, dt.second);
  }

  /** The custom name before ".osi" at the end of the name (regex "$" also allows one final newline). */
  function CustomName(rest: string): (r: Option<string>)
    ensures r.Some? ==> r.value != "" && '.' !in r.value && (rest == r.value + ".osi" || rest == r.value + ".osi\n")
  {
    if |rest| > 4 && rest[|rest| - 4..] == ".osi" && '.' !in rest[..|rest| - 4] then
      assert rest == rest[..|rest| - 4] + ".osi";
      Some(rest[..|rest| - 4])
    else if |rest| > 5 && rest[|rest| - 5..] == ".osi\n" && '.' !in rest[..|rest| - 5] then
      assert rest == rest[..|rest| - 5] + ".osi\n";
      Some(rest[..|rest| - 5])
    else None
  }

  /** The fields of a conforming trace file name. */
  datatype TraceFileName = TraceFileName(
    timestamp: DateTime,
    messageType: string,
    osiVersion: string,
    protobufVersion: string,
    numberOfFrames: nat,
    customTraceName: string)

  /** Fields each followed by the separator "_". */
  function Joined(fields: seq<string>): string
  {
    if fields == [] then [] else fields[0] + "_" + Joined(fields[1..])
  }

  /** A field without the separator. */
  predicate Unseparated(field: string)
  {
    '_' !in field
  }

  /** No field holds the separator. */
  predicate NoSeparator(fields: seq<string>)
  {
    forall i :: 0 <= i < |fields| ==> Unseparated(fields[i])
  }

  /** The first n "_"-terminated fields of s and the text after them. */
  function SplitFields(s: string, n: nat): Option<(seq<string>, string)>
    decreases n
  {
    if n == 0 then Some(([], s))
    else
      var first := SplitFirst(s, '_');
      if first.None? then None
      else
        var others := SplitFields(first.value.1, n - 1);
        if others.None? then None
        else Some(([first.value.0] + others.value.0, others.value.1))
  }

  lemma {:induction false} SplitFieldsLength(s: string, n: nat)
    requires SplitFields(s, n).Some?
    ensures |SplitFields(s, n).value.0| == n
    decreases n
  {
    if n > 0 {
      SplitFieldsLength(SplitFirst(s, '_').value.1, n - 1);
    }
  }

  lemma JoinedPrepend(field: string, fields: seq<string>)
    ensures Joined([field] + fields) == field + "_" + Joined(fields)
  {
    assert ([field] + fields)[1..] == fields;
  }

  /** The split fields, each followed by the separator, give back the text before the rest. */
  lemma {:induction false} SplitFieldsJoined(s: string, n: nat, fields: seq<string>, rest: string)
    requires SplitFields(s, n) == Some((fields, rest))
    ensures s == Joined(fields) + rest
    decreases n
  {
    if n > 0 {
      var p := SplitFirst(s, '_').value;
      var q := SplitFields(p.1, n - 1).value;
      assert fields == [p.0] + q.0 && rest == q.1;
      SplitFieldsJoined(p.1, n - 1, q.0, q.1);
      JoinedPrepend(p.0, q.0);
      calc {
        s;
        p.0 + ['_'] + p.1;
        p.0 + ['_'] + (Joined(q.0) + q.1);
        (p.0 + "_" + Joined(q.0)) + q.1;
      }
    }
  }

  /** No split field holds the separator. */
  lemma {:induction false} SplitFieldsUnseparated(s: string, n: nat)
    requires SplitFields(s, n).Some?
    ensures NoSeparator(SplitFields(s, n).value.0)
    decreases n
  {
    if n > 0 {
      var p := SplitFirst(s, '_').value;
      var q := SplitFields(p.1, n - 1).value;
      SplitFieldsUnseparated(p.1, n - 1);
      var all := [p.0] + q.0;
      assert SplitFields(s, n).value.0 == all;
      forall i | 0 <= i < |all| ensures Unseparated(all[i]) {
        if i > 0 {
          assert all[i] == q.0[i - 1];
        }
      }
    }
  }

  lemma JoinedCons(fields: seq<string>, rest: string)
    requires fields != []
    ensures Joined(fields) + rest == fields[0] + ['_'] + (Joined(fields[1..]) + rest)
  {
  }

  /** Splitting off one more field. */
  lemma SplitFieldsCons(first: string, tail: string, n: nat)
    requires Unseparated(first)
    ensures SplitFields(first + ['_'] + tail, n + 1) ==
      match SplitFields(tail, n)
      case None => None
      case Some(p) => Some(([first] + p.0, p.1))
  {
    SplitFirstOfJoin(first, '_', tail);
  }

  /** Fields without separators, joined, split back into themselves. */
  lemma {:induction false} SplitFieldsOfJoined(fields: seq<string>, rest: string)
    requires NoSeparator(fields)
    ensures SplitFields(Joined(fields) + rest, |fields|) == Some((fields, rest))
  {
    if fields != [] {
      var others := fields[1..];
      assert NoSeparator(others) by {
        assert forall i :: 0 <= i < |others| ==> others[i] == fields[i + 1];
      }
      SplitFieldsOfJoined(others, rest);
      assert Unseparated(fields[0]);
      JoinedCons(fields, rest);
      SplitFieldsCons(fields[0], Joined(others) + rest, |others|);
      assert [fields[0]] + others == fields;
    } else {
      assert Joined(fields) + rest == rest;
    }
  }

  lemma EndsWithAppend(a: string, b: string, suffix: string)
    requires EndsWith(b, suffix)
    ensures EndsWith(a + b, suffix)
  {
    assert (a + b)[|a + b| - |suffix|..] == b[|b| - |suffix|..];
  }

  /** The checks after the split: abbreviation, non-empty versions, frame digits, timestamp, custom name. */
  function ParseFields(fields: seq<string>, rest: string): (r: Option<TraceFileName>)
    requires |fields| == 5 && NoSeparator(fields)
    ensures r.Some? ==> ValidDateTime(r.value.timestamp)
    ensures r.Some? ==> r.value.messageType in MESSAGE_TYPE_MAP.Values
    ensures r.Some? ==> r.value.osiVersion != "" && '_' !in r.value.osiVersion
    ensures r.Some? ==> r.value.protobufVersion != "" && '_' !in r.value.protobufVersion
    ensures r.Some? ==> r.value.customTraceName != "" && '.' !in r.value.customTraceName
    ensures r.Some? ==> rest == r.value.customTraceName + ".osi" || rest == r.value.customTraceName + ".osi\n"
  {
    var abbr, frames := fields[1], fields[4];
    assert Unseparated(fields[2]) && Unseparated(fields[3]);
    if abbr in MESSAGE_TYPE_MAP && fields[2] != "" && fields[3] != "" && frames != [] && AllDigits(frames) then
      match (ParseTimestamp(fields[0]), CustomName(rest))
      case (Some(dt), Some(name)) =>
        Some(TraceFileName(dt, MESSAGE_TYPE_MAP[abbr], fields[2], fields[3], DecimalValue(frames), name))
      case _ => None
    else None
  }

  /**
   * parse_osi_trace_filename: the fields of
   * <timestamp>_<type>_<osi-version>_<protobuf-version>_<frames>_<name>.osi,
   * or None (the empty dict) when the name does not match or its timestamp is
   * not a valid date and time.  None of the first five fields can hold "_",
   * so each ends at the next underscore.
   */
  function ParseOsiTraceFilename(s: string): (r: Option<TraceFileName>)
    ensures r.Some? ==> ValidDateTime(r.value.timestamp)
    ensures r.Some? ==> r.value.messageType in MESSAGE_TYPE_MAP.Values
    ensures r.Some? ==> r.value.osiVersion != "" && '_' !in r.value.osiVersion
    ensures r.Some? ==> r.value.protobufVersion != "" && '_' !in r.value.protobufVersion
    ensures r.Some? ==> r.value.customTraceName != "" && '.' !in r.value.customTraceName
    ensures r.Some? ==> EndsWith(s, ".osi") || EndsWith(s, ".osi\n")
  {
    match SplitFields(s, 5)
    case None => None
    case Some(split) =>
      SplitFieldsUnseparated(s, 5);
      SplitFieldsLength(s, 5);
      var r := ParseFields(split.0, split.1);
      if r.Some? then
        SplitFieldsEndsWith(s, split.0, split.1, r.value.customTraceName);
        r
      else r
  }

  /** A name whose text after the five fields is a custom name and ".osi" ends in ".osi". */
  lemma SplitFieldsEndsWith(s: string, fields: seq<string>, rest: string, name: string)
    requires SplitFields(s, 5) == Some((fields, rest))
    requires rest == name + ".osi" || rest == name + ".osi\n"
    ensures EndsWith(s, ".osi") || EndsWith(s, ".osi\n")
  {
    SplitFieldsJoined(s, 5, fields, rest);
    var suffix := if rest == name + ".osi" then ".osi" else ".osi\n";
    assert s == (Joined(fields) + name) + suffix;
    EndsWithAppend(Joined(fields) + name, suffix, suffix);
  }

  /** The name a trace with these fields gets under the naming convention: five "_"-terminated fields, the name, ".osi". */
  function FormatOsiTraceFilename(dt: DateTime, abbr: string, osiVersion: string, protobufVersion: string,
                                  frames: nat, name: string): string
  {
    Joined([TimestampString(dt), abbr, osiVersion, protobufVersion, NatToString(frames)]) + (name + ".osi")
  }

  /**
   * A name written in the convention from fields that respect its character
   * rules parses back to those fields, with the abbreviation spelled out.
   */
  lemma ParseFormattedFilename(dt: DateTime, abbr: string, osiVersion: string, protobufVersion: string,
                               frames: nat, name: string)
    requires ValidDateTime(dt) && abbr in MESSAGE_TYPE_MAP
    requires osiVersion != "" && '_' !in osiVersion && protobufVersion != "" && '_' !in protobufVersion
    requires name != "" && '.' !in name
    ensures ParseOsiTraceFilename(FormatOsiTraceFilename(dt, abbr, osiVersion, protobufVersion, frames, name)) ==
      Some(TraceFileName(dt, MESSAGE_TYPE_MAP[abbr], osiVersion, protobufVersion, frames, name))
  {
    var ts := TimestampString(dt);
    var fs := NatToString(frames);
    var fields := [ts, abbr, osiVersion, protobufVersion, fs];
    var rest := name + ".osi";
    assert NoSeparator(fields) by {
      assert Unseparated(ts) by {
        assert forall i :: 0 <= i < |ts| ==> ts[i] == 'T' || ts[i] == 'Z' || IsDigit(ts[i]);
      }
      AbbreviationsWithoutSeparator(abbr);
      assert Unseparated(fs) by {
        assert AllDigits(fs);
      }
      assert forall i :: 0 <= i < 5 ==> fields[i] in {ts, abbr, osiVersion, protobufVersion, fs};
    }
    SplitFieldsOfJoined(fields, rest);
    assert rest[..|rest| - 4] == name;
    ParseTimestampString(dt);
    NatToStringValue(frames);
  }

  /*
   * OSIChannelSpecification
   */

  /** The four data fields of a channel specification, as a value. */
  datatype SpecFields = SpecFields(
    path: Path,
    messageType: Option<string>,
    topic: Option<string>,
    metadata: Option<map<string, string>>)

  /** The message type a single-channel file's name declares. */
  function TypeFromFilename(name: string): (t: Option<string>)
    ensures t.Some? <==> ParseOsiTraceFilename(name).Some?
  {
    match ParseOsiTraceFilename(name)
    case None => None
    case Some(parsed) => Some(parsed.messageType)
  }

  /** with_name: the path's final component replaced, everything else kept. */
  function SpecWithName(f: SpecFields, newName: string): (r: Result<SpecFields>)
    ensures r.Ok? <==> f.path.name != "" && ValidName(newName)
    ensures r.Err? ==> r.error == ValueError
    ensures r.Ok? ==> r.value.path.name == newName && r.value.path.dir == f.path.dir
    ensures r.Ok? ==> r.value.(path := f.path) == f
  {
    match WithName(f.path, newName)
    case Err(e) => Err(e)
    case Ok(p) => Ok(f.(path := p))
  }

  /** with_name_suffix: text inserted between the stem and the suffix of the file name. */
  function SpecWithNameSuffix(f: SpecFields, text: string): (r: Result<SpecFields>)
    ensures r.Ok? <==> f.path.name != "" && '/' !in text
    ensures r.Ok? ==> r.value.path.dir == f.path.dir && r.value.(path := f.path) == f
    ensures r.Ok? ==> r.value.path.name == Stem(f.path.name) + text + Suffix(f.path.name)
  {
    var name := f.path.name;
    var newName := Stem(name) + text + Suffix(name);
    assert name != "" && '/' !in text ==> ValidName(newName) by {
      if name != "" && '/' !in text {
        assert '/' !in Stem(name) && '/' !in Suffix(name) by {
          assert name == Stem(name) + Suffix(name);
        }
        if Suffix(name) == "" {
          assert newName == name + text;
          assert |newName| >= 2 || newName == name;
        }
      }
    }
    SpecWithName(f, newName)
  }

  /** A suffix-carrying name keeps its format and gains the text at the end of its stem. */
  lemma SpecWithNameSuffixKeepsFormat(f: SpecFields, text: string)
    requires f.path.name != "" && '/' !in text && '.' !in text && Suffix(f.path.name) != ""
    ensures var r := SpecWithNameSuffix(f, text);
      r.Ok? && Suffix(r.value.path.name) == Suffix(f.path.name) && Stem(r.value.path.name) == Stem(f.path.name) + text
  {
    InsertBeforeSuffix(f.path.name, text);
  }

  /** with_trace_file_format: the path's suffix replaced by the format's preferred extension. */
  function SpecWithTraceFileFormat(f: SpecFields, fmt: TraceFileFormat): (r: Result<SpecFields>)
    ensures r.Ok? <==> f.path.name != ""
    ensures r.Ok? ==> r.value.(path := f.path) == f && r.value.path.dir == f.path.dir
    ensures r.Ok? ==> Suffix(r.value.path.name) == ExtensionOf(fmt) && Stem(r.value.path.name) == Stem(f.path.name)
    ensures r.Ok? ==> FormatOf(Suffix(r.value.path.name)) == Ok(fmt)
  {
    var ext := ExtensionOf(fmt);
    ExtensionIsSuffix(fmt);
    match WithSuffix(f.path, ext)
    case Err(e) => Err(e)
    case Ok(p) =>
      WithSuffixSuffix(f.path, ext);
      FormatOfExtension(fmt);
      Ok(f.(path := p))
  }

  /** OSIChannelSpecification: a dataclass whose topic and message type are filled in place. */
  class ChannelSpecification {
    var path: Path
    var messageType: Option<string>
    var topic: Option<string>
    var metadata: Option<map<string, string>>
    const formatMapper: FormatMapper

    predicate Valid()
      reads this
    {
      formatMapper.Valid()
    }

    function Fields(): SpecFields
      reads this
    {
      SpecFields(path, messageType, topic, metadata)
    }

    constructor(path: Path, messageType: Option<string>, topic: Option<string>, metadata: Option<map<string, string>>)
      ensures Valid() && Fields() == SpecFields(path, messageType, topic, metadata)
    {
      this.path := path;
      this.messageType := messageType;
      this.topic := topic;
      this.metadata := metadata;
      formatMapper := new FormatMapper();
    }

    /** trace_file_format: the format of the path's suffix; an unknown suffix is a KeyError. */
    function TraceFileFormat(): (r: Result<TraceFileFormat>)
      requires Valid()
      reads this
      ensures r == FormatOf(Suffix(path.name))
    {
      formatMapper.GetFormat(Suffix(path.name))
    }

    /**
     * try_autodetect_message_type: a set type is kept; otherwise a
     * single-channel file takes the type its name declares and a
     * multi-channel file the type its channel reports (a parameter here).
     */
    method TryAutodetectMessageType(multiChannelType: Option<string>) returns (r: Result<bool>)
      requires Valid()
      modifies this
      ensures Valid() && path == old(path) && topic == old(topic) && metadata == old(metadata)
      ensures old(messageType).Some? ==> r == Ok(true) && messageType == old(messageType)
      ensures old(messageType).None? ==>
        match FormatOf(Suffix(path.name))
        case Err(e) => r == Err(e) && messageType == None
        case Ok(fmt) =>
          var detected := if fmt == MultiChannel then multiChannelType else TypeFromFilename(path.name);
          r == Ok(detected.Some?) && messageType == detected
    {
      if messageType.Some? {
        return Ok(true);
      }
      var format := TraceFileFormat();
      if format.Err? {
        return Err(format.error);
      }
      var detectedType: Option<string> := None;
      if format.value == MultiChannel {
        detectedType := multiChannelType;
      } else if format.value == SingleChannel {
        detectedType := TypeFromFilename(path.name);
      }
      if detectedType.Some? {
        messageType := detectedType;
        return Ok(true);
      }
      return Ok(false);
    }

    /** autofill_topic: an unset topic becomes the file name without its suffix. */
    method AutofillTopic()
      modifies this
      ensures topic == if old(topic).None? then Some(Stem(path.name)) else old(topic)
      ensures path == old(path) && messageType == old(messageType) && metadata == old(metadata)
    {
      if topic.None? {
        topic := Some(Stem(path.name));
      }
    }

    method WithName(newName: string) returns (r: Result<ChannelSpecification>)
      ensures SpecWithName(Fields(), newName).Ok? <==> r.Ok?
      ensures r.Ok? ==> fresh(r.value) && r.value.Valid() && r.value.Fields() == SpecWithName(Fields(), newName).value
    {
      var f := SpecWithName(Fields(), newName);
      if f.Err? {
        return Err(f.error);
      }
      var s := new ChannelSpecification(f.value.path, messageType, topic, metadata);
      return Ok(s);
    }

    method WithNameSuffix(text: string) returns (r: Result<ChannelSpecification>)
      ensures SpecWithNameSuffix(Fields(), text).Ok? <==> r.Ok?
      ensures r.Ok? ==> fresh(r.value) && r.value.Valid() && r.value.Fields() == SpecWithNameSuffix(Fields(), text).value
    {
      var f := SpecWithNameSuffix(Fields(), text);
      if f.Err? {
        return Err(f.error);
      }
      var s := new ChannelSpecification(f.value.path, messageType, topic, metadata);
      return Ok(s);
    }

    /** with_trace_file_format: builds a fresh FormatMapper for the extension, as the source does. */
    method WithTraceFileFormat(fmt: TraceFileFormat) returns (r: Result<ChannelSpecification>)
      ensures SpecWithTraceFileFormat(Fields(), fmt).Ok? <==> r.Ok?
      ensures r.Ok? ==>
        fresh(r.value) && r.value.Valid() && r.value.Fields() == SpecWithTraceFileFormat(Fields(), fmt).value
    {
      var mapper := new FormatMapper();
      var ext := mapper.GetExtension(fmt);
      ExtensionIsSuffix(fmt);
      var p := WithSuffix(path, ext);
      if p.Err? {
        return Err(p.error);
      }
      var s := new ChannelSpecification(p.value, messageType, topic, metadata);
      return Ok(s);
    }

    method WithMessageType(t: string) returns (s: ChannelSpecification)
      ensures fresh(s) && s.Valid() && s.Fields() == Fields().(messageType := Some(t))
    {
      s := new ChannelSpecification(path, Some(t), topic, metadata);
    }

    method WithTopic(t: string) returns (s: ChannelSpecification)
      ensures fresh(s) && s.Valid() && s.Fields() == Fields().(topic := Some(t))
    {
      s := new ChannelSpecification(path, messageType, Some(t), metadata);
    }
  }

  /*
   * OSIChannelSpecValidator
   */

  /** Why the validator refused a specification (InvalidSpecificationError). */
  datatype Rejection =
    | TypeNotAllowed(messageType: string)
    | TypeRequired
    | TopicRequired
    | MissingMetadataKey(key: string)

  datatype SpecValidator = SpecValidator(
    allowedMessageTypes: Option<seq<string>>,
    requireMessageType: bool,
    requireTopic: bool,
    requireMetadataKeys: seq<string>)

  /** OSIChannelSpecValidator.__init__: no key list means no required key. */
  function NewSpecValidator(allowed: Option<seq<string>>, requireMessageType: bool, requireTopic: bool,
                            keys: Option<seq<string>>): (v: SpecValidator)
    ensures v.requireMetadataKeys == if keys.Some? then keys.value else []
  {
    SpecValidator(allowed, requireMessageType, requireTopic, if keys.Some? then keys.value else [])
  }

  /** The first required key absent from the metadata. */
  function FirstMissingKey(keys: seq<string>, md: map<string, string>): (k: Option<nat>)
    ensures k.None? <==> forall i :: 0 <= i < |keys| ==> keys[i] in md
    ensures k.Some? ==> k.value < |keys| && keys[k.value] !in md && forall i :: 0 <= i < k.value ==> keys[i] in md
  {
    if keys == [] then None
    else if keys[0] !in md then Some(0)
    else
      assert forall i :: 1 <= i < |keys| ==> keys[1..][i - 1] == keys[i];
      match FirstMissingKey(keys[1..], md)
      case None => None
      case Some(k) => Some(k + 1)
  }

  /** A type outside a non-empty allow-list; an unset type is never refused here. */
  predicate TypeRefused(v: SpecValidator, spec: SpecFields)
  {
    v.allowedMessageTypes.Some? && v.allowedMessageTypes.value != [] &&
    spec.messageType.Some? && spec.messageType.value !in v.allowedMessageTypes.value
  }

  /** The type checks pass: the type is allowed, and set when required. */
  predicate TypeChecksPass(v: SpecValidator, spec: SpecFields)
  {
    !TypeRefused(v, spec) && (v.requireMessageType ==> Truthy(spec.messageType))
  }

  /** The type and topic checks pass, so the metadata keys come next. */
  predicate KeyChecksReached(v: SpecValidator, spec: SpecFields)
  {
    TypeChecksPass(v, spec) && (v.requireTopic ==> Truthy(spec.topic))
  }

  /**
   * OSIChannelSpecValidator.__call__: Ok(None) accepts, Ok(Some(reason))
   * raises InvalidSpecificationError for the first failing check, in the
   * order type allowed, type required, topic required, metadata keys, and a
   * metadata of None with keys to check raises TypeError.
   */
  function Validate(v: SpecValidator, spec: SpecFields): (r: Result<Option<Rejection>>)
    ensures r == Ok(None) <==>
      KeyChecksReached(v, spec) &&
      (v.requireMetadataKeys != [] ==>
        spec.metadata.Some? && forall i :: 0 <= i < |v.requireMetadataKeys| ==> v.requireMetadataKeys[i] in spec.metadata.value)
    ensures TypeRefused(v, spec) ==> r == Ok(Some(TypeNotAllowed(spec.messageType.value)))
    ensures (r.Ok? && r.value.Some? && r.value.value.TypeNotAllowed?) <==> TypeRefused(v, spec)
    ensures r == Ok(Some(TypeRequired)) <==> !TypeRefused(v, spec) && v.requireMessageType && !Truthy(spec.messageType)
    ensures r == Ok(Some(TopicRequired)) <==> TypeChecksPass(v, spec) && v.requireTopic && !Truthy(spec.topic)
    ensures r.Err? <==> KeyChecksReached(v, spec) && v.requireMetadataKeys != [] && spec.metadata.None?
    ensures r.Err? ==> r.error == TypeError
    ensures r.Ok? && r.value.Some? && r.value.value.MissingMetadataKey? ==>
      KeyChecksReached(v, spec) && spec.metadata.Some? &&
      exists k :: 0 <= k < |v.requireMetadataKeys| && r.value.value.key == v.requireMetadataKeys[k] &&
        v.requireMetadataKeys[k] !in spec.metadata.value &&
        (forall i :: 0 <= i < k ==> v.requireMetadataKeys[i] in spec.metadata.value)
    ensures KeyChecksReached(v, spec) && spec.metadata.Some? ==>
      forall k :: (0 <= k < |v.requireMetadataKeys| && v.requireMetadataKeys[k] !in spec.metadata.value &&
                   (forall i :: 0 <= i < k ==> v.requireMetadataKeys[i] in spec.metadata.value)) ==>
        r == Ok(Some(MissingMetadataKey(v.requireMetadataKeys[k])))
  {
    if TypeRefused(v, spec) then Ok(Some(TypeNotAllowed(spec.messageType.value)))
    else if v.requireMessageType && !Truthy(spec.messageType) then Ok(Some(TypeRequired))
    else if v.requireTopic && !Truthy(spec.topic) then Ok(Some(TopicRequired))
    else if v.requireMetadataKeys == [] then Ok(None)
    else if spec.metadata.None? then Err(TypeError)
    else match FirstMissingKey(v.requireMetadataKeys, spec.metadata.value)
      case None => Ok(None)
      case Some(k) => Ok(Some(MissingMetadataKey(v.requireMetadataKeys[k])))
  }
}
