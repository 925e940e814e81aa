# osc-validation core in Dafny

This project models the trace-handling core of osc-validation. osc-validation validates OpenSCENARIO simulation tools against ASAM OSI traces. The model covers these parts:

- **osi2osc** turns a SensorView trace into an OpenSCENARIO document:
  - it collects every moving object's static size and its trajectory;
  - it declares one `ScenarioObject` per object, with the host vehicle named `Ego`;
  - it gives each object one act that follows a polyline, a teleport init action, and a simulation-time stop trigger.
- **utils** provides:
  - the float/OSI timestamp conversions;
  - moving-object id collection;
  - trajectory extraction by id, within a time window;
  - the closest-trajectory search;
  - trace cropping.
- **osi_channel_specification** provides:
  - the extension-to-format table;
  - the OSI trace file-name parser;
  - the channel specification and its `with_*` copies;
  - message-type autodetection;
  - the specification validator.
- **osi_reader** reads single-channel (binary) and multi-channel (MCAP) traces and computes channel statistics. It wraps both behind one channel reader.
- **osi_mcap** provides:
  - the cached trace statistics of the older reader;
  - the binary trace writer: length-prefixed records, optionally lzma-compressed;
  - the MCAP trace writer: schemas from the dependency-first protobuf descriptor set, topic registry, version check, nanosecond stamps.
- **osi_writer** is the stand-alone MCAP writer with context-manager support.
- **esminigt2sv** wraps esmini GroundTruth frames into SensorViews and renumbers the moving objects.
- **strip_sensorview** clears selected ground-truth fields.

Trace files are byte sequences:

- an OSI binary trace is a sequence of records;
- each record is a 4-byte little-endian length followed by the payload.

The model proves the framing round trip. Protobuf serialisation, lzma, `str(float)` and the rotation helper are foreign code. They appear as function-valued parameters (`serialize`, `lzmaCompress`, `Formatter`, `Rotation`).

Modules:

- `Common`: option/result types and the Python exceptions as error values.
- `Timestamps`, `OsiModel`, `Framing`, `Xml`, `Paths`: shared definitions.
- `Osi2Osc`, `TraceUtils`, `ChannelSpec`, `OsiReader`, `Descriptors`, `McapOutput`, `OsiMcap`, `OsiWriter`, `EsminiGt2Sv`, `StripSensorView`: one module per source file. `Descriptors` and `McapOutput` are the parts both MCAP writers share.

Where the source updates objects in place, the model uses classes whose methods carry `modifies` clauses. This covers:

- the scenario object builder;
- the format mapper;
- the channel specification;
- the descriptor-set builder;
- the trace reader cache;
- the writers;
- the output file.

Loops in the source are `while` loops with invariants. Each is proved against a specification function, and the properties are proved about that function.

Floats are modelled as reals.

## Model

| member | source | states |
|---|---|---|
| Timestamps.Trunc | osc_validation/utils/utils.py:18-24 | `int()` on a float truncates toward zero: floor for non-negative values, and within one of the value otherwise |
| Timestamps.ToSecondsSplit | osc_validation/utils/utils.py:14-15 | an OSI timestamp in seconds is its seconds plus nanos divided by 1e9 |
| Timestamps.FromSeconds | osc_validation/utils/utils.py:18-24 | float to OSI timestamp: seconds are the floor and nanos lie in [0, 1e9) |
| Timestamps.FromSecondsWithinOneNano | osc_validation/utils/utils.py:18-24 | converting a float to a timestamp and back loses less than one nanosecond and never rounds up |
| Timestamps.RoundTrip | osc_validation/utils/utils.py:14-24 | a normalised timestamp survives the float round trip unchanged |
| Timestamps.NanosecondsExact | osc_validation/utils/osi_writer.py:147-154 | the MCAP log time of a message is seconds * 1e9 + nanos exactly |
| Framing.PackLength | osc_validation/utils/osi_mcap.py:195 | `struct.pack("<L")` yields 4 bytes and fails with struct.error iff the length is 2^32 or more |
| Framing.UnpackLength | osc_validation/utils/osi_mcap.py:195 | a 4-byte little-endian prefix decodes to a value below 2^32 |
| Framing.UnpackPack | osc_validation/utils/osi_mcap.py:195 | unpacking a packed length gives the length back |
| Framing.Record | osc_validation/utils/osi_mcap.py:195-196 | a record is 4 length bytes followed by the payload itself |
| Framing.FramedAppend | osc_validation/utils/osi_mcap.py:195-196 | writing one more record appends exactly that record to the framed file |
| Framing.ParseFramed | osc_validation/utils/osi_mcap.py:195-196 | splitting a framed file at its length prefixes gives back exactly the payloads that were written, in order |
| Framing.OutputFile.OpenAppend | osc_validation/utils/esminigt2sv.py:15 | a file opened with "ab" keeps its existing content |
| Framing.OutputFile.OpenTruncate | osc_validation/utils/osi_mcap.py:185 | a file opened with "wb" starts empty |
| Framing.OutputFile.Write | osc_validation/utils/osi_mcap.py:196 | a write appends the bytes to the file content |
| Framing.OutputFile.WriteRecord | osc_validation/utils/esminigt2sv.py:39-41 | length then payload are appended; an over-long payload raises struct.error before anything is written |
| OsiModel.FrameSamples | osc_validation/generation/osi2osc.py:288-330 | one sample per moving object of the frame, each stamped with the frame time |
| OsiModel.SamplesAppend | osc_validation/generation/osi2osc.py:288-330 | the samples of a trace with one more frame are the old samples followed by that frame's samples |
| OsiModel.SamplesPrefixStep | osc_validation/generation/osi2osc.py:288-330 | the samples of one more frame of a trace extend the samples of the shorter prefix by that frame's samples |
| OsiModel.DistinctFirstAppearance | osc_validation/utils/utils.py:88-90 | the distinct ids are listed in the order of their first appearance |
| OsiModel.RowsOfCount | osc_validation/generation/osi2osc.py:291-330 | an object's trajectory has one row per sample carrying its id |
| Osi2Osc.IntString | osc_validation/generation/osi2osc.py:57 | the decimal rendering of an id parses back to that id |
| Osi2Osc.EntityRef | osc_validation/generation/osi2osc.py:57 | the entity name is "Ego" iff the object is the host vehicle |
| Osi2Osc.EntityRefInjective | osc_validation/generation/osi2osc.py:57 | two non-host objects with the same entity name have the same id |
| Osi2Osc.EntityRefsDistinct | osc_validation/generation/osi2osc.py:57 | distinct ids get distinct entity names |
| Osi2Osc.OscMovingObject.constructor | osc_validation/generation/osi2osc.py:43-75 | a new object holds its id, entity name, static size, types and rear offset, with an empty trajectory |
| Osi2Osc.OscMovingObject.AppendTrajectoryRow | osc_validation/generation/osi2osc.py:77-100 | appends one row to the trajectory and changes nothing else |
| Osi2Osc.NewOscMovingObject | osc_validation/generation/osi2osc.py:66-75 | all three offsets given: they are used; none given: default rear offset from length and height; a mix: RuntimeError |
| Osi2Osc.ParsedObjects | osc_validation/generation/osi2osc.py:282-331 | one object per distinct moving-object id |
| Osi2Osc.ObjectForAppend | osc_validation/generation/osi2osc.py:313-330 | a new sample of a known object only appends a row to that object's trajectory |
| Osi2Osc.ParsedObjectsAppendKnown | osc_validation/generation/osi2osc.py:313-330 | a sample for a listed id appends one row to that object, in place |
| Osi2Osc.ParsedObjectsAppendNew | osc_validation/generation/osi2osc.py:293-312 | a sample for a new id appends a new object whose trajectory is that one row |
| Osi2Osc.ParsedObjectsIds | osc_validation/generation/osi2osc.py:282-331 | objects appear in first-appearance order of their ids, exactly the ids of the trace, without duplicates |
| Osi2Osc.UnknownIdIsNew | osc_validation/generation/osi2osc.py:293 | an id that no parsed object carries has not occurred in the trace so far |
| Osi2Osc.KnownIdPosition | osc_validation/generation/osi2osc.py:314-321 | the k-th parsed object carries the k-th distinct id |
| Osi2Osc.ParsedObjectAt | osc_validation/generation/osi2osc.py:282-331 | each object has its id, the Ego name iff it is the host, the size of its first sample, and one row per sample of its id |
| Osi2Osc.FindObject | osc_validation/generation/osi2osc.py:314-321 | finds an object with the id, or reports that none has it |
| Osi2Osc.AddObject | osc_validation/generation/osi2osc.py:293-312 | the first sample of an id gives a fresh object carrying that sample's static data and its one row, and the list with it appended equals the parse so far |
| Osi2Osc.AddRow | osc_validation/generation/osi2osc.py:313-330 | a later sample of a listed id adds its row to that object, after which the unchanged list equals the parse so far |
| Osi2Osc.AddSample | osc_validation/generation/osi2osc.py:291-330 | handling one moving object keeps the builder list equal to the parse of the samples seen so far |
| Osi2Osc.AddFrame | osc_validation/generation/osi2osc.py:288-330 | handling one frame keeps the builder list equal to the parse of the samples seen so far |
| Osi2Osc.ParseMovingObjects | osc_validation/generation/osi2osc.py:282-331 | AssertionError unless every message is a SensorView; otherwise fresh, distinct builder objects equal to the parse of all samples |
| Osi2Osc.VehicleCategory | osc_validation/generation/osi2osc.py:33-41 | vehicle types 0..5 map to "car"; any other type is a KeyError |
| Osi2Osc.BuildScenarioObject | osc_validation/generation/osi2osc.py:102-156 | a ScenarioObject named by the entity ref; KeyError exactly for unknown vehicle types |
| Osi2Osc.ScenarioObjectBoundingBox | osc_validation/generation/osi2osc.py:115-129 | the bounding box centre is the rear offset and its dimensions are the static height, length and width |
| Osi2Osc.FindStep | osc_validation/generation/osi2osc.py:102-271 | following a tag path through the first matching child is compositional |
| Osi2Osc.FindAppend | osc_validation/generation/osi2osc.py:102-271 | following a concatenated tag path follows its two parts in turn |
| Osi2Osc.FindTwo | osc_validation/generation/osi2osc.py:102-271 | a two-step tag path reaches the grandchild |
| Osi2Osc.Vertex | osc_validation/generation/osi2osc.py:168-196 | a Vertex element stamped with the row's time |
| Osi2Osc.VertexPosition | osc_validation/generation/osi2osc.py:172-196 | the world position is the row position minus the rotated rear offset, with the row's heading, pitch and roll |
| Osi2Osc.Polyline | osc_validation/generation/osi2osc.py:158-197 | one vertex per trajectory row, in order |
| Osi2Osc.BuildPolylineTrajectory | osc_validation/generation/osi2osc.py:158-197 | an open trajectory named after the vehicle |
| Osi2Osc.BuildAct | osc_validation/generation/osi2osc.py:199-271 | an Act named after the vehicle |
| Osi2Osc.ManeuverToFollow | osc_validation/generation/osi2osc.py:234-250 | the maneuver's event action is the FollowTrajectoryAction |
| Osi2Osc.FollowToPolyline | osc_validation/generation/osi2osc.py:248-271 | the follow action's trajectory shape is the polyline |
| Osi2Osc.ActToManeuver | osc_validation/generation/osi2osc.py:221-242 | the act's maneuver group holds the maneuver built for the object |
| Osi2Osc.ActActor | osc_validation/generation/osi2osc.py:221-232 | the act's single actor refers to the object's entity ref |
| Osi2Osc.ActPolyline | osc_validation/generation/osi2osc.py:199-271 | the act leads through its event to the object's FollowTrajectoryAction and on to its polyline |
| Osi2Osc.ActContents | osc_validation/generation/osi2osc.py:199-271 | the act's actor is the object's entity ref and it leads to the object's polyline |
| Osi2Osc.ActSettings | osc_validation/generation/osi2osc.py:221-242 | the maneuver group runs once and the event has priority "override" |
| Osi2Osc.FollowSettings | osc_validation/generation/osi2osc.py:254-268 | absolute timing with offset 0.0 and scale 1.0, and following mode "position" |
| Osi2Osc.BuildInitAction | osc_validation/generation/osi2osc.py:273-279 | a Private init action for the object's entity ref |
| Osi2Osc.ScenarioObjects | osc_validation/generation/osi2osc.py:342-346 | one scenario object per parsed object, in order |
| Osi2Osc.Acts | osc_validation/generation/osi2osc.py:342-346 | one act per parsed object, in order |
| Osi2Osc.InitActions | osc_validation/generation/osi2osc.py:373-375 | one init action per parsed object, in order |
| Osi2Osc.Osi2OscDocument | osc_validation/generation/osi2osc.py:334-427 | error cases of the conversion: UnboundLocalError without any version, AttributeError for a GroundTruth first message, AssertionError for mixed types, KeyError for unknown vehicle types; success exactly otherwise |
| Osi2Osc.AssembleParts | osc_validation/generation/osi2osc.py:348-423 | Entities, Init actions, Story and StopTrigger sit where the document layout puts them |
| Osi2Osc.AssembleRoadNetwork | osc_validation/generation/osi2osc.py:362-366 | the road network holds a LogicFile iff an OpenDRIVE path is given |
| Osi2Osc.StopTriggerTime | osc_validation/generation/osi2osc.py:403-423 | the stop condition is simulation time greater than the stop time |
| Osi2Osc.AssembleStopCondition | osc_validation/generation/osi2osc.py:403-423 | the document's stop condition compares simulation time with the given stop |
| Osi2Osc.DocumentEntities | osc_validation/generation/osi2osc.py:334-369 | one ScenarioObject per distinct id, named by its entity ref, with pairwise distinct names |
| Osi2Osc.ScenarioObjectsNamed | osc_validation/generation/osi2osc.py:342-346 | one ScenarioObject per parsed object, named by its entity ref, with pairwise distinct names |
| Osi2Osc.DocumentLists | osc_validation/generation/osi2osc.py:334-379 | a successful conversion starts with a SensorView, knows every vehicle type, and places the scenario objects, init actions and acts of the trace's objects |
| Osi2Osc.ActsFollowObjects | osc_validation/generation/osi2osc.py:342-379 | act actors and init entity refs name the objects in order, and each polyline has one vertex per sample of its object |
| Osi2Osc.EgoDeclared | osc_validation/generation/osi2osc.py:57 | an entity named Ego exists iff the host id is among the ids |
| Osi2Osc.DocumentEgo | osc_validation/generation/osi2osc.py:338-369 | the document declares Ego iff the host vehicle id occurs in the trace |
| Osi2Osc.DocumentStory | osc_validation/generation/osi2osc.py:340-379 | acts and init actions match the entities one to one and name the same entity; each polyline has one vertex per sample of that object |
| Osi2Osc.DocumentRoadNetwork | osc_validation/generation/osi2osc.py:362-366 | one LogicFile with the given path iff an OpenDRIVE path is given |
| Osi2Osc.DocumentStopTrigger | osc_validation/generation/osi2osc.py:334-423 | the document stops at the time of the last message |
| Osi2Osc.ElementsBuiltNext | osc_validation/generation/osi2osc.py:342-346 | the loop's built prefix grows by one object |
| Osi2Osc.ElementsBuiltAll | osc_validation/generation/osi2osc.py:342-346 | a completed loop has built exactly the scenario objects and acts |
| Osi2Osc.BuildObjectElements | osc_validation/generation/osi2osc.py:342-346 | the entity loop builds all scenario objects and acts, or raises KeyError exactly when some vehicle type is unknown |
| Osi2Osc.BuildInitActions | osc_validation/generation/osi2osc.py:373-375 | the init loop builds one action per object |
| Osi2Osc.Osi2Osc | osc_validation/generation/osi2osc.py:334-427 | the imperative conversion yields exactly the specified document or error |
| TraceUtils.MovingObjectsField | osc_validation/utils/utils.py:83-87 | the moving objects are read from the field the declared type names; a message of the other type is an AttributeError |
| TraceUtils.TypedAsPrefix | osc_validation/utils/utils.py:82-87 | the messages read so far keep matching the declared type |
| TraceUtils.DistinctIdsAppend | osc_validation/utils/utils.py:88-90 | an id is appended iff it is not yet listed |
| TraceUtils.AddFrameIds | osc_validation/utils/utils.py:88-90 | the inner loop extends the id list by the frame's new ids |
| TraceUtils.GetAllMovingObjectIds | osc_validation/utils/utils.py:76-91 | AssertionError for other message types, AttributeError for mistyped messages, else the distinct ids in first-appearance order |
| TraceUtils.AllIdsListed | osc_validation/utils/utils.py:76-91 | every id of the trace is listed, and none twice |
| TraceUtils.WindowSamples | osc_validation/utils/utils.py:123-127 | only samples inside the inclusive time window are kept |
| TraceUtils.WindowSamplesAppend | osc_validation/utils/utils.py:123-127 | a new sample is kept iff it is inside the window |
| TraceUtils.WindowSamplesOutside | osc_validation/utils/utils.py:123-127 | samples outside the window change nothing |
| TraceUtils.FirstSampleOfAppend | osc_validation/utils/utils.py:138-146 | the metadata comes from the first sample of the object |
| TraceUtils.TrajectoryOfAppend | osc_validation/utils/utils.py:128-146 | a sample of the object in the window appends a row and sets the metadata once |
| TraceUtils.AddFrameRows | osc_validation/utils/utils.py:128-146 | the inner loop extends the trajectory by the frame's rows |
| TraceUtils.GetTrajectoryById | osc_validation/utils/utils.py:94-150 | errors as for the ids; else the object's rows inside the window and its first metadata |
| TraceUtils.RowsOfWithin | osc_validation/utils/utils.py:123-127 | rows drawn from windowed samples lie in the window |
| TraceUtils.TrajectoryOfProperties | osc_validation/utils/utils.py:94-150 | one row per windowed sample of the id, all inside the window; metadata present iff a row exists, and it carries the id |
| TraceUtils.Nearest | osc_validation/utils/utils.py:178-191 | the index of a trajectory whose start is nearest the reference start; on ties the first one wins |
| TraceUtils.ClosestTrajectory | osc_validation/utils/utils.py:153-191 | None for no candidates, IndexError for an empty reference or candidate, else a nearest candidate |
| TraceUtils.ToolTrajectories | osc_validation/utils/utils.py:170-177 | one candidate per distinct id of the tool trace |
| TraceUtils.NearestTrajectory | osc_validation/utils/utils.py:178-191 | the imperative search returns the specified closest trajectory |
| TraceUtils.CollectTrajectories | osc_validation/utils/utils.py:171-176 | the trajectory of every distinct id, in first-appearance order |
| TraceUtils.GetClosestTrajectory | osc_validation/utils/utils.py:153-191 | the whole function returns the specified result |
| TraceUtils.Cropped | osc_validation/utils/utils.py:293-298 | cropping never adds messages |
| TraceUtils.CropTrace | osc_validation/utils/utils.py:268-299 | writes exactly the cropped messages, in order |
| TraceUtils.CroppedMembers | osc_validation/utils/utils.py:293-298 | a message is kept iff it is in the input and its time lies in the inclusive window |
| TraceUtils.CroppedIdempotent | osc_validation/utils/utils.py:268-299 | cropping twice is cropping once |
| TraceUtils.CroppedUnbounded | osc_validation/utils/utils.py:293-298 | with no bounds the trace is copied unchanged |
| Paths.RFind | osc_validation/utils/osi_channel_specification.py:130-132 | the last occurrence of a character |
| Paths.RFindAt | osc_validation/utils/osi_channel_specification.py:130-132 | the last occurrence is unique |
| Paths.SuffixDot | osc_validation/utils/osi_channel_specification.py:130-132 | the suffix dot is neither the first nor the last character, and no dot follows it |
| Paths.Suffix | osc_validation/utils/osi_channel_specification.py:130-132 | `Path.suffix` is empty or a dot with dot-free text |
| Paths.Stem | osc_validation/utils/osi_channel_specification.py:163-168 | stem plus suffix is the name, and a non-empty name has a non-empty stem |
| Paths.WithName | osc_validation/utils/osi_channel_specification.py:204-211 | `Path.with_name` keeps the directory; ValueError for an empty path name or an invalid new name |
| Paths.WithSuffix | osc_validation/utils/osi_channel_specification.py:223-231 | `Path.with_suffix` replaces the suffix; ValueError for an invalid suffix or an empty name |
| Paths.SuffixOfJoin | osc_validation/utils/osi_channel_specification.py:213-231 | a stem followed by a suffix splits back into the same stem and suffix |
| Paths.WithSuffixSuffix | osc_validation/utils/osi_channel_specification.py:223-231 | after `with_suffix` the suffix is the new one and the stem is unchanged |
| Paths.InsertBeforeSuffix | osc_validation/utils/osi_channel_specification.py:213-221 | text inserted before the suffix keeps the suffix and extends the stem |
| ChannelSpec.LookupFormat | osc_validation/utils/osi_channel_specification.py:28-29 | no format exactly for unlisted extensions |
| ChannelSpec.FirstExtensions | osc_validation/utils/osi_channel_specification.py:23-26 | the reverse map has an entry for every format of the table |
| ChannelSpec.FormatOf | osc_validation/utils/osi_channel_specification.py:15-29 | .osi/.xz/.lzma (any case) are single-channel, .mcap is multi-channel, anything else is a KeyError |
| ChannelSpec.FirstExtensionsOfTable | osc_validation/utils/osi_channel_specification.py:23-26 | the first extension listed wins: single-channel maps to ".osi" and multi-channel to ".mcap" |
| ChannelSpec.ExtensionOf | osc_validation/utils/osi_channel_specification.py:31-32 | the canonical extension of each format |
| ChannelSpec.FormatOfExtension | osc_validation/utils/osi_channel_specification.py:15-32 | the canonical extension of a format maps back to that format |
| ChannelSpec.ExtensionIsSuffix | osc_validation/utils/osi_channel_specification.py:223-231 | the canonical extensions are valid path suffixes |
| ChannelSpec.FormatMapper.constructor | osc_validation/utils/osi_channel_specification.py:16-26 | the init loop builds the reverse map the table specifies |
| ChannelSpec.FormatMapper.GetFormat | osc_validation/utils/osi_channel_specification.py:28-29 | `get_format` is the table lookup on the lower-cased extension |
| ChannelSpec.FormatMapper.GetExtension | osc_validation/utils/osi_channel_specification.py:31-32 | `get_extension` gives the canonical extension |
| ChannelSpec.AbbreviationsWithoutSeparator | osc_validation/utils/osi_channel_specification.py:35-46 | no message-type abbreviation contains the field separator |
| ChannelSpec.ParseTimestamp | osc_validation/utils/osi_channel_specification.py:90 | `strptime("%Y%m%dT%H%M%SZ")` accepts only real calendar dates and times |
| ChannelSpec.ParseTimestampString | osc_validation/utils/osi_channel_specification.py:90 | a valid date-time rendered in the pattern parses back to itself |
| ChannelSpec.TimestampStringLayout | osc_validation/utils/osi_channel_specification.py:90 | a rendered date-time is 16 characters: padded date, 'T', padded time, 'Z' |
| ChannelSpec.CustomName | osc_validation/utils/osi_channel_specification.py:66-83 | the custom name is non-empty and dot-free, followed by ".osi" and, as `$` allows, an optional final newline |
| ChannelSpec.SplitFieldsLength | osc_validation/utils/osi_channel_specification.py:66-83 | splitting yields the requested number of fields |
| ChannelSpec.SplitFieldsJoined | osc_validation/utils/osi_channel_specification.py:66-83 | the fields joined with "_" plus the rest give back the name |
| ChannelSpec.SplitFieldsUnseparated | osc_validation/utils/osi_channel_specification.py:66-83 | no field contains the separator |
| ChannelSpec.JoinedCons | osc_validation/utils/osi_channel_specification.py:66-83 | joining peels off the first field |
| ChannelSpec.SplitFieldsCons | osc_validation/utils/osi_channel_specification.py:66-83 | splitting peels off the first field |
| ChannelSpec.SplitFieldsOfJoined | osc_validation/utils/osi_channel_specification.py:66-83 | separator-free fields that are joined split back into the same fields |
| ChannelSpec.EndsWithAppend | osc_validation/utils/osi_channel_specification.py:66-83 | a suffix of the tail is a suffix of the whole |
| ChannelSpec.ParseFields | osc_validation/utils/osi_channel_specification.py:85-102 | a parse has a valid timestamp, a known message type, non-empty separator-free versions and a dot-free custom name |
| ChannelSpec.ParseOsiTraceFilename | osc_validation/utils/osi_channel_specification.py:49-102 | a parse has these properties and the file name ends in ".osi" |
| ChannelSpec.ParseFormattedFilename | osc_validation/utils/osi_channel_specification.py:49-102 | every name built in the recommended pattern parses back to its fields, with the abbreviation expanded |
| ChannelSpec.TypeFromFilename | osc_validation/utils/osi_channel_specification.py:153-156 | a message type is detected iff the file name parses |
| ChannelSpec.SpecWithName | osc_validation/utils/osi_channel_specification.py:204-211 | a copy with the new name in the same directory and every other field kept; ValueError when `with_name` refuses |
| ChannelSpec.SpecWithNameSuffix | osc_validation/utils/osi_channel_specification.py:213-221 | a copy named stem + text + suffix; other fields kept |
| ChannelSpec.SpecWithNameSuffixKeepsFormat | osc_validation/utils/osi_channel_specification.py:213-221 | inserting text before the suffix keeps the suffix, and so keeps the trace format |
| ChannelSpec.SpecWithTraceFileFormat | osc_validation/utils/osi_channel_specification.py:223-231 | the copy's suffix is the format's extension, so it reads back as that format; stem and other fields kept |
| ChannelSpec.ChannelSpecification.constructor | osc_validation/utils/osi_channel_specification.py:106-129 | a specification holds the given path, type, topic and metadata |
| ChannelSpec.ChannelSpecification.TraceFileFormat | osc_validation/utils/osi_channel_specification.py:130-132 | the format of the path's suffix |
| ChannelSpec.ChannelSpecification.TryAutodetectMessageType | osc_validation/utils/osi_channel_specification.py:134-161 | a set type is kept (True); otherwise the type is taken from the MCAP channel or the file name and the result says whether one was found; a KeyError from the format passes through |
| ChannelSpec.ChannelSpecification.AutofillTopic | osc_validation/utils/osi_channel_specification.py:163-168 | a missing topic becomes the path's stem; everything else is kept |
| ChannelSpec.ChannelSpecification.WithName | osc_validation/utils/osi_channel_specification.py:204-211 | a fresh specification as `SpecWithName` specifies |
| ChannelSpec.ChannelSpecification.WithNameSuffix | osc_validation/utils/osi_channel_specification.py:213-221 | a fresh specification as `SpecWithNameSuffix` specifies |
| ChannelSpec.ChannelSpecification.WithTraceFileFormat | osc_validation/utils/osi_channel_specification.py:223-231 | a fresh specification as `SpecWithTraceFileFormat` specifies |
| ChannelSpec.ChannelSpecification.WithMessageType | osc_validation/utils/osi_channel_specification.py:233-239 | a fresh copy whose only change is the message type |
| ChannelSpec.ChannelSpecification.WithTopic | osc_validation/utils/osi_channel_specification.py:241-247 | a fresh copy whose only change is the topic |
| ChannelSpec.NewSpecValidator | osc_validation/utils/osi_channel_specification.py:257-268 | absent required keys mean none are required |
| ChannelSpec.FirstMissingKey | osc_validation/utils/osi_channel_specification.py:283-285 | the first required key missing from the metadata, if any |
| ChannelSpec.Validate | osc_validation/utils/osi_channel_specification.py:270-285 | checks in the order type allowed, type required, topic required, metadata keys: each rejection happens exactly when the earlier checks pass and its own fails, and a missing key is reported as the first missing one; TypeError exactly when the keys are reached with metadata None; accepts iff all pass |
| OsiReader.LastVersionIsLast | osc_validation/utils/osi_reader.py:42-43 | the version kept is the one of the last message that has one |
| OsiReader.StepSumTelescopes | osc_validation/utils/osi_reader.py:44-46 | the accumulated steps sum to stop minus start |
| OsiReader.ChannelInfoOf | osc_validation/utils/osi_reader.py:34-58 | start, stop, step count and the last version; average step = accumulated steps / (n-1), 0 for at most one step; UnboundLocalError when no message has a version |
| OsiReader.RetrieveChannelInfoFromData | osc_validation/utils/osi_reader.py:34-58 | the loop computes exactly the specified channel info |
| OsiReader.McapTrace.AvailableTopics | osc_validation/utils/osi_reader.py:109-110 | the topics of the channels, in order |
| OsiReader.McapTrace.FirstChannel | osc_validation/utils/osi_reader.py:112-116 | the first channel with the topic, or none iff the topic is unavailable |
| OsiReader.McapTrace.FirstChannelFrom | osc_validation/utils/osi_reader.py:112-116 | the first channel with the topic at or after a position |
| OsiReader.McapTrace.GetChannelMetadata | osc_validation/utils/osi_reader.py:112-116 | the metadata of the first channel with the topic; None iff there is none |
| OsiReader.McapTrace.GetMessages | osc_validation/utils/osi_reader.py:127-131 | ValueError exactly for an unknown topic |
| OsiReader.McapTrace.GetChannelInfo | osc_validation/utils/osi_reader.py:118-125 | the statistics of the topic's messages plus the schema name of the first channel with that topic; ValueError for an unknown topic, the statistics' error when they fail, KeyError exactly when that first channel's schema id is unknown |
| OsiReader.TraceAdapter.GetChannelInfo | osc_validation/utils/osi_reader.py:161-166 | the statistics of all messages, typed "osi3." + type name |
| OsiReader.ChannelReader.GetFileMetadata | osc_validation/utils/osi_reader.py:198-199 | the MCAP metadata; a TypeError for a binary trace, whose adapter demands a topic argument |
| OsiReader.ChannelReader.GetChannelMetadata | osc_validation/utils/osi_reader.py:201-202 | the topic's metadata; NotImplementedError for a binary trace |
| OsiReader.ChannelReader.GetChannelInfo | osc_validation/utils/osi_reader.py:204-205 | passes through to the source with the reader's topic |
| OsiReader.ChannelReader.GetMessages | osc_validation/utils/osi_reader.py:210-211 | passes through to the source; a binary trace yields all its messages |
| OsiReader.FromOsiBinary | osc_validation/utils/osi_reader.py:187-190 | a reader on the "single-channel" placeholder topic that yields every message of the file |
| OsiReader.FromOsiMcap | osc_validation/utils/osi_reader.py:192-196 | ValueError exactly for an unavailable topic, else a reader on that topic |
| OsiReader.FromOsiMcapMessages | osc_validation/utils/osi_reader.py:192-205 | a reader built for an available topic yields that topic's messages and metadata |
| Descriptors.ReachRank | osc_validation/utils/osi_mcap.py:310-322 | every file reached through imports ranks no higher than its importer |
| Descriptors.ReachListed | osc_validation/utils/osi_mcap.py:310-322 | a dependency-first list that holds a file also holds everything it imports |
| Descriptors.AddFile | osc_validation/utils/osi_mcap.py:314-319 | adding a file after all its imports keeps the list duplicate-free and dependency-first |
| Descriptors.ListedExtended | osc_validation/utils/osi_mcap.py:314-319 | listed files stay listed as the list grows |
| Descriptors.AddedForImport | osc_validation/utils/osi_mcap.py:316-318 | files added while visiting an import are reachable from the importer |
| Descriptors.AddedThenSelf | osc_validation/utils/osi_mcap.py:319 | the importer is appended after its imports |
| Descriptors.DescriptorSetBuilder.VisitImports | osc_validation/utils/osi_mcap.py:315-318 | visiting the imports only extends the list, with files reachable from the importer |
| Descriptors.ReachAllListed | osc_validation/utils/osi_mcap.py:310-322 | once a file and its direct imports are listed, everything it reaches is listed |
| Descriptors.DescriptorSetBuilder.constructor | osc_validation/utils/osi_mcap.py:310-313 | the builder starts with nothing seen and no files |
| Descriptors.DescriptorSetBuilder.AppendFileDescriptor | osc_validation/utils/osi_mcap.py:314-319 | the recursive visit appends the file last, adds only files it reaches, and leaves all of them listed |
| Descriptors.BuildFileDescriptorSet | osc_validation/utils/osi_mcap.py:310-322 | the descriptor set is duplicate-free, lists every dependency before its importer, and holds exactly the files the root reaches, the root last |
| McapOutput.MissingNonEmpty | osc_validation/utils/osi_mcap.py:244-277 | the missing keys are disjoint from the present ones, and non-empty when a key is missing |
| McapOutput.MetadataWarnings | osc_validation/utils/osi_mcap.py:244-277 | one warning for missing mandatory keys iff some are missing, and one for missing recommended keys iff some are missing, each naming exactly those keys |
| McapOutput.CompleteMetadataNoWarnings | osc_validation/utils/osi_mcap.py:244-260 | complete file metadata draws no warning |
| McapOutput.SplitAll | osc_validation/utils/osi_mcap.py:342 | `str.split` gives at least one part, none containing the separator |
| McapOutput.SplitAllNone | osc_validation/utils/osi_mcap.py:342 | a string without the separator splits into itself |
| McapOutput.SplitAllThree | osc_validation/utils/osi_mcap.py:342 | three separator-free parts joined by the separator split back into those parts |
| McapOutput.NoDotInDigits | osc_validation/utils/osi_mcap.py:342 | digit strings contain no dot |
| McapOutput.VersionTripleRoundTrip | osc_validation/utils/osi_mcap.py:339-346 | the rendered "major.minor.patch" of a version parses back to its numbers |
| McapOutput.ChannelVersionCheck | osc_validation/utils/osi_mcap.py:339-346 | no declared version: accepted; a declared version that is not three integers: ValueError |
| McapOutput.DeclaredVersionAcceptsExactly | osc_validation/utils/osi_mcap.py:339-346 | a channel declaring a version accepts a message iff its version is that one |
| McapOutput.RegisteredExtended | osc_validation/utils/osi_mcap.py:296-308 | registering a channel maps its topic to the new id and keeps the registry consistent |
| McapOutput.AllAcceptedExtended | osc_validation/utils/osi_mcap.py:296-308 | new channels do not disturb already written messages |
| McapOutput.AllAcceptedAppend | osc_validation/utils/osi_mcap.py:348-355 | an accepted message appended keeps every record on file accepted |
| McapOutput.McapFileWriter.Start | osc_validation/utils/osi_mcap.py:233-235 | a started file holds the profile and library and nothing else |
| McapOutput.McapFileWriter.AddMetadata | osc_validation/utils/osi_mcap.py:238-241 | appends one metadata record |
| McapOutput.McapFileWriter.RegisterSchema | osc_validation/utils/osi_mcap.py:296-300 | appends a schema numbered from 1 |
| McapOutput.McapFileWriter.RegisterChannel | osc_validation/utils/osi_mcap.py:301-306 | appends a channel numbered by registration |
| McapOutput.McapFileWriter.AddMessage | osc_validation/utils/osi_mcap.py:349-354 | appends one message record |
| McapOutput.McapFileWriter.Finish | osc_validation/utils/osi_mcap.py:357-361 | marks the file finished; contents unchanged |
| OsiMcap.FirstVersionIsFirst | osc_validation/utils/osi_mcap.py:55-56 | the cached version is the first one seen |
| OsiMcap.FirstVersionKept | osc_validation/utils/osi_mcap.py:55-56 | later messages do not change a version already found |
| OsiMcap.TraceStatistics | osc_validation/utils/osi_mcap.py:43-66 | start, stop, count and average step (stop - start)/(n-1); ZeroDivisionError exactly for a one-message trace; an empty trace gives None, None, 0.0, 0 |
| OsiMcap.StatisticsAgreeWithChannelInfo | osc_validation/utils/osi_mcap.py:43-66 | for two or more messages the old and new readers compute the same statistics |
| OsiMcap.TraceReader.constructor | osc_validation/utils/osi_mcap.py:29-36 | nothing is cached initially |
| OsiMcap.TraceReader.GetTraceInfo | osc_validation/utils/osi_mcap.py:43-66 | a complete cache is returned unchanged; otherwise the statistics are computed and cached, and the first version is recorded |
| OsiMcap.TraceReader.ReadStatistics | osc_validation/utils/osi_mcap.py:48-63 | the reading loop counts the messages, sums the steps, records the first and last time, and keeps the first version seen |
| OsiMcap.TotalLengthAppend | osc_validation/utils/osi_mcap.py:198 | the byte count grows by the payload length |
| OsiMcap.TraceWriterBinary.StoredAllAppend | osc_validation/utils/osi_mcap.py:190-196 | each written message is stored as its (compressed) serialisation |
| OsiMcap.TraceWriterBinary.AppendKeepsCounters | osc_validation/utils/osi_mcap.py:195-199 | a write extends the file by one record and both byte counters by the payload sizes |
| OsiMcap.TraceWriterBinary.Commit | osc_validation/utils/osi_mcap.py:195-199 | one more record in the file, the message counted and both byte counters grown by the payload sizes |
| OsiMcap.TraceWriterBinary.Open | osc_validation/utils/osi_mcap.py:176-188 | a writer over an empty file, with zero counters |
| OsiMcap.TraceWriterBinary.Write | osc_validation/utils/osi_mcap.py:190-199 | appends length and payload, counts the message and adds compressed and uncompressed sizes; struct.error for an over-long payload, ValueError after close |
| OsiMcap.TraceWriterBinary.Close | osc_validation/utils/osi_mcap.py:201-209 | closes the file; ZeroDivisionError for a compressed writer that wrote no bytes |
| OsiMcap.NewTraceWriterBinary | osc_validation/utils/osi_mcap.py:164-188 | ValueError unless the path ends in ".osi.xz" (compressed) or ".osi" (plain) |
| OsiMcap.WrittenTraceReadsBack | osc_validation/utils/osi_mcap.py:163-209 | the file written so far reads back as the stored payloads, one per message, which for an uncompressed writer are the serialised messages |
| OsiMcap.TraceWriterMcap.Open | osc_validation/utils/osi_mcap.py:225-242 | an "osi2mcap" file holding the file metadata, an empty registry, and warnings for missing keys |
| OsiMcap.TraceWriterMcap.AddOsiChannel | osc_validation/utils/osi_mcap.py:279-308 | warns about channel metadata, registers the dependency-first descriptor set as a schema and a channel, and maps the topic to it |
| OsiMcap.TraceWriterMcap.Write | osc_validation/utils/osi_mcap.py:324-355 | ValueError for an unregistered topic or a version mismatch; otherwise one record on the topic's channel, stamped seconds*1e9+nanos, and counted |
| OsiMcap.TraceWriterMcap.Close | osc_validation/utils/osi_mcap.py:357-361 | finishes the MCAP file without changing its records |
| OsiMcap.NewTraceWriterMcap | osc_validation/utils/osi_mcap.py:213-242 | ValueError unless the path ends in ".mcap" |
| OsiWriter.OSITraceWriter.Open | osc_validation/utils/osi_writer.py:12-41 | an MCAP file started without a profile, holding the file metadata and an empty registry, with warnings for missing keys |
| OsiWriter.OSITraceWriter.AddOsiChannel | osc_validation/utils/osi_writer.py:78-107 | as in the MCAP writer: schema, channel and topic map, plus channel-metadata warnings |
| OsiWriter.OSITraceWriter.Write | osc_validation/utils/osi_writer.py:123-154 | ValueError for an unknown topic or a version mismatch; otherwise one record stamped seconds*1e9+nanos on the topic's channel |
| OsiWriter.OSITraceWriter.Close | osc_validation/utils/osi_writer.py:156-160 | finishes the MCAP file |
| OsiWriter.OSITraceWriter.Exit | osc_validation/utils/osi_writer.py:165-167 | leaving the context closes the file and lets exceptions propagate |
| OsiWriter.NewOSITraceWriter | osc_validation/utils/osi_writer.py:12-41 | ValueError unless the path ends in ".mcap" |
| EsminiGt2Sv.Renumbered | osc_validation/utils/esminigt2sv.py:24-27 | moving objects are numbered 1..n in order, with nothing else changed |
| EsminiGt2Sv.RenumberMovingObjects | osc_validation/utils/esminigt2sv.py:24-27 | the counter loop yields exactly that numbering |
| EsminiGt2Sv.WrapGroundTruth | osc_validation/utils/esminigt2sv.py:18-38 | the SensorView has the frame's timestamp, the current version inside and out, host id 1 inside and out, and objects numbered 1..n |
| EsminiGt2Sv.WrapKeepsContent | osc_validation/utils/esminigt2sv.py:18-38 | apart from version, host id and object ids the wrapped ground truth is the input frame |
| EsminiGt2Sv.SensorViewPayloads | osc_validation/utils/esminigt2sv.py:39 | one serialised SensorView per input frame |
| EsminiGt2Sv.Gt2Sv | osc_validation/utils/esminigt2sv.py:12-43 | appends one framed record per frame; on an over-long payload stops with struct.error after the records before it |
| StripSensorView.Stripped | osc_validation/utils/strip_sensorview.py:15-26 | each enabled flag empties its field; every other field keeps its value |
| StripSensorView.StrippedKeepsOutside | osc_validation/utils/strip_sensorview.py:15-26 | all content outside the six strippable fields is the input's, whatever the flags |
| StripSensorView.StrippedIdempotent | osc_validation/utils/strip_sensorview.py:15-26 | stripping twice is stripping once |
| StripSensorView.StrippedNoFlags | osc_validation/utils/strip_sensorview.py:15-26 | with no flag set the message is unchanged |
| StripSensorView.StrippedPayloads | osc_validation/utils/strip_sensorview.py:27 | one serialised stripped message per input message |
| StripSensorView.ClearFields | osc_validation/utils/strip_sensorview.py:15-26 | the ClearField sequence computes the stripped message |
| StripSensorView.Strip | osc_validation/utils/strip_sensorview.py:11-30 | appends one framed record per message; on an over-long payload stops with struct.error after the records before it |

## Left out

- Protobuf parsing and serialisation, lzma, the MCAP and lxml libraries, and pandas are foreign code:
  - serialisation and compression are function parameters;
  - MCAP files are records of what was written (`McapFileWriter`), and MCAP traces being read are lists of channels and messages (`McapTrace`);
  - XML documents are element trees;
  - data frames are sequences of rows.
- The parser `osi3trace.OSITrace` is not part of this model. The binary trace a reader sees is a sequence of messages. `Framing.ParseFrames` states what that reader recovers from the writer's bytes.
- `str(float)` and `rotatePointXYZ` are the `Formatter` and `Rotation` parameters. The rotation's trigonometry and float formatting are not modelled.
- Floats are real numbers, so IEEE rounding is not modelled. In particular `seconds + nanos / 1e9` and `round(...)` are exact here.
- `datetime.today()` in the scenario header is the `date` parameter.
- `print` output, `logging` and warnings are not modelled, except that the MCAP writers record their metadata warnings in a `warnings` sequence.
- `print_summary` and `close` of the readers are not modelled: they only print or release files.
- `OSIChannelSpecification.exists`, `rename_to` and `__str__` touch the file system or only format text, so they are not modelled.
- `OSIChannelReader.from_osi_channel_specification` and `OSIChannelWriter` are not part of this model. The trace functions of utils.py take the channel's messages directly.
- `OSITraceReaderMulti.get_file_metadata` iterates the MCAP library's records. The model takes those records as a given list.
- The MCAP multi-channel branch of `try_autodetect_message_type` opens a reader. The channel's message type it would find is the `multiChannelType` parameter.
- MCAP channel ids are assumed to follow registration order from 0, and schema ids from 1. The library's own allocation is not visible.
- `get_messages_in_index_range` and the `TraceReaderBinary`/`TraceReaderMcap` wrappers only forward to foreign readers. Only the shared statistics of `TraceReader.get_trace_info` are modelled. The schema name lookup that is modelled is the one in `get_channel_info` of osi_reader.py (`OsiReader.McapTrace.GetChannelInfo`). The `message_type_name` lookup and cache of `TraceReaderMcap.get_trace_info` are not modelled.
- `trajectory_df_info`, the sensor-data timestamp helpers, `rotatePointZYX` and the command-line `main`/argparse code are outside the modelled core.
- McapOutput.ChannelVersionCheck: its contract states only the outcomes that need no version parsing. `McapOutput.DeclaredVersionAcceptsExactly` states the full acceptance rule for a well-formed declared version.
- McapOutput.ChannelVersionCheck: the declared version's parts are read by `Common.ParseInt`, which accepts only an optional sign followed by ASCII digits. Python's `int()` also accepts surrounding whitespace, `_` between digits and any Unicode decimal digit, so a declared version such as "3.6.0 " raises ValueError here but is compared in the source.
- McapOutput.ParseVersionTriple: the same ASCII-only `int()` as ChannelVersionCheck.
- ParseInt: models `int()` on a string as an optional sign and ASCII digits only. Whitespace, underscores and non-ASCII decimal digits are not accepted.
- ParseTimestamp: `\d` and strptime's `%Y%m%d` fields accept any Unicode decimal digit; the model accepts only ASCII digits, so a timestamp written with, for example, full-width digits is rejected here.
- ParseFields: the frame count `\d+` and the timestamp accept only ASCII digits here, where the source's regular expression also accepts other Unicode decimal digits.
- ParseOsiTraceFilename: inherits the ASCII-only digits of ParseFields.
- SpecWithName, SpecWithNameSuffix and SpecWithTraceFileFormat (and the `ChannelSpecification.With*` methods): the source passes the same metadata dict to the copy, so a later change to one specification's metadata shows in the other. The model copies metadata by value and does not capture that aliasing.
- OsiMcap.TraceStatistics and OsiReader.ChannelInfoOf are modelled as written. The older reader divides by n-1 with no guard, so a one-message trace raises ZeroDivisionError. The newer reader reports 0.0 in that case. When neither reader has a version, the newer one raises UnboundLocalError.
