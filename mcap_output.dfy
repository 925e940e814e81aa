/**
 * What the two MCAP trace writers (osi_mcap.py's TraceWriterMcap and
 * osi_writer.py's OSITraceWriter) share: the records an MCAP file receives,
 * the metadata completeness checks that only warn, and the check of a
 * message's version against the version its channel declares.
 */
module McapOutput {
  import opened Common
  import opened Timestamps
  import opened OsiModel
  import OsiReader

  /** MessageEncoding.Protobuf: the schema and message encoding of every OSI channel. */
  const PROTOBUF_ENCODING := "protobuf"

  /** The name of the file-level metadata record. */
  const OSI_TRACE_METADATA := "net.asam.osi.trace"

  /** The channel metadata key that declares the channel's OSI version. */
  const CHANNEL_OSI_VERSION_KEY := "net.asam.osi.trace.channel.osi_version"

  const FILE_REQUIRED_KEYS: set<string> :=
    {"version", "min_osi_version", "max_osi_version", "min_protobuf_version", "max_protobuf_version"}
  const FILE_RECOMMENDED_KEYS: set<string> :=
    {"zero_time", "creation_time", "description", "authors", "data_sources"}
  const CHANNEL_REQUIRED_KEYS: set<string> :=
    {CHANNEL_OSI_VERSION_KEY, "net.asam.osi.trace.channel.protobuf_version"}
  const CHANNEL_RECOMMENDED_KEYS: set<string> := {"net.asam.osi.trace.channel.description"}

  /** The protobuf message type of a channel: its full name and the .proto file declaring it. */
  datatype MessageType = MessageType(fullName: string, file: string)

  datatype MetadataRecord = MetadataRecord(name: string, data: map<string, string>)
  /** A registered schema; its data is the descriptor set, given here by its file names in order. */
  datatype Schema = Schema(id: nat, name: string, encoding: string, files: seq<string>)
  datatype Channel = Channel(id: nat, topic: string, messageEncoding: string, schemaId: nat,
                             metadata: map<string, string>)
  datatype MessageRecord = MessageRecord(channelId: nat, logTime: int, publishTime: int, data: Bytes)

  /** Which metadata a warning is about: the file's or a channel's. */
  datatype MetadataScope = TraceMetadata | ChannelMetadata

  /** One printed warning and the keys it names. */
  datatype MetadataWarning =
    | MissingMandatory(scope: MetadataScope, keys: set<string>)
    | MissingRecommended(scope: MetadataScope, keys: set<string>)

  /** Keys some of which are missing leave a non-empty set of missing keys. */
  lemma MissingNonEmpty(keys: set<string>, present: set<string>)
    ensures keys - present !! present
    ensures !(keys <= present) ==> keys - present != {}
  {
    if !(keys <= present) {
      var k :| k in keys && k !in present;
      assert k in keys - present;
    }
  }

  /**
   * The warnings a completeness check prints: one naming the missing
   * mandatory keys when there are any, then one naming the missing
   * recommended keys when there are any.  Nothing is ever raised.
   */
  function MetadataWarnings(scope: MetadataScope, required: set<string>, recommended: set<string>,
                            present: set<string>): (w: seq<MetadataWarning>)
    ensures MissingMandatory(scope, required - present) in w <==> !(required <= present)
    ensures MissingRecommended(scope, recommended - present) in w <==> !(recommended <= present)
    ensures |w| <= 2
    ensures forall x :: x in w ==> x.scope == scope && x.keys != {} && x.keys !! present
    ensures forall x :: x in w && x.MissingMandatory? ==> x.keys <= required
    ensures forall x :: x in w && x.MissingRecommended? ==> x.keys <= recommended
  {
    MissingNonEmpty(required, present);
    MissingNonEmpty(recommended, present);
    (if required <= present then [] else [MissingMandatory(scope, required - present)]) +
    (if recommended <= present then [] else [MissingRecommended(scope, recommended - present)])
  }

  /** validate_file_metadata. */
  function FileMetadataWarnings(md: map<string, string>): seq<MetadataWarning>
  {
    MetadataWarnings(TraceMetadata, FILE_REQUIRED_KEYS, FILE_RECOMMENDED_KEYS, md.Keys)
  }

  /** validate_channel_metadata. */
  function ChannelMetadataWarnings(md: map<string, string>): seq<MetadataWarning>
  {
    MetadataWarnings(ChannelMetadata, CHANNEL_REQUIRED_KEYS, CHANNEL_RECOMMENDED_KEYS, md.Keys)
  }

  /** Metadata carrying every required and recommended key draws no warning. */
  lemma {:induction false} CompleteMetadataNoWarnings(md: map<string, string>)
    requires FILE_REQUIRED_KEYS + FILE_RECOMMENDED_KEYS <= md.Keys
    ensures FileMetadataWarnings(md) == []
  {
    assert FILE_REQUIRED_KEYS <= md.Keys && FILE_RECOMMENDED_KEYS <= md.Keys;
  }

  /** str.split(c): the pieces between the occurrences of c; always at least one. */
  function SplitAll(s: string, c: char): (parts: seq<string>)
    ensures |parts| >= 1
    ensures forall i :: 0 <= i < |parts| ==> c !in parts[i]
    decreases |s|
  {
    match SplitFirst(s, c)
    case None => [s]
    case Some(p) => [p.0] + SplitAll(p.1, c)
  }

  /** A string without c splits into itself alone. */
  lemma SplitAllNone(s: string, c: char)
    requires c !in s
    ensures SplitAll(s, c) == [s]
  {
  }

  /** Joining three pieces free of c with c and splitting again gives the pieces back. */
  lemma SplitAllThree(a: string, b: string, d: string, c: char)
    requires c !in a && c !in b && c !in d
    ensures SplitAll(a + [c] + b + [c] + d, c) == [a, b, d]
  {
    var s := a + [c] + b + [c] + d;
    assert s == a + [c] + (b + [c] + d);
    SplitFirstOfJoin(a, c, b + [c] + d);
    SplitFirstOfJoin(b, c, d);
    SplitAllNone(d, c);
  }

  /** major, minor, patch = map(int, s.split(".")): None where that raises ValueError. */
  function ParseVersionTriple(s: string): Option<(int, int, int)>
  {
    var parts := SplitAll(s, '.');
    if |parts| != 3 then None
    else match (ParseInt(parts[0]), ParseInt(parts[1]), ParseInt(parts[2]))
      case (Some(major), Some(minor), Some(patch)) => Some((major, minor, patch))
      case _ => None
  }

  lemma NoDotInDigits(s: string)
    requires AllDigits(s)
    ensures '.' !in s
  {
    assert forall i :: 0 <= i < |s| ==> s[i] != '.';
  }

  /** The declaration "M.m.p" written for a version parses back to that version's triple. */
  lemma VersionTripleRoundTrip(v: Version)
    ensures ParseVersionTriple(OsiReader.VersionString(v)) == Some((v.major as int, v.minor as int, v.patch as int))
  {
    var a, b, d := NatToString(v.major), NatToString(v.minor), NatToString(v.patch);
    NoDotInDigits(a);
    NoDotInDigits(b);
    NoDotInDigits(d);
    assert OsiReader.VersionString(v) == a + ['.'] + b + ['.'] + d;
    SplitAllThree(a, b, d, '.');
    ParseIntOfNat(v.major);
    ParseIntOfNat(v.minor);
    ParseIntOfNat(v.patch);
  }

  /** channel_metadata.get(...): the declared version, if the key is present. */
  function DeclaredVersion(md: map<string, string>): Option<string>
  {
    if CHANNEL_OSI_VERSION_KEY in md then Some(md[CHANNEL_OSI_VERSION_KEY]) else None
  }

  /**
   * The version check of write: a channel that declares a (non-empty)
   * version accepts only messages with that major.minor.patch, and a
   * declaration that is not three integers joined by dots raises ValueError
   * whatever the message; without a declaration every message passes.
   */
  function ChannelVersionCheck(md: map<string, string>, v: Version): (r: Result<()>)
    ensures r.Err? ==> r.error == ValueError
    ensures !Truthy(DeclaredVersion(md)) ==> r.Ok?
    ensures Truthy(DeclaredVersion(md)) && ParseVersionTriple(md[CHANNEL_OSI_VERSION_KEY]).None? ==> r.Err?
  {
    var declared := DeclaredVersion(md);
    if !Truthy(declared) then Ok(())
    else match ParseVersionTriple(declared.value)
      case None => Err(ValueError)
      case Some(t) =>
        if v.major as int != t.0 || v.minor as int != t.1 || v.patch as int != t.2 then Err(ValueError)
        else Ok(())
  }

  /** A channel declaring the version string of v accepts exactly the messages of version v. */
  lemma DeclaredVersionAcceptsExactly(md: map<string, string>, v: Version, w: Version)
    requires CHANNEL_OSI_VERSION_KEY in md && md[CHANNEL_OSI_VERSION_KEY] == OsiReader.VersionString(v)
    ensures ChannelVersionCheck(md, w).Ok? <==> w == v
  {
    VersionTripleRoundTrip(v);
    assert DeclaredVersion(md) == Some(OsiReader.VersionString(v));
  }

  /**
   * The topic registry of a writer: every registered topic maps to a
   * channel registered for that topic, with the metadata recorded for it.
   */
  predicate Registered(channels: seq<Channel>, active: map<string, nat>, metadata: map<string, map<string, string>>)
  {
    forall t :: t in active ==>
      active[t] < |channels| && channels[active[t]].topic == t &&
      t in metadata && channels[active[t]].metadata == metadata[t]
  }

  /**
   * A message record as write adds it for message m: on a registered
   * channel whose declared version m passes, stamped with m's time and
   * holding m's serialisation.
   */
  predicate Accepted(channels: seq<Channel>, rec: MessageRecord, m: Message, serialize: Message -> Bytes)
  {
    rec.channelId < |channels| &&
    ChannelVersionCheck(channels[rec.channelId].metadata, MessageVersion(m)).Ok? &&
    rec.logTime == Nanoseconds(MessageTimestamp(m)) && rec.publishTime == rec.logTime &&
    rec.data == serialize(m)
  }

  predicate AllAccepted(channels: seq<Channel>, recs: seq<MessageRecord>, ms: seq<Message>, serialize: Message -> Bytes)
  {
    |recs| == |ms| && forall i :: 0 <= i < |recs| ==> Accepted(channels, recs[i], ms[i], serialize)
  }

  /** Registering one more channel and pointing its topic at it keeps the registry consistent. */
  lemma RegisteredExtended(before: seq<Channel>, c: Channel, active: map<string, nat>,
                           metadata: map<string, map<string, string>>, topic: string)
    requires Registered(before, active, metadata) && c.topic == topic
    ensures Registered(before + [c], active[topic := |before|], metadata[topic := c.metadata])
  {
    var channels := before + [c];
    forall t | t in active && t != topic
      ensures active[t] < |channels| && channels[active[t]] == before[active[t]]
    {
    }
  }

  /** Registering more channels leaves every written message accepted. */
  lemma AllAcceptedExtended(before: seq<Channel>, c: Channel, recs: seq<MessageRecord>,
                            ms: seq<Message>, serialize: Message -> Bytes)
    requires AllAccepted(before, recs, ms, serialize)
    ensures AllAccepted(before + [c], recs, ms, serialize)
  {
    var channels := before + [c];
    forall i | 0 <= i < |recs| ensures Accepted(channels, recs[i], ms[i], serialize) {
      assert Accepted(before, recs[i], ms[i], serialize);
      assert channels[recs[i].channelId] == before[recs[i].channelId];
    }
  }

  /** Adding an accepted record for one more message keeps all messages accepted. */
  lemma AllAcceptedAppend(channels: seq<Channel>, recs: seq<MessageRecord>, ms: seq<Message>,
                          serialize: Message -> Bytes, rec: MessageRecord, m: Message)
    requires AllAccepted(channels, recs, ms, serialize) && Accepted(channels, rec, m, serialize)
    ensures AllAccepted(channels, recs + [rec], ms + [m], serialize)
  {
    forall i | 0 <= i < |recs| + 1 ensures Accepted(channels, (recs + [rec])[i], (ms + [m])[i], serialize) {
      if i < |recs| {
        assert (recs + [rec])[i] == recs[i] && (ms + [m])[i] == ms[i];
      }
    }
  }

  /**
   * The mcap library's Writer, as far as the trace writers use it: the
   * header it was started with and the records it has been given.  Schema
   * ids count from 1 and channel ids from 0 in registration order.
   */
  class McapFileWriter {
    var profile: string
    var library: string
    var metadata: seq<MetadataRecord>
    var schemas: seq<Schema>
    var channels: seq<Channel>
    var messages: seq<MessageRecord>
    var finished: bool

    /** Every id is its registration position. */
    ghost predicate Valid()
      reads this
    {
      (forall i :: 0 <= i < |schemas| ==> schemas[i].id == i + 1) &&
      (forall i :: 0 <= i < |channels| ==> channels[i].id == i)
    }

    /** Writer(output=path) followed by start(profile, library). */
    constructor Start(profile: string, library: string)
      ensures Valid()
      ensures this.profile == profile && this.library == library
      ensures metadata == [] && schemas == [] && channels == [] && messages == [] && !finished
    {
      this.profile := profile;
      this.library := library;
      metadata := [];
      schemas := [];
      channels := [];
      messages := [];
      finished := false;
    }

    method AddMetadata(name: string, data: map<string, string>)
      modifies this
      ensures metadata == old(metadata) + [MetadataRecord(name, data)]
      ensures profile == old(profile) && library == old(library) && schemas == old(schemas)
      ensures channels == old(channels) && messages == old(messages) && finished == old(finished)
    {
      metadata := metadata + [MetadataRecord(name, data)];
    }

    method RegisterSchema(name: string, encoding: string, files: seq<string>) returns (id: nat)
      requires Valid()
      modifies this
      ensures Valid() && id == |old(schemas)| + 1
      ensures schemas == old(schemas) + [Schema(id, name, encoding, files)]
      ensures profile == old(profile) && library == old(library) && metadata == old(metadata)
      ensures channels == old(channels) && messages == old(messages) && finished == old(finished)
    {
      id := |schemas| + 1;
      schemas := schemas + [Schema(id, name, encoding, files)];
    }

    method RegisterChannel(topic: string, messageEncoding: string, schemaId: nat, md: map<string, string>)
      returns (id: nat)
      requires Valid()
      modifies this
      ensures Valid() && id == |old(channels)|
      ensures channels == old(channels) + [Channel(id, topic, messageEncoding, schemaId, md)]
      ensures profile == old(profile) && library == old(library) && metadata == old(metadata)
      ensures schemas == old(schemas) && messages == old(messages) && finished == old(finished)
    {
      id := |channels|;
      channels := channels + [Channel(id, topic, messageEncoding, schemaId, md)];
    }

    method AddMessage(channelId: nat, logTime: int, publishTime: int, data: Bytes)
      modifies this
      ensures messages == old(messages) + [MessageRecord(channelId, logTime, publishTime, data)]
      ensures profile == old(profile) && library == old(library) && metadata == old(metadata)
      ensures schemas == old(schemas) && channels == old(channels) && finished == old(finished)
    {
      messages := messages + [MessageRecord(channelId, logTime, publishTime, data)];
    }

    method Finish()
      modifies this
      ensures finished
      ensures profile == old(profile) && library == old(library) && metadata == old(metadata)
      ensures schemas == old(schemas) && channels == old(channels) && messages == old(messages)
    {
      finished := true;
    }
  }
}
