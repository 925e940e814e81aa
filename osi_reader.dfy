/**
 * osi_reader.py: the channel statistics every reader computes in one pass over
 * a channel, the multi-channel (MCAP) reader's topic lookups, the adapter that
 * gives a single-channel binary trace the multi-channel interface, and the
 * channel reader that forwards to either with a fixed topic.
 */
module OsiReader {
  import opened Common
  import opened Timestamps
  import opened OsiModel

  /** The statistics of one channel. */
  datatype ChannelInfo = ChannelInfo(
    start: real,
    stop: real,
    stepSizeAvg: real,
    totalSteps: nat,
    osiVersion: string)

  /** f"{major}.{minor}.{patch}". */
  function VersionString(v: Version): string
  {
    NatToString(v.major) + "." + NatToString(v.minor) + "." + NatToString(v.patch)
  }

  /** A message time as the readers compute it: seconds + nanos / 1e9. */
  function Seconds(h: Header): real
  {
    h.timestamp.seconds as real + h.timestamp.nanos as real / NANOS_PER_SECOND as real
  }

  /** The version of the last message that carries one. */
  function LastVersion(hs: seq<Header>): Option<Version>
  {
    if hs == [] then None
    else if hs[|hs| - 1].version.Some? then hs[|hs| - 1].version
    else LastVersion(hs[..|hs| - 1])
  }

  /** The version kept is that of a message with none after it, and there is one exactly when some message has a version. */
  lemma {:induction false} LastVersionIsLast(hs: seq<Header>)
    ensures LastVersion(hs).Some? <==> exists i :: 0 <= i < |hs| && hs[i].version.Some?
    ensures LastVersion(hs).Some? ==>
      exists i :: 0 <= i < |hs| && hs[i].version == LastVersion(hs) && forall j :: i < j < |hs| ==> hs[j].version.None?
  {
    if hs != [] {
      var last := |hs| - 1;
      if hs[last].version.Some? {
        assert hs[last].version == LastVersion(hs);
      } else {
        var init := hs[..last];
        LastVersionIsLast(init);
        if LastVersion(init).Some? {
          var k :| 0 <= k < |init| && init[k].version == LastVersion(init) &&
            forall j :: k < j < |init| ==> init[j].version.None?;
          assert hs[k] == init[k];
          forall j | k < j < |hs| ensures hs[j].version.None? {
            if j < last {
              assert hs[j] == init[j];
            }
          }
        } else {
          forall i | 0 <= i < |hs| ensures hs[i].version.None? {
            if i < last {
              assert hs[i] == init[i];
            }
          }
        }
      }
    }
  }

  /** The sum of the differences between consecutive message times. */
  function StepSum(hs: seq<Header>): real
  {
    if |hs| < 2 then 0.0 else StepSum(hs[..|hs| - 1]) + (Seconds(hs[|hs| - 1]) - Seconds(hs[|hs| - 2]))
  }

  /** One more message adds its distance from the previous one. */
  lemma StepSumAppend(hs: seq<Header>, h: Header)
    ensures StepSum(hs + [h]) == if hs == [] then 0.0 else StepSum(hs) + (Seconds(h) - Seconds(hs[|hs| - 1]))
  {
    assert (hs + [h])[..|hs|] == hs;
  }

  lemma LastVersionAppend(hs: seq<Header>, h: Header)
    ensures LastVersion(hs + [h]) == if h.version.Some? then h.version else LastVersion(hs)
  {
    assert (hs + [h])[..|hs|] == hs;
  }

  /** The consecutive differences add up to the time between the first and the last message. */
  lemma {:induction false} StepSumTelescopes(hs: seq<Header>)
    requires hs != []
    ensures StepSum(hs) == Seconds(hs[|hs| - 1]) - Seconds(hs[0])
  {
    if |hs| >= 2 {
      var init := hs[..|hs| - 1];
      StepSumTelescopes(init);
      assert init[0] == hs[0] && init[|init| - 1] == hs[|hs| - 2];
    }
  }

  /**
   * The channel information of a channel whose messages have the given
   * headers: first and last time, count, average step (0 for fewer than two
   * messages) and the last version seen; without any version the variable
   * osi_version is never bound and reading it raises UnboundLocalError.
   */
  function ChannelInfoOf(hs: seq<Header>): (r: Result<ChannelInfo>)
    ensures r.Err? <==> forall i :: 0 <= i < |hs| ==> hs[i].version.None?
    ensures r.Err? ==> r.error == UnboundLocalError
    ensures r.Ok? ==> hs != [] && r.value.totalSteps == |hs|
    ensures r.Ok? ==> r.value.start == Seconds(hs[0]) && r.value.stop == Seconds(hs[|hs| - 1])
    ensures r.Ok? ==> LastVersion(hs).Some? && r.value.osiVersion == VersionString(LastVersion(hs).value)
    ensures r.Ok? && |hs| > 1 ==> r.value.stepSizeAvg == StepSum(hs) / (|hs| - 1) as real
    ensures r.Ok? && |hs| <= 1 ==> r.value.stepSizeAvg == 0.0
  {
    LastVersionIsLast(hs);
    match LastVersion(hs)
    case None => Err(UnboundLocalError)
    case Some(v) =>
      assert hs != [];
      var n := |hs|;
      var start, stop := Seconds(hs[0]), Seconds(hs[n - 1]);
      StepSumTelescopes(hs);
      Ok(ChannelInfo(start, stop, if n > 1 then (stop - start) / (n - 1) as real else 0.0, n, VersionString(v)))
  }

  /**
   * _retrieve_channel_info_from_data: one pass over the messages updating
   * start, stop, total_steps, step_acc and prev_timestamp.
   */
  method RetrieveChannelInfoFromData(hs: seq<Header>) returns (r: Result<ChannelInfo>)
    ensures r == ChannelInfoOf(hs)
  {
    var start: Option<real> := None;
    var stop: Option<real> := None;
    var totalSteps := 0;
    var stepAcc := 0.0;
    var prevTimestamp: Option<real> := None;
    var osiVersion: Option<Version> := None;
    var i := 0;
    while i < |hs|
      invariant 0 <= i <= |hs| && totalSteps == i
      invariant osiVersion == LastVersion(hs[..i])
      invariant stepAcc == StepSum(hs[..i])
      invariant i == 0 ==> start.None? && stop.None? && prevTimestamp.None?
      invariant i > 0 ==> start == Some(Seconds(hs[0])) && stop == Some(Seconds(hs[i - 1]))
      invariant i > 0 ==> prevTimestamp == Some(Seconds(hs[i - 1]))
    {
      var message := hs[i];
      assert hs[..i + 1] == hs[..i] + [message];
      StepSumAppend(hs[..i], message);
      LastVersionAppend(hs[..i], message);
      if message.version.Some? {
        osiVersion := message.version;
      }
      var timestamp := Seconds(message);
      if prevTimestamp.Some? {
        stepAcc := stepAcc + (timestamp - prevTimestamp.value);
      }
      if start.None? {
        start := Some(timestamp);
      }
      stop := Some(timestamp);
      totalSteps := totalSteps + 1;
      prevTimestamp := Some(timestamp);
      i := i + 1;
    }
    assert hs[..i] == hs;
    var stepSizeAvg := if totalSteps > 1 then stepAcc / (totalSteps - 1) as real else 0.0;
    if osiVersion.None? {
      return Err(UnboundLocalError);
    }
    r := Ok(ChannelInfo(start.value, stop.value, stepSizeAvg, totalSteps, VersionString(osiVersion.value)));
  }

  /** A channel's statistics together with the message type name get_channel_info adds. */
  datatype ChannelInfoWithType = ChannelInfoWithType(info: ChannelInfo, messageTypeName: Option<string>)

  /** One entry of an MCAP file's metadata records. */
  datatype MetadataEntry = MetadataEntry(name: string, data: map<string, string>)

  /** A channel of an MCAP summary: its topic, schema id and metadata. */
  datatype McapChannel = McapChannel(topic: string, schemaId: nat, metadata: map<string, string>)

  /**
   * What an opened MCAP file offers: the summary's channels in id order, the
   * schema names by id, the metadata records and the decoded messages per topic.
   */
  datatype McapTrace = McapTrace(
    channels: seq<McapChannel>,
    schemaNames: map<nat, string>,
    fileMetadata: seq<MetadataEntry>,
    topicMessages: map<string, seq<Message>>)
  {
    /** get_available_topics: the topic of every channel, in channel order. */
    function AvailableTopics(): (ts: seq<string>)
      ensures |ts| == |channels| && forall i :: 0 <= i < |channels| ==> ts[i] == channels[i].topic
    {
      seq(|channels|, i requires 0 <= i < |channels| => channels[i].topic)
    }

    /** The position of the first channel with the given topic. */
    function FirstChannel(topic: string): (k: Option<nat>)
      ensures k.None? <==> topic !in AvailableTopics()
      ensures k.Some? ==> k.value < |channels| && channels[k.value].topic == topic
      ensures k.Some? ==> forall j :: 0 <= j < k.value ==> channels[j].topic != topic
    {
      FirstChannelFrom(topic, 0)
    }

    function FirstChannelFrom(topic: string, from: nat): (k: Option<nat>)
      requires from <= |channels|
      ensures k.None? <==> forall j :: from <= j < |channels| ==> channels[j].topic != topic
      ensures k.Some? ==> from <= k.value < |channels| && channels[k.value].topic == topic
      ensures k.Some? ==> forall j :: from <= j < k.value ==> channels[j].topic != topic
      decreases |channels| - from
    {
      if from == |channels| then None
      else if channels[from].topic == topic then Some(from)
      else FirstChannelFrom(topic, from + 1)
    }

    /** get_channel_metadata: the metadata of the first channel with the topic, or None. */
    function GetChannelMetadata(topic: string): (md: Option<map<string, string>>)
      ensures md.None? <==> topic !in AvailableTopics()
      ensures md.Some? ==>
        exists i :: 0 <= i < |channels| && channels[i].topic == topic && channels[i].metadata == md.value &&
                    forall j :: 0 <= j < i ==> channels[j].topic != topic
    {
      match FirstChannel(topic)
      case None => None
      case Some(k) => Some(channels[k].metadata)
    }

    /** get_messages: the topic's messages, or ValueError for a topic no channel has. */
    function GetMessages(topic: string): (r: Result<seq<Message>>)
      ensures r.Err? <==> topic !in AvailableTopics()
      ensures r.Err? ==> r.error == ValueError
    {
      if topic !in AvailableTopics() then Err(ValueError)
      else Ok(if topic in topicMessages then topicMessages[topic] else [])
    }

    /**
     * get_channel_info: the statistics of the topic's messages plus the schema
     * name of the first channel with that topic.
     */
    function GetChannelInfo(topic: string): (r: Result<ChannelInfoWithType>)
      ensures topic !in AvailableTopics() ==> r == Err(ValueError)
      ensures r.Ok? ==> GetMessages(topic).Ok?
      ensures r.Ok? ==> ChannelInfoOf(Headers(GetMessages(topic).value)) == Ok(r.value.info)
      ensures r.Ok? ==>
        exists i :: 0 <= i < |channels| && channels[i].topic == topic && channels[i].schemaId in schemaNames &&
                    r.value.messageTypeName == Some(schemaNames[channels[i].schemaId]) &&
                    forall j :: 0 <= j < i ==> channels[j].topic != topic
      ensures topic in AvailableTopics() && ChannelInfoOf(Headers(GetMessages(topic).value)).Err? ==>
        r == Err(ChannelInfoOf(Headers(GetMessages(topic).value)).error)
      ensures r == Err(KeyError) <==>
        topic in AvailableTopics() && ChannelInfoOf(Headers(GetMessages(topic).value)).Ok? &&
        exists i :: 0 <= i < |channels| && channels[i].topic == topic && channels[i].schemaId !in schemaNames &&
                    forall j :: 0 <= j < i ==> channels[j].topic != topic
    {
      var messages :- GetMessages(topic);
      var info :- ChannelInfoOf(Headers(messages));
      var k := FirstChannel(topic).value;
      if channels[k].schemaId !in schemaNames then Err(KeyError)
      else Ok(ChannelInfoWithType(info, Some(schemaNames[channels[k].schemaId])))
    }
  }

  /** OSITraceAdapter: a single-channel binary trace of one message type. */
  datatype TraceAdapter = TraceAdapter(typeName: string, messages: seq<Message>)
  {
    function TopicPlaceholder(): string { "single-channel" }

    function MessageTypeName(): string { "osi3." + typeName }

    /** get_channel_info: the statistics of all messages, whatever the topic, with the fixed type name. */
    function GetChannelInfo(topic: string): (r: Result<ChannelInfoWithType>)
      ensures r.Ok? <==> ChannelInfoOf(Headers(messages)).Ok?
      ensures r.Ok? ==> r.value.info == ChannelInfoOf(Headers(messages)).value
      ensures r.Ok? ==> r.value.messageTypeName == Some("osi3." + typeName)
    {
      var info :- ChannelInfoOf(Headers(messages));
      Ok(ChannelInfoWithType(info, Some(MessageTypeName())))
    }
  }

  /** The source a channel reader forwards to. */
  datatype TraceSource = Multi(trace: McapTrace) | Single(adapter: TraceAdapter)

  /** OSIChannelReader: a source and the topic every forwarded call uses. */
  datatype ChannelReader = ChannelReader(source: TraceSource, topic: string)
  {
    /** get_file_metadata; the adapter's version takes a topic the forwarding call does not pass (TypeError). */
    function GetFileMetadata(): (r: Result<seq<MetadataEntry>>)
      ensures r.Ok? <==> source.Multi?
      ensures r.Ok? ==> r.value == source.trace.fileMetadata
      ensures r.Err? ==> r.error == TypeError
    {
      match source
      case Multi(t) => Ok(t.fileMetadata)
      case Single(_) => Err(TypeError)
    }

    /** get_channel_metadata with the reader's topic; the adapter raises NotImplementedError. */
    function GetChannelMetadata(): (r: Result<Option<map<string, string>>>)
      ensures r.Ok? <==> source.Multi?
      ensures r.Ok? ==> r.value == source.trace.GetChannelMetadata(topic)
      ensures r.Err? ==> r.error == NotImplementedError
    {
      match source
      case Multi(t) => Ok(t.GetChannelMetadata(topic))
      case Single(_) => Err(NotImplementedError)
    }

    /** get_channel_info with the reader's topic. */
    function GetChannelInfo(): (r: Result<ChannelInfoWithType>)
      ensures source.Multi? ==> r == source.trace.GetChannelInfo(topic)
      ensures source.Single? ==> r == source.adapter.GetChannelInfo(topic)
    {
      match source
      case Multi(t) => t.GetChannelInfo(topic)
      case Single(a) => a.GetChannelInfo(topic)
    }

    /** get_messages with the reader's topic; the adapter ignores the topic. */
    function GetMessages(): (r: Result<seq<Message>>)
      ensures source.Multi? ==> r == source.trace.GetMessages(topic)
      ensures source.Single? ==> r == Ok(source.adapter.messages)
    {
      match source
      case Multi(t) => t.GetMessages(topic)
      case Single(a) => Ok(a.messages)
    }
  }

  /** OSIChannelReader.from_osi_binary: the adapter with its placeholder topic. */
  function FromOsiBinary(typeName: string, messages: seq<Message>): (cr: ChannelReader)
    ensures cr.topic == "single-channel" && cr.GetMessages() == Ok(messages)
    ensures cr.GetChannelInfo().Ok? ==> cr.GetChannelInfo().value.messageTypeName == Some("osi3." + typeName)
  {
    var adapter := TraceAdapter(typeName, messages);
    ChannelReader(Single(adapter), adapter.TopicPlaceholder())
  }

  /** OSIChannelReader.from_osi_mcap: ValueError unless some channel has the topic. */
  function FromOsiMcap(t: McapTrace, topic: string): (r: Result<ChannelReader>)
    ensures r.Err? <==> topic !in t.AvailableTopics()
    ensures r.Err? ==> r.error == ValueError
    ensures r.Ok? ==> r.value.source == Multi(t) && r.value.topic == topic
  {
    if topic !in t.AvailableTopics() then Err(ValueError) else Ok(ChannelReader(Multi(t), topic))
  }

  /** Once from_osi_mcap has accepted a topic, reading the channel's messages cannot fail. */
  lemma FromOsiMcapMessages(t: McapTrace, topic: string)
    requires FromOsiMcap(t, topic).Ok?
    ensures FromOsiMcap(t, topic).value.GetMessages().Ok?
    ensures FromOsiMcap(t, topic).value.GetChannelMetadata() == Ok(t.GetChannelMetadata(topic))
    ensures t.GetChannelMetadata(topic).Some?
  {
  }
}
