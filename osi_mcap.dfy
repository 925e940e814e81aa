/**
 * osi_mcap.py: the trace statistics the reader base class computes and
 * caches, the OSI binary trace writer (length-prefixed records, optionally
 * compressed, with size counters), and the MCAP trace writer with its
 * topic-to-channel registry and the checks it makes on every write.
 */
module OsiMcap {
  import opened Common
  import opened Timestamps
  import opened OsiModel
  import opened Framing
  import opened Descriptors
  import opened McapOutput
  import OsiReader

  // ---------------------------------------------------------------------------
  // TraceReader.get_trace_info

  /** What get_trace_info returns: start, stop, average step size, total steps. */
  datatype TraceInfo = TraceInfo(start: Option<real>, stop: Option<real>, stepSizeAvg: real, totalSteps: nat)

  /** The version of the first message that carries one. */
  function FirstVersion(hs: seq<Header>): Option<Version>
  {
    if hs == [] then None
    else
      var v := FirstVersion(hs[..|hs| - 1]);
      if v.Some? then v else hs[|hs| - 1].version
  }

  /** The version found is that of a message with none before it, and there is one exactly when some message has a version. */
  lemma {:induction false} FirstVersionIsFirst(hs: seq<Header>)
    ensures FirstVersion(hs).Some? <==> exists i :: 0 <= i < |hs| && hs[i].version.Some?
    ensures FirstVersion(hs).Some? ==>
      exists i :: 0 <= i < |hs| && hs[i].version == FirstVersion(hs) && forall j :: 0 <= j < i ==> hs[j].version.None?
  {
    if hs != [] {
      var init := hs[..|hs| - 1];
      FirstVersionIsFirst(init);
      assert forall i :: 0 <= i < |init| ==> init[i] == hs[i];
    }
  }

  lemma FirstVersionAppend(hs: seq<Header>, h: Header)
    ensures FirstVersion(hs + [h]) == if FirstVersion(hs).Some? then FirstVersion(hs) else h.version
  {
    assert (hs + [h])[..|hs|] == hs;
  }

  /** Once a version has been found, later messages never replace it. */
  lemma {:induction false} FirstVersionKept(hs: seq<Header>, more: seq<Header>)
    requires FirstVersion(hs).Some?
    ensures FirstVersion(hs + more) == FirstVersion(hs)
  {
    if more == [] {
      assert hs + more == hs;
    } else {
      var init := more[..|more| - 1];
      FirstVersionKept(hs, init);
      assert (hs + more)[..|hs + more| - 1] == hs + init;
      assert FirstVersion(hs + more) == FirstVersion(hs + init);
    }
  }

  /**
   * osi_version after a pass over the messages: a value already set is kept,
   * otherwise the first message with a version sets it to "major.minor.patch".
   */
  function VersionAfter(current: Option<string>, hs: seq<Header>): Option<string>
  {
    if current.Some? then current
    else match FirstVersion(hs)
      case None => None
      case Some(v) => Some(OsiReader.VersionString(v))
  }

  /**
   * The statistics of one pass: the first and last time (None without
   * messages), the count, and the accumulated steps divided by count - 1,
   * which raises ZeroDivisionError for a single message and is 0 without any.
   */
  function TraceStatistics(hs: seq<Header>): (r: Result<TraceInfo>)
    ensures r.Err? <==> |hs| == 1
    ensures r.Err? ==> r.error == ZeroDivisionError
    ensures r.Ok? ==> r.value.totalSteps == |hs|
    ensures r.Ok? ==> (r.value.start.None? <==> hs == []) && (r.value.stop.None? <==> hs == [])
    ensures r.Ok? && hs != [] ==>
      r.value.start == Some(OsiReader.Seconds(hs[0])) && r.value.stop == Some(OsiReader.Seconds(hs[|hs| - 1]))
    ensures r.Ok? && hs != [] ==>
      r.value.stepSizeAvg == (OsiReader.Seconds(hs[|hs| - 1]) - OsiReader.Seconds(hs[0])) / (|hs| - 1) as real
    ensures hs == [] ==> r == Ok(TraceInfo(None, None, 0.0, 0))
  {
    var n := |hs|;
    if n == 1 then Err(ZeroDivisionError)
    else if n == 0 then Ok(TraceInfo(None, None, OsiReader.StepSum(hs) / (n - 1) as real, n))
    else
      OsiReader.StepSumTelescopes(hs);
      Ok(TraceInfo(Some(OsiReader.Seconds(hs[0])), Some(OsiReader.Seconds(hs[n - 1])),
                   OsiReader.StepSum(hs) / (n - 1) as real, n))
  }

  /**
   * For two or more messages the statistics agree with the channel
   * information osi_reader.py computes; they differ only for a single
   * message, where this reader divides by zero.
   */
  lemma StatisticsAgreeWithChannelInfo(hs: seq<Header>)
    requires |hs| >= 2 && OsiReader.ChannelInfoOf(hs).Ok?
    ensures var info := OsiReader.ChannelInfoOf(hs).value;
      TraceStatistics(hs) == Ok(TraceInfo(Some(info.start), Some(info.stop), info.stepSizeAvg, info.totalSteps))
  {
    OsiReader.StepSumTelescopes(hs);
  }

  /** The statistics fields of a trace reader and the version it found. */
  class TraceReader {
    var start: Option<real>
    var stop: Option<real>
    var stepSizeAvg: Option<real>
    var totalSteps: Option<nat>
    var osiVersion: Option<string>

    constructor()
      ensures start.None? && stop.None? && stepSizeAvg.None? && totalSteps.None? && osiVersion.None?
    {
      start, stop, stepSizeAvg, totalSteps, osiVersion := None, None, None, None, None;
    }

    /** All four statistics are set, so get_trace_info answers from them. */
    predicate Cached()
      reads this
    {
      start.Some? && stop.Some? && stepSizeAvg.Some? && totalSteps.Some?
    }

    function Info(): TraceInfo
      reads this
      requires Cached()
    {
      TraceInfo(start, stop, stepSizeAvg.value, totalSteps.value)
    }

    /**
     * get_trace_info over messages with the given headers: the cached values
     * when all are set, otherwise one pass that also sets osi_version and then
     * stores and returns the statistics.  The division by zero for a single
     * message happens after the pass, so osi_version is set but the
     * statistics are not.
     */
    method GetTraceInfo(hs: seq<Header>) returns (r: Result<TraceInfo>)
      modifies this
      ensures old(Cached()) ==> r == Ok(old(Info())) && unchanged(this)
      ensures !old(Cached()) ==> r == TraceStatistics(hs) && osiVersion == VersionAfter(old(osiVersion), hs)
      ensures !old(Cached()) && r.Ok? ==>
        start == r.value.start && stop == r.value.stop &&
        stepSizeAvg == Some(r.value.stepSizeAvg) && totalSteps == Some(r.value.totalSteps)
      ensures !old(Cached()) && r.Ok? ==> (Cached() <==> hs != [])
      ensures r.Err? ==>
        start == old(start) && stop == old(stop) && stepSizeAvg == old(stepSizeAvg) && totalSteps == old(totalSteps)
    {
      if Cached() {
        return Ok(Info());
      }
      var first, last, total, stepAcc := ReadStatistics(hs);
      if total == 1 {
        return Err(ZeroDivisionError);
      }
      if hs != [] {
        OsiReader.StepSumTelescopes(hs);
      }
      start, stop, stepSizeAvg, totalSteps := first, last, Some(stepAcc / (total as int - 1) as real), Some(total);
      r := Ok(TraceInfo(start, stop, stepSizeAvg.value, totalSteps.value));
    }

    /**
     * The loop of get_trace_info: first and last time, count and summed steps
     * of the messages; osi_version is set from the first message that has
     * one unless it was already set.
     */
    method ReadStatistics(hs: seq<Header>) returns (first: Option<real>, last: Option<real>, total: nat, stepAcc: real)
      modifies this
      ensures osiVersion == VersionAfter(old(osiVersion), hs)
      ensures start == old(start) && stop == old(stop)
      ensures stepSizeAvg == old(stepSizeAvg) && totalSteps == old(totalSteps)
      ensures total == |hs| && stepAcc == OsiReader.StepSum(hs)
      ensures hs == [] ==> first.None? && last.None?
      ensures hs != [] ==> first == Some(OsiReader.Seconds(hs[0])) && last == Some(OsiReader.Seconds(hs[|hs| - 1]))
    {
      first, last, total, stepAcc := None, None, 0, 0.0;
      var prevTimestamp: Option<real> := None;
      var i := 0;
      while i < |hs|
        invariant 0 <= i <= |hs| && total == i
        invariant osiVersion == VersionAfter(old(osiVersion), hs[..i])
        invariant stepAcc == OsiReader.StepSum(hs[..i])
        invariant i == 0 ==> first.None? && last.None? && prevTimestamp.None?
        invariant i > 0 ==> first == Some(OsiReader.Seconds(hs[0])) && last == Some(OsiReader.Seconds(hs[i - 1]))
        invariant i > 0 ==> prevTimestamp == Some(OsiReader.Seconds(hs[i - 1]))
        invariant start == old(start) && stop == old(stop)
        invariant stepSizeAvg == old(stepSizeAvg) && totalSteps == old(totalSteps)
      {
        var message := hs[i];
        assert hs[..i + 1] == hs[..i] + [message];
        OsiReader.StepSumAppend(hs[..i], message);
        FirstVersionAppend(hs[..i], message);
        if osiVersion.None? && message.version.Some? {
          osiVersion := Some(OsiReader.VersionString(message.version.value));
        }
        var timestamp := OsiReader.Seconds(message);
        if prevTimestamp.Some? {
          stepAcc := stepAcc + (timestamp - prevTimestamp.value);
        }
        if first.None? {
          first := Some(timestamp);
        }
        last := Some(timestamp);
        total := total + 1;
        prevTimestamp := Some(timestamp);
        i := i + 1;
      }
      assert hs[..i] == hs;
    }
  }

  // ---------------------------------------------------------------------------
  // TraceWriterBinary

  /** The sum of the lengths of some payloads. */
  function TotalLength(ps: seq<Bytes>): nat
  {
    if ps == [] then 0 else TotalLength(ps[..|ps| - 1]) + |ps[|ps| - 1]|
  }

  lemma TotalLengthAppend(ps: seq<Bytes>, p: Bytes)
    ensures TotalLength(ps + [p]) == TotalLength(ps) + |p|
  {
    assert (ps + [p])[..|ps|] == ps;
  }

  /** The extension the binary writer demands: ".osi.xz" when compressing, ".osi" otherwise. */
  predicate BinaryExtensionOk(path: string, compress: bool)
  {
    if compress then EndsWith(path, ".osi.xz") else EndsWith(path, ".osi")
  }

  /**
   * An OSI binary trace being written.  The ghost fields are the messages
   * written so far and the payloads stored for them.
   */
  class TraceWriterBinary {
    const path: string
    const messageTypeName: string
    const compress: bool
    /** message.SerializeToString() and lzma.compress. */
    const serialize: Message -> Bytes
    const lzmaCompress: Bytes -> Bytes
    const file: OutputFile
    var size: nat
    var sizeUncompressed: nat
    var writtenMessageCount: nat
    var closed: bool
    ghost var messages: seq<Message>
    ghost var payloads: seq<Bytes>

    /** The bytes stored for a message: its serialisation, compressed when the writer compresses. */
    function Stored(m: Message): Bytes
    {
      if compress then lzmaCompress(serialize(m)) else serialize(m)
    }

    /**
     * The file is the framed payloads, one per message written, and the
     * counters are the number of messages and the stored and serialised
     * byte counts.
     */
    ghost predicate Valid()
      reads this, file
    {
      Consistent(messages, payloads, file.content, size, sizeUncompressed, writtenMessageCount)
    }

    /** Valid() on explicit values: the file content and counters agree with the messages and payloads. */
    ghost predicate Consistent(ms: seq<Message>, ps: seq<Bytes>, content: Bytes, sz: nat, szu: nat, count: nat)
    {
      |ms| == count && StoredAll(ms, ps) && AllFit(ps) && content == Framed(ps) &&
      sz == TotalLength(ps) && szu == SerializedLength(ms)
    }

    /** The payloads are the stored bytes of the messages, one for one. */
    predicate StoredAll(ms: seq<Message>, ps: seq<Bytes>)
    {
      |ps| == |ms| && forall i :: 0 <= i < |ms| ==> ps[i] == Stored(ms[i])
    }

    lemma StoredAllAppend(ms: seq<Message>, ps: seq<Bytes>, m: Message)
      requires StoredAll(ms, ps)
      ensures StoredAll(ms + [m], ps + [Stored(m)])
    {
      forall i | 0 <= i < |ms| + 1 ensures (ps + [Stored(m)])[i] == Stored((ms + [m])[i]) {
        if i < |ms| {
          assert (ps + [Stored(m)])[i] == ps[i] && (ms + [m])[i] == ms[i];
        }
      }
    }

    /** One more message and its stored payload keep the framing and the counters consistent. */
    lemma AppendKeepsCounters(ms: seq<Message>, ps: seq<Bytes>, content: Bytes, sz: nat, szu: nat, count: nat,
                              m: Message)
      requires Consistent(ms, ps, content, sz, szu, count) && Fits(Stored(m))
      ensures Consistent(ms + [m], ps + [Stored(m)], content + Record(Stored(m)),
                         sz + |Stored(m)|, szu + |serialize(m)|, count + 1)
    {
      FramedAppend(ps, Stored(m));
      StoredAllAppend(ms, ps, m);
      TotalLengthAppend(ps, Stored(m));
      assert (ms + [m])[..|ms|] == ms;
    }

    /** The sum of the serialised lengths of some messages. */
    function SerializedLength(ms: seq<Message>): nat
    {
      if ms == [] then 0 else SerializedLength(ms[..|ms| - 1]) + |serialize(ms[|ms| - 1])|
    }

    /** The file opened with "wb" once the extension has been accepted. */
    constructor Open(path: string, messageTypeName: string, compress: bool,
                     serialize: Message -> Bytes, lzmaCompress: Bytes -> Bytes)
      requires BinaryExtensionOk(path, compress)
      ensures Valid() && fresh(file)
      ensures this.path == path && this.messageTypeName == messageTypeName && this.compress == compress
      ensures this.serialize == serialize && this.lzmaCompress == lzmaCompress
      ensures file.content == [] && messages == [] && !closed
      ensures size == 0 && sizeUncompressed == 0 && writtenMessageCount == 0
    {
      this.path := path;
      this.messageTypeName := messageTypeName;
      this.compress := compress;
      this.serialize := serialize;
      this.lzmaCompress := lzmaCompress;
      file := new OutputFile.OpenTruncate();
      size, sizeUncompressed, writtenMessageCount := 0, 0, 0;
      closed := false;
      messages, payloads := [], [];
    }

    /**
     * write: serialise, compress when asked, then write the packed length
     * and the stored bytes and update the counters.  A stored payload of 2^32
     * bytes or more fails in struct.pack before anything is written; writing
     * to a closed file raises ValueError.
     */
    method Write(message: Message) returns (r: Result<()>)
      requires Valid()
      modifies this, file
      ensures Valid() && closed == old(closed)
      ensures r.Err? <==> !Fits(Stored(message)) || old(closed)
      ensures r.Err? ==>
        r.error == (if !Fits(Stored(message)) then StructError else ValueError) &&
        file.content == old(file.content) && messages == old(messages) &&
        size == old(size) && sizeUncompressed == old(sizeUncompressed) &&
        writtenMessageCount == old(writtenMessageCount)
      ensures r.Ok? ==>
        messages == old(messages) + [message] &&
        file.content == old(file.content) + Record(Stored(message)) &&
        writtenMessageCount == old(writtenMessageCount) + 1 &&
        size == old(size) + |Stored(message)| &&
        sizeUncompressed == old(sizeUncompressed) + |serialize(message)|
    {
      var buf := serialize(message);
      var lenUncompressed := |buf|;
      if compress {
        buf := lzmaCompress(buf);
      }
      // struct.pack("<L", len(buf)) is evaluated before the closed file is touched
      if !Fits(buf) {
        return Err(StructError);
      }
      if closed {
        return Err(ValueError);
      }
      Commit(message, buf, lenUncompressed);
      return Ok(());
    }

    /** The successful tail of write: the record goes to the file and the counters grow. */
    method Commit(message: Message, buf: Bytes, lenUncompressed: nat)
      requires Valid() && buf == Stored(message) && Fits(buf) && lenUncompressed == |serialize(message)|
      modifies this, file
      ensures Valid() && closed == old(closed)
      ensures messages == old(messages) + [message]
      ensures file.content == old(file.content) + Record(buf)
      ensures writtenMessageCount == old(writtenMessageCount) + 1
      ensures size == old(size) + |buf| && sizeUncompressed == old(sizeUncompressed) + lenUncompressed
    {
      AppendKeepsCounters(messages, payloads, file.content, size, sizeUncompressed, writtenMessageCount, message);
      var written := file.WriteRecord(buf);
      messages := messages + [message];
      payloads := payloads + [buf];
      writtenMessageCount := writtenMessageCount + 1;
      size := size + |buf|;
      sizeUncompressed := sizeUncompressed + lenUncompressed;
    }

    /**
     * close: the summary line divides the uncompressed by the stored size
     * when compressing, which raises ZeroDivisionError before the file is
     * closed if nothing has been stored.
     */
    method Close() returns (r: Result<()>)
      modifies this
      ensures r.Err? <==> compress && size == 0
      ensures r.Err? ==> r.error == ZeroDivisionError && closed == old(closed)
      ensures r.Ok? ==> closed
      ensures size == old(size) && sizeUncompressed == old(sizeUncompressed)
      ensures writtenMessageCount == old(writtenMessageCount)
      ensures messages == old(messages) && payloads == old(payloads)
    {
      if compress && size == 0 {
        return Err(ZeroDivisionError);
      }
      closed := true;
      return Ok(());
    }
  }

  /**
   * TraceWriterBinary(path, message_type, compress): ValueError unless the
   * path ends in ".osi.xz" (compressing) or ".osi" (not compressing);
   * otherwise an empty file and zero counters.
   */
  method NewTraceWriterBinary(path: string, messageTypeName: string, compress: bool,
                              serialize: Message -> Bytes, lzmaCompress: Bytes -> Bytes)
    returns (r: Result<TraceWriterBinary>)
    ensures r.Ok? <==> BinaryExtensionOk(path, compress)
    ensures r.Err? ==> r.error == ValueError
    ensures r.Ok? ==> fresh(r.value) && fresh(r.value.file) && r.value.Valid() && !r.value.closed
    ensures r.Ok? ==> r.value.compress == compress && r.value.file.content == [] && r.value.messages == []
  {
    if !BinaryExtensionOk(path, compress) {
      return Err(ValueError);
    }
    var w := new TraceWriterBinary.Open(path, messageTypeName, compress, serialize, lzmaCompress);
    return Ok(w);
  }

  /**
   * Reading back what a binary writer has written yields the stored payload
   * of every written message, in write order; without compression that is
   * each message's serialisation.
   */
  lemma {:induction false} WrittenTraceReadsBack(w: TraceWriterBinary)
    requires w.Valid()
    ensures ParseFrames(w.file.content) == Some(w.payloads)
    ensures |w.payloads| == |w.messages| && forall i :: 0 <= i < |w.messages| ==> w.payloads[i] == w.Stored(w.messages[i])
    ensures !w.compress ==> forall i :: 0 <= i < |w.messages| ==> w.payloads[i] == w.serialize(w.messages[i])
  {
    ParseFramed(w.payloads);
  }

  // ---------------------------------------------------------------------------
  // TraceWriterMcap

  /** An MCAP trace being written: the registry of topics and the mcap writer's records. */
  class TraceWriterMcap {
    const path: string
    const netAsamOsiMetadata: map<string, string>
    /** The import graph of the protobuf descriptor pool; acyclic, as `rank` witnesses. */
    const descriptors: ImportGraph
    ghost const rank: map<string, nat>
    const serialize: Message -> Bytes
    const mcap: McapFileWriter
    var activeChannels: map<string, nat>
    var channelMetadata: map<string, map<string, string>>
    var writtenMessageCount: nat
    /** The warnings printed so far. */
    var warnings: seq<MetadataWarning>
    /** The messages written so far. */
    ghost var written: seq<Message>

    ghost predicate Valid()
      reads this, mcap
    {
      Ranked(descriptors, rank) && mcap.Valid() &&
      activeChannels.Keys == channelMetadata.Keys &&
      Registered(mcap.channels, activeChannels, channelMetadata) &&
      |written| == |mcap.messages| == writtenMessageCount &&
      AllAccepted(mcap.channels, mcap.messages, written, serialize)
    }

    constructor Open(path: string, md: map<string, string>, version: string,
                     descriptors: ImportGraph, ghost rank: map<string, nat>, serialize: Message -> Bytes)
      requires EndsWith(path, ".mcap") && Ranked(descriptors, rank)
      ensures Valid() && fresh(mcap)
      ensures this.path == path && netAsamOsiMetadata == md && this.descriptors == descriptors
      ensures this.serialize == serialize
      ensures mcap.profile == "osi2mcap" && mcap.library == "osc_validation " + version
      ensures mcap.metadata == [MetadataRecord(OSI_TRACE_METADATA, md)] && !mcap.finished
      ensures mcap.schemas == [] && mcap.channels == [] && mcap.messages == []
      ensures warnings == FileMetadataWarnings(md)
      ensures activeChannels == map[] && channelMetadata == map[] && writtenMessageCount == 0
    {
      this.path := path;
      netAsamOsiMetadata := md;
      this.descriptors := descriptors;
      this.rank := rank;
      this.serialize := serialize;
      activeChannels := map[];
      channelMetadata := map[];
      var writer := new McapFileWriter.Start("osi2mcap", "osc_validation " + version);
      warnings := FileMetadataWarnings(md);
      writer.AddMetadata(OSI_TRACE_METADATA, md);
      mcap := writer;
      writtenMessageCount := 0;
      written := [];
    }

    /**
     * add_osi_channel: warn about missing channel metadata, register the
     * descriptor set of the message type's file as a schema and a channel
     * for the topic, then map the topic to the channel id and its metadata.
     * A topic added again is mapped to the new channel.
     */
    method AddOsiChannel(messageType: MessageType, topic: string, metadata: map<string, string>)
      requires Valid() && messageType.file in descriptors
      modifies this, mcap
      ensures Valid()
      ensures warnings == old(warnings) + ChannelMetadataWarnings(metadata)
      ensures |mcap.schemas| == |old(mcap.schemas)| + 1 && mcap.schemas[..|old(mcap.schemas)|] == old(mcap.schemas)
      ensures var s := mcap.schemas[|mcap.schemas| - 1];
        s.id == |mcap.schemas| && s.name == messageType.fullName && s.encoding == PROTOBUF_ENCODING &&
        DescriptorSetOf(descriptors, rank, messageType.file, s.files)
      ensures mcap.channels ==
        old(mcap.channels) + [Channel(|old(mcap.channels)|, topic, PROTOBUF_ENCODING, |mcap.schemas|, metadata)]
      ensures activeChannels == old(activeChannels)[topic := |old(mcap.channels)|]
      ensures channelMetadata == old(channelMetadata)[topic := metadata]
      ensures mcap.messages == old(mcap.messages) && mcap.metadata == old(mcap.metadata)
      ensures mcap.finished == old(mcap.finished) && mcap.profile == old(mcap.profile)
      ensures writtenMessageCount == old(writtenMessageCount) && written == old(written)
    {
      warnings := warnings + ChannelMetadataWarnings(metadata);
      var files := BuildFileDescriptorSet(descriptors, rank, messageType.file);
      var schemaId := mcap.RegisterSchema(messageType.fullName, PROTOBUF_ENCODING, files);
      var channelId := mcap.RegisterChannel(topic, PROTOBUF_ENCODING, schemaId, metadata);
      ghost var channel := mcap.channels[channelId];
      RegisteredExtended(old(mcap.channels), channel, old(activeChannels), old(channelMetadata), topic);
      AllAcceptedExtended(old(mcap.channels), channel, mcap.messages, written, serialize);
      activeChannels := activeChannels[topic := channelId];
      channelMetadata := channelMetadata[topic := metadata];
    }

    /**
     * write: ValueError for a topic without a channel, or when the channel
     * declares a version the message does not have (or one that is not
     * three integers); otherwise the message is added to the topic's channel,
     * stamped at its timestamp in nanoseconds, and counted.
     */
    method Write(message: Message, topic: string) returns (r: Result<()>)
      requires Valid()
      modifies this, mcap
      ensures Valid()
      ensures r.Err? <==>
        topic !in old(activeChannels) ||
        ChannelVersionCheck(old(channelMetadata)[topic], MessageVersion(message)).Err?
      ensures r.Err? ==> r.error == ValueError && unchanged(this) && unchanged(mcap)
      ensures r.Ok? ==>
        var t := MessageTimestamp(message);
        var stamp := t.seconds * NANOS_PER_SECOND + t.nanos;
        mcap.messages ==
          old(mcap.messages) + [MessageRecord(old(activeChannels)[topic], stamp, stamp, serialize(message))]
      ensures r.Ok? ==> writtenMessageCount == old(writtenMessageCount) + 1 && written == old(written) + [message]
      ensures r.Ok? ==>
        activeChannels == old(activeChannels) && channelMetadata == old(channelMetadata) &&
        warnings == old(warnings) && mcap.channels == old(mcap.channels) && mcap.schemas == old(mcap.schemas) &&
        mcap.metadata == old(mcap.metadata) && mcap.finished == old(mcap.finished)
    {
      if topic !in activeChannels {
        return Err(ValueError);
      }
      var check := ChannelVersionCheck(channelMetadata[topic], MessageVersion(message));
      if check.Err? {
        return Err(check.error);
      }
      var t := MessageTimestamp(message);
      NanosecondsExact(t);
      var logTime := Nanoseconds(t);
      var channelId := activeChannels[topic];
      mcap.AddMessage(channelId, logTime, logTime, serialize(message));
      AllAcceptedAppend(mcap.channels, old(mcap.messages), written, serialize,
                        MessageRecord(channelId, logTime, logTime, serialize(message)), message);
      written := written + [message];
      writtenMessageCount := writtenMessageCount + 1;
      return Ok(());
    }

    /** close: the summary line, then finish the MCAP file. */
    method Close()
      modifies mcap
      ensures mcap.finished
      ensures mcap.messages == old(mcap.messages) && mcap.channels == old(mcap.channels)
      ensures mcap.schemas == old(mcap.schemas) && mcap.metadata == old(mcap.metadata)
    {
      mcap.Finish();
    }
  }

  /**
   * TraceWriterMcap(path, metadata): ValueError unless the path ends in
   * ".mcap"; otherwise an MCAP file started with profile "osi2mcap" that
   * holds the file metadata, and warnings for missing metadata keys.
   */
  method NewTraceWriterMcap(path: string, md: map<string, string>, version: string,
                            descriptors: ImportGraph, ghost rank: map<string, nat>, serialize: Message -> Bytes)
    returns (r: Result<TraceWriterMcap>)
    requires Ranked(descriptors, rank)
    ensures r.Ok? <==> EndsWith(path, ".mcap")
    ensures r.Err? ==> r.error == ValueError
    ensures r.Ok? ==> fresh(r.value) && fresh(r.value.mcap) && r.value.Valid()
    ensures r.Ok? ==> r.value.mcap.profile == "osi2mcap" && r.value.warnings == FileMetadataWarnings(md)
    ensures r.Ok? ==> r.value.mcap.metadata == [MetadataRecord(OSI_TRACE_METADATA, md)]
    ensures r.Ok? ==> r.value.activeChannels == map[] && r.value.writtenMessageCount == 0
  {
    if !EndsWith(path, ".mcap") {
      return Err(ValueError);
    }
    var w := new TraceWriterMcap.Open(path, md, version, descriptors, rank, serialize);
    return Ok(w);
  }
}
