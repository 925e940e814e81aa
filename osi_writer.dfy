/**
 * osi_writer.py: OSITraceWriter, the stand-alone MCAP trace writer.  It keeps
 * the same topic-to-channel registry as the MCAP writer in osi_mcap.py and
 * makes the same checks on every write, but starts the MCAP file without a
 * profile and can be used as a context manager.
 */
module OsiWriter {
  import opened Common
  import opened Timestamps
  import opened OsiModel
  import opened Descriptors
  import opened McapOutput

  /** The constructor's check on str(path). */
  predicate McapPathOk(path: string) { EndsWith(path, ".mcap") }

  class OSITraceWriter {
    const path: string
    const netAsamOsiMetadata: map<string, string>
    /** The import graph of the protobuf descriptor pool; acyclic, as `rank` witnesses. */
    const descriptors: ImportGraph
    ghost const rank: map<string, nat>
    /** message.SerializeToString(). */
    const serialize: Message -> Bytes
    const mcap: McapFileWriter
    var activeChannels: map<string, nat>
    var channelMetadata: map<string, map<string, string>>
    var writtenMessageCount: nat
    /** The warnings printed so far. */
    var warnings: seq<MetadataWarning>
    /** The messages written so far. */
    ghost var written: seq<Message>

    /**
     * Every registered topic names a channel of the MCAP file carrying that
     * topic and its metadata, and every written message is on file as an
     * accepted record.
     */
    ghost predicate Valid()
      reads this, mcap
    {
      Ranked(descriptors, rank) && mcap.Valid() &&
      activeChannels.Keys == channelMetadata.Keys &&
      Registered(mcap.channels, activeChannels, channelMetadata) &&
      |written| == |mcap.messages| == writtenMessageCount &&
      AllAccepted(mcap.channels, mcap.messages, written, serialize)
    }

    /**
     * The constructor once the extension has been accepted: start the MCAP
     * file with the default (empty) profile, warn about missing file
     * metadata, and add the metadata record.
     */
    constructor Open(path: string, md: map<string, string>, version: string,
                     descriptors: ImportGraph, ghost rank: map<string, nat>, serialize: Message -> Bytes)
      requires McapPathOk(path) && Ranked(descriptors, rank)
      ensures Valid() && fresh(mcap)
      ensures this.path == path && netAsamOsiMetadata == md && this.descriptors == descriptors
      ensures this.serialize == serialize
      ensures mcap.profile == "" && mcap.library == "osc_validation " + version
      ensures mcap.metadata == [MetadataRecord(OSI_TRACE_METADATA, md)] && !mcap.finished
      ensures mcap.schemas == [] && mcap.channels == [] && mcap.messages == []
      ensures warnings == FileMetadataWarnings(md)
      ensures activeChannels == map[] && channelMetadata == map[] && writtenMessageCount == 0
    {
      this.path := path;
      netAsamOsiMetadata := md;
      this.descriptors := descriptors;
      this.rank := rank;
      this.serialize := serialize;
      activeChannels := map[];
      channelMetadata := map[];
      var writer := new McapFileWriter.Start("", "osc_validation " + version);
      warnings := FileMetadataWarnings(md);
      writer.AddMetadata(OSI_TRACE_METADATA, md);
      mcap := writer;
      writtenMessageCount := 0;
      written := [];
    }

    /**
     * add_osi_channel: warn about missing channel metadata, register the
     * descriptor set of the message type's file as a schema and a channel for
     * the topic, then map the topic to the new channel id and its metadata;
     * a topic added again has both entries replaced.
     */
    method AddOsiChannel(messageType: MessageType, topic: string, metadata: map<string, string>)
      requires Valid() && messageType.file in descriptors
      modifies this, mcap
      ensures Valid()
      ensures warnings == old(warnings) + ChannelMetadataWarnings(metadata)
      ensures |mcap.schemas| == |old(mcap.schemas)| + 1 && mcap.schemas[..|old(mcap.schemas)|] == old(mcap.schemas)
      ensures var s := mcap.schemas[|mcap.schemas| - 1];
        s.id == |mcap.schemas| && s.name == messageType.fullName && s.encoding == PROTOBUF_ENCODING &&
        DescriptorSetOf(descriptors, rank, messageType.file, s.files)
      ensures mcap.channels ==
        old(mcap.channels) + [Channel(|old(mcap.channels)|, topic, PROTOBUF_ENCODING, |mcap.schemas|, metadata)]
      ensures activeChannels == old(activeChannels)[topic := |old(mcap.channels)|]
      ensures channelMetadata == old(channelMetadata)[topic := metadata]
      ensures mcap.messages == old(mcap.messages) && mcap.metadata == old(mcap.metadata)
      ensures mcap.finished == old(mcap.finished) && mcap.profile == old(mcap.profile)
      ensures writtenMessageCount == old(writtenMessageCount) && written == old(written)
    {
      warnings := warnings + ChannelMetadataWarnings(metadata);
      var files := BuildFileDescriptorSet(descriptors, rank, messageType.file);
      var schemaId := mcap.RegisterSchema(messageType.fullName, PROTOBUF_ENCODING, files);
      var channelId := mcap.RegisterChannel(topic, PROTOBUF_ENCODING, schemaId, metadata);
      ghost var channel := mcap.channels[channelId];
      RegisteredExtended(old(mcap.channels), channel, old(activeChannels), old(channelMetadata), topic);
      AllAcceptedExtended(old(mcap.channels), channel, mcap.messages, written, serialize);
      activeChannels := activeChannels[topic := channelId];
      channelMetadata := channelMetadata[topic := metadata];
    }

    /**
     * write: ValueError for a topic without a channel, before anything is
     * added or counted; ValueError when the channel declares a version the
     * message does not have; otherwise the message goes to the topic's
     * channel, stamped at its timestamp in nanoseconds, and is counted once.
     */
    method Write(message: Message, topic: string) returns (r: Result<()>)
      requires Valid()
      modifies this, mcap
      ensures Valid()
      ensures r.Err? <==>
        topic !in old(activeChannels) ||
        ChannelVersionCheck(old(channelMetadata)[topic], MessageVersion(message)).Err?
      ensures r.Err? ==> r.error == ValueError && unchanged(this) && unchanged(mcap)
      ensures r.Ok? ==>
        var t := MessageTimestamp(message);
        var stamp := t.seconds * NANOS_PER_SECOND + t.nanos;
        mcap.messages ==
          old(mcap.messages) + [MessageRecord(old(activeChannels)[topic], stamp, stamp, serialize(message))]
      ensures r.Ok? ==> writtenMessageCount == old(writtenMessageCount) + 1 && written == old(written) + [message]
      ensures r.Ok? ==>
        activeChannels == old(activeChannels) && channelMetadata == old(channelMetadata) &&
        warnings == old(warnings) && mcap.channels == old(mcap.channels) && mcap.schemas == old(mcap.schemas) &&
        mcap.metadata == old(mcap.metadata) && mcap.finished == old(mcap.finished)
    {
      if topic !in activeChannels {
        return Err(ValueError);
      }
      var check := ChannelVersionCheck(channelMetadata[topic], MessageVersion(message));
      if check.Err? {
        return Err(check.error);
      }
      var t := MessageTimestamp(message);
      NanosecondsExact(t);
      var logTime := Nanoseconds(t);
      var channelId := activeChannels[topic];
      mcap.AddMessage(channelId, logTime, logTime, serialize(message));
      AllAcceptedAppend(mcap.channels, old(mcap.messages), written, serialize,
                        MessageRecord(channelId, logTime, logTime, serialize(message)), message);
      written := written + [message];
      writtenMessageCount := writtenMessageCount + 1;
      return Ok(());
    }

    /** close: the summary line, then finish the MCAP file. */
    method Close()
      modifies mcap
      ensures mcap.finished
      ensures mcap.messages == old(mcap.messages) && mcap.channels == old(mcap.channels)
      ensures mcap.schemas == old(mcap.schemas) && mcap.metadata == old(mcap.metadata)
    {
      mcap.Finish();
    }

    /** __exit__: close the writer and return False, so an exception in the block propagates. */
    method Exit() returns (suppress: bool)
      modifies mcap
      ensures !suppress && mcap.finished
      ensures mcap.messages == old(mcap.messages) && mcap.channels == old(mcap.channels)
    {
      Close();
      return false;
    }
  }

  /**
   * OSITraceWriter(path, metadata): ValueError unless str(path) ends in
   * ".mcap"; otherwise an MCAP file holding the file metadata, an empty
   * registry and warnings (never errors) for missing metadata keys.
   */
  method NewOSITraceWriter(path: string, md: map<string, string>, version: string,
                           descriptors: ImportGraph, ghost rank: map<string, nat>, serialize: Message -> Bytes)
    returns (r: Result<OSITraceWriter>)
    requires Ranked(descriptors, rank)
    ensures r.Ok? <==> McapPathOk(path)
    ensures r.Err? ==> r.error == ValueError
    ensures r.Ok? ==> fresh(r.value) && fresh(r.value.mcap) && r.value.Valid()
    ensures r.Ok? ==> r.value.warnings == FileMetadataWarnings(md)
    ensures r.Ok? ==> r.value.mcap.metadata == [MetadataRecord(OSI_TRACE_METADATA, md)]
    ensures r.Ok? ==> r.value.activeChannels == map[] && r.value.writtenMessageCount == 0
  {
    if !McapPathOk(path) {
      return Err(ValueError);
    }
    var w := new OSITraceWriter.Open(path, md, version, descriptors, rank, serialize);
    return Ok(w);
  }
}
