# Verification of lodos

A Dafny model of the parts of the lodos game-server framework whose correctness is not evident from one function
at a time, with proofs of what they are meant to do. `dafny verify dfyconfig.toml` checks the whole project.

**Log codec** (`Wire`, `Skip`, `Framing`, `Grammar`, `Messages`, `Codec`, `Meaning`, `RoundTrip`). The Protocol Buffers encoder
and decoder of the log service. `Codec` has the program's loops: varints built up by shifts, sizes accumulated in a
separate pass, messages written in place into one shared array, and decoders that move an index and append to the
message. Each is proved against a function on values (`Messages`), and those functions against each other: encoding
then decoding, decoding then encoding then decoding, and what every accepted byte string means field by field.
`Skip` gives unknown fields a grammar of their own and shows that the recursive skipper accepts exactly it; `Grammar`
does the same for whole messages.

**MQTT** (`Mqtt`, `MqttIo`, `MqttRoundTrip`, `MqttFrames`, `Handshake`, `PackQueue`). `MqttIo` reads from and writes
to a stream step by step; `Mqtt` says what bytes those are; `MqttRoundTrip` proves exactly which packs survive the
trip and that streams of them do; `MqttFrames` treats arbitrary bytes and CONNECT (section 3.1 of MQTT 3.1.1).
`Handshake` has the reply machine and two peers running it over FIFO links (section 4.3 of MQTT 3.1.1). `PackQueue`
is the pair of goroutines around the write queue with its shutdown.

**RPC** (`Rpc`, `PendingCalls`, `RpcClient`, `RpcRefinement`, `RpcServer`, `RpcSystem`). `PendingCalls` is the table
of pending calls under every interleaving of callers, replies, timeout sweeps and shutdown, for the local and the
broker backend. `RpcClient` has the same handlers as methods of an object with real channels, and `RpcRefinement`
proves that each of those methods is an uninterrupted run of the protocol. `RpcServer` runs one request over every way
it can end. `RpcSystem` puts the local client and the server together through their channels.

**Sharded map** (`ShardedMap`, `Snapshot`). The map as objects, refined to one abstract map, and its buffered iterator
as a protocol of one copier and one forwarder per shard among concurrent writers.

**Logs** (`BackupChain`, `NumberedRotation`, `AsyncLog`). The two rotating file writers over an abstract directory, a
map from names to bytes, and the asynchronous logger with its pooled records, its queue and its flush protocol.

Concurrent parts are state machines. An action is one step of one goroutine: a channel operation, one operation on a
locked table, one test of a shared flag. `Apply` gives the state after an action, or `None` while the goroutine is
elsewhere or blocked, so a statement over all sequences of actions (`Runs`) is one over all interleavings. In
`PackQueue` and `PendingCalls` sends on closed channels, second closes and uses of a nil table set a `panicked` flag;
in `RpcSystem` the process can end in three ways. When any of this can happen is a theorem.

Where the code and what one would expect of it differ, the code is followed and the difference is a theorem:

- The MQTT reader takes three length bytes where the standard allows four, and refuses a QoS 0 PUBLISH whose payload
  is shorter than two bytes; SUBSCRIBE and UNSUBSCRIBE are written with one length byte that leaves out the message
  id. `MqttRoundTrip.RoundTripExactly` gives the exact condition under which a written pack can be read back, and
  `MqttRoundTrip.ShortPayloadIsRefused` and `MqttRoundTrip.ShortTopicIsMissed` what becomes of two that cannot.
- `Done` of the broker client ends by setting its table to nil; a call that has passed the test of `isClose` and not
  reached the table by then panics: `PendingCalls.DroppedTablePanicsIff` and `PendingCalls.LateCallMayPanic`.
- A call that passes the test of `isClose` but registers after `Done` has listed the table is never closed:
  `PendingCalls.DoneClosesExactly`, `PendingCalls.LateCallStaysOpen` and `PendingCalls.NeverClosedLater`.
- `Done` of the local client closes the reply channel while results may still be on their way; sending one then ends
  the process. `RpcSystem.ProcessMayEndIff` says exactly in which states that can still happen.
- A request whose arguments do not fit the signature of its function, by type or by a missing type, passes the
  server's checks, and calling the function then ends the process, as does a panic of the function itself:
  `RpcServer.UnansweredIff`, `RpcServer.WrongArguments` and `RpcSystem.OnlyBadCallsBefore`.
- A call registered during a timeout sweep outlives it even when it is already overdue:
  `PendingCalls.SweepClearsOverdue` and `PendingCalls.LateCallOutlivesSweep`.
- The local and the broker client report a timeout differently: the one without a correlation id, the other without an
  error code (`Rpc.TimeoutResult`).
- A group's end key may carry any field number, and field numbers are truncated to 32 bits; the grammar in `Skip` and
  `Framing` says so.

## Model

| member | source | states |
|---|---|---|
| Wire.ReadVarint | log/beego/alils/log.pb.go:459-472 | the shift loop reads, from any offset, the number the base 128 digits stand for modulo 2^64, and fails with overflow or end of input exactly as that definition does |
| Wire.DecodeOfEncoding | log/beego/alils/log.pb.go:346-354 | every 64-bit value is read back from its encoding, whatever follows it, and takes at most ten bytes |
| Wire.EncodingIsShortest | log/beego/alils/log.pb.go:437-446 | no accepted encoding of a value, minimal or not, is shorter than the one written |
| Wire.DecodeIsLocal | log/beego/alils/log.pb.go:459-472 | only the bytes of the varint itself decide how it is read |
| Wire.DecodeFailsIff | log/beego/alils/log.pb.go:459-472 | reading fails if and only if none of the first ten bytes ends the varint: with overflow if there are ten, with the end of input otherwise |
| Wire.ConversionsWrap | log/beego/alils/log.pb.go:471-480 | conversions to signed lengths and field numbers keep the number modulo the width of the type |
| Skip.SkipLog | log/beego/alils/log.pb.go:940-1038 | the skipper terminates on every non-empty input, never reads outside it, and returns the length of the field at its front, nested groups included |
| Skip.SkipGroup | log/beego/alils/log.pb.go:999-1027 | the inner loop takes fields up to the matching end key and reports a truncated group |
| Skip.SkipsOneField | log/beego/alils/log.pb.go:940-1038 | every complete field, with keys and lengths of any permitted form, is skipped whole whatever follows |
| Skip.SkippedIsField | log/beego/alils/log.pb.go:940-1038 | what is skipped inside the input is one complete field of the grammar |
| Skip.SkipsExactlyTheFields | log/beego/alils/log.pb.go:940-1038 | a prefix is skipped if and only if it is one complete field |
| Skip.SkipIsLocal | log/beego/alils/log.pb.go:940-1038 | bytes after a field do not change how it is skipped |
| Skip.SkipRefuses | log/beego/alils/log.pb.go:940-1038 | after any key, which wire types, values and lengths are refused and with which error |
| Skip.GroupGoesOn | log/beego/alils/log.pb.go:999-1027 | a group whose first fields are complete fails exactly as what follows them does, at the latest at the end of the input |
| Framing.ItemRoundTrip | log/beego/alils/log.pb.go:456-549 | one field written by the encoder is read as that field by one round of the decoder loop, whatever follows |
| Framing.FramedItemFits | log/beego/alils/log.pb.go:456-549 | whatever one round accepts can be written again in no more bytes, unknown fields verbatim |
| Framing.ScanRoundTrip | log/beego/alils/log.pb.go:456-549 | the decoder loop splits an encoded list of fields into that list |
| Framing.ScanFits | log/beego/alils/log.pb.go:456-549 | the fields found in any input fit the message type and encode to no more bytes than the input |
| Framing.UnknownIsVerbatim | log/beego/alils/log.pb.go:534-547 | a run of unknown fields is split and written again byte for byte |
| Framing.UnknownBytesAreFields | log/beego/alils/log.pb.go:534-547 | unknown fields collected from anywhere in a message form a run of unknown fields again |
| Grammar.FramingIsExactly | log/beego/alils/log.pb.go:456-549 | a byte string has the framing of a message type if and only if it is a sequence of legal fields: known fields with their own wire type, unknown ones complete |
| Grammar.LegalIsScanned | log/beego/alils/log.pb.go:456-549 | a sequence of legal fields, with keys and lengths of any permitted form, is read as the items they stand for |
| Grammar.RefusedKeys | log/beego/alils/log.pb.go:474-485 | an end key, a field number that is not positive and a known field of another wire type are refused, each with its error |
| Grammar.RefusedBlocks | log/beego/alils/log.pb.go:506-533 | a block cut short and a negative length are refused, each with its error |
| Grammar.RefusedUnknown | log/beego/alils/log.pb.go:534-547 | an unknown field is refused as the skipper refuses it, and if it is cut short |
| Messages.MissingGroups | log/beego/alils/log.pb.go:305-326 | nothing is missing if and only if every log has its time and every content its key and value; otherwise the field named is unset and all required fields before it are set |
| Messages.ContentLayout | log/beego/alils/log.pb.go:214-239 | key and value of a content under the keys 0x0A and 0x12 |
| Messages.LogLayout | log/beego/alils/log.pb.go:173-201 | time and contents of a log under the keys 0x08 and 0x12 |
| Messages.GroupLayout | log/beego/alils/log.pb.go:252-292 | logs, reserved string, topic and source of a group under the keys 0x0A, 0x12, 0x1A and 0x22 |
| Messages.ListLayout | log/beego/alils/log.pb.go:305-326 | groups of a list under the key 0x0A |
| Codec.SizeOfVarint | log/beego/alils/log.pb.go:437-446 | the size loop returns the number of bytes the varint encoder writes |
| Codec.SizeOfContent | log/beego/alils/log.pb.go:376-392 | the size pass of a content is the length of its encoding |
| Codec.SizeOfLog | log/beego/alils/log.pb.go:357-374 | the size pass of a log is the length of its encoding |
| Codec.SizeOfGroup | log/beego/alils/log.pb.go:394-420 | the size pass of a group is the length of its encoding |
| Codec.SizeOfList | log/beego/alils/log.pb.go:422-435 | the size pass of a list is the length of its encoding |
| Codec.EncodeVarintLog | log/beego/alils/log.pb.go:346-354 | writes exactly the varint's bytes in place, returns the index after them, and leaves everything before and beyond its room alone |
| Codec.MarshalContentTo | log/beego/alils/log.pb.go:214-239 | fills its part of a shared buffer with the encoding and touches nothing else if key and value are set, and reports the first that is not otherwise |
| Codec.MarshalLogTo | log/beego/alils/log.pb.go:173-201 | the same for a log, which succeeds if and only if the time is set and every content complete |
| Codec.MarshalGroupTo | log/beego/alils/log.pb.go:252-292 | the same for a group, which succeeds if and only if every log is complete |
| Codec.MarshalListTo | log/beego/alils/log.pb.go:305-326 | the same for a list, which succeeds if and only if every log in it is complete |
| Codec.MarshalList | log/beego/alils/log.pb.go:294-303 | succeeds if and only if every log has its time and every content its key and value, with the buffer allocated from the size pass filled exactly; otherwise the first unset field in encoding order is named |
| Codec.ReadItem | log/beego/alils/log.pb.go:457-547 | one round of the decoder loop at any index, with every error of the program |
| Codec.UnmarshalContent | log/beego/alils/log.pb.go:561-681 | the decoder loop ends on every input, accepts only all of it, and yields the message the definition assigns to the bytes |
| Codec.UnmarshalLog | log/beego/alils/log.pb.go:452-558 | the same for a log, whose contents are decoded recursively |
| Codec.UnmarshalGroup | log/beego/alils/log.pb.go:683-855 | the same for a group |
| Codec.UnmarshalList | log/beego/alils/log.pb.go:857-938 | the same for a list |
| Meaning.ContentMeaning | log/beego/alils/log.pb.go:561-681 | accepted if and only if the framing is sound and both fields occur; the last occurrence of each counts and unknown bytes are kept in order |
| Meaning.LogMeaning | log/beego/alils/log.pb.go:452-558 | accepted with a given result if and only if the time occurs, the last one counts, every content payload decodes and unknown bytes are kept in order |
| Meaning.GroupMeaning | log/beego/alils/log.pb.go:683-855 | accepted with a given result if and only if every log payload decodes, the last of each string counts and unknown bytes are kept in order |
| Meaning.ListMeaning | log/beego/alils/log.pb.go:857-938 | accepted with a given result if and only if every group payload decodes and unknown bytes are kept in order |
| Meaning.LogErrors | log/beego/alils/log.pb.go:452-558 | a log is refused with the error of its first content that does not decode, or else of the framing, or else for the missing time |
| Meaning.GroupErrors | log/beego/alils/log.pb.go:683-855 | a group is refused with the error of its first log that does not decode, or else of the framing |
| Meaning.ListErrors | log/beego/alils/log.pb.go:857-938 | the same for a list and its groups |
| RoundTrip.ContentRoundTrip | log/beego/alils/log.pb.go:203-239 | a complete content is read back unchanged |
| RoundTrip.LogRoundTrip | log/beego/alils/log.pb.go:162-201 | a complete log is read back unchanged |
| RoundTrip.GroupRoundTrip | log/beego/alils/log.pb.go:241-292 | a complete group is read back unchanged, absent optional strings still absent |
| RoundTrip.ListRoundTrip | log/beego/alils/log.pb.go:294-326 | every complete list is read back unchanged, unknown fields included |
| RoundTrip.AcceptedList | log/beego/alils/log.pb.go:857-938 | whatever is accepted decodes to a complete message that encodes to no more bytes |
| RoundTrip.ListKept | log/beego/alils/log.pb.go:452-938 | in an accepted list the unknown bytes of every message at every depth are those of its own payload, in order |
| RoundTrip.ReencodingIsStable | log/beego/alils/log.pb.go:452-938 | for every accepted input, encoding succeeds and decoding the encoding gives the same message; both byte strings carry the same unknown fields, verbatim and in order, in every nested message |
| RoundTrip.CompleteGroupsMarshal | log/beego/alils/log.pb.go:305-326 | a complete list has no missing required field, so encoding succeeds |
| MqttIo.ReadLength | gate/base/mqtt/mqtt.go:322-341 | the multiplier loop computes the Remaining Length of at most three bytes and leaves the rest of the stream |
| MqttIo.ReadTopics | gate/base/mqtt/mqtt.go:506-528 | the topic loop of SUBSCRIBE and UNSUBSCRIBE, with its byte budget and its dropped errors |
| MqttIo.ReadConnect | gate/base/mqtt/mqtt.go:345-428 | field by field, the CONNECT the stream holds or the error at the point where it fails |
| MqttIo.ReadPublish | gate/base/mqtt/mqtt.go:429-452 | topic, optional id and payload, or the length error |
| MqttIo.ReadPack | gate/base/mqtt/mqtt.go:301-599 | the pack at the front of any stream, or its error, and exactly what is left unread |
| MqttIo.RemainingLength | gate/base/mqtt/mqtt.go:793-809 | the digits put into the four-byte array are the varint of the length |
| MqttIo.WriteTopics | gate/base/mqtt/mqtt.go:725-741 | every topic is appended in order |
| MqttIo.DelayWritePack | gate/base/mqtt/mqtt.go:636-791 | appends the bytes of the pack to the writer |
| MqttRoundTrip.StringRoundTrip | gate/base/mqtt/mqtt.go:601-627 | a string below 65536 bytes is read back with anything after it |
| MqttRoundTrip.LengthRoundTrip | gate/base/mqtt/mqtt.go:322-341 | a length that fits the reader's bytes is read back |
| MqttRoundTrip.LengthIsBounded | gate/base/mqtt/mqtt.go:322-341 | no length above what the reader's bytes can hold is ever read |
| MqttRoundTrip.TopicsRoundTrip | gate/base/mqtt/mqtt.go:497-571 | a written topic list is read back if its last name is long enough for the loop to look for it |
| MqttRoundTrip.PackRoundTrip | gate/base/mqtt/mqtt.go:636-791 | every readable pack is read back, whatever follows, with retain cleared and the id of a QoS 0 PUBLISH gone |
| MqttRoundTrip.ReturnedPack | gate/base/mqtt/mqtt.go:301-599 | what holds of any pack the reader returns: 16-bit ids, bounded length, payload of at least two bytes |
| MqttRoundTrip.ReadableIsNeeded | gate/base/mqtt/mqtt.go:301-599 | a pack that is always read back is readable |
| MqttRoundTrip.RoundTripExactly | gate/base/mqtt/mqtt.go:636-791 | a written pack is read back with anything after it if and only if it is readable |
| MqttRoundTrip.ShortPayloadIsRefused | gate/base/mqtt/mqtt.go:429-452 | every QoS 0 PUBLISH with fewer than two payload bytes is written, but read back as a length error |
| MqttRoundTrip.ShortTopicIsMissed | gate/base/mqtt/mqtt.go:535-571 | an UNSUBSCRIBE of one name of one byte is read back without it, and its bytes are taken for the next pack |
| MqttRoundTrip.StreamRoundTrip | gate/base/mqtt/mqtt.go:301-599 | reading the concatenation of any list of written packs returns the list |
| MqttFrames.FrameAligned | gate/base/mqtt/mqtt.go:429-599 | on arbitrary bytes, a PUBLISH, two-byte ack, SUBACK or unlisted type that was read took exactly header plus declared length |
| MqttFrames.HeaderIsRead | gate/base/mqtt/mqtt.go:301-321 | any pack that was read has the type, dup, qos, retain and length of its header |
| MqttFrames.LengthMeans | gate/base/mqtt/mqtt.go:322-341 | the value of one, two or three length bytes, minimal or not, and that a third is the last |
| MqttFrames.HeaderCutShort | gate/base/mqtt/mqtt.go:301-341 | a header that ends too early uses up the stream and reports its end |
| MqttFrames.HeartBeat | gate/base/mqtt/mqtt.go:583-587 | a PINGREQ or DISCONNECT of any flags and length is read with exactly its header taken |
| MqttFrames.OtherTypes | gate/base/mqtt/mqtt.go:588-595 | types without a reader of their own are passed over by their declared length, or report the end of the stream |
| MqttFrames.AcksRefused | gate/base/mqtt/mqtt.go:453-582 | an acknowledgement of another length than its own is refused, and one cut short reports the end of the stream |
| MqttFrames.PublishRefused | gate/base/mqtt/mqtt.go:429-441 | a PUBLISH without a topic or with fewer than two bytes after it is refused |
| MqttFrames.TopicCutShort | gate/base/mqtt/mqtt.go:506-571 | a topic name cut short is dropped by SUBSCRIBE and filled up with zero bytes by UNSUBSCRIBE, without an error |
| MqttFrames.FlagsRoundTrip | gate/base/mqtt/mqtt.go:277-298 | every combination of CONNECT flags and will QoS is recovered from its byte |
| MqttFrames.ConnectBodyRoundTrip | gate/base/mqtt/mqtt.go:345-428 | every well-formed CONNECT is accepted with all fields recovered, and nothing more is read |
| MqttFrames.ConnectRoundTrip | gate/base/mqtt/mqtt.go:301-428 | the same for the whole frame up to the reader's largest length |
| MqttFrames.ConnectOfBytes | gate/base/mqtt/mqtt.go:345-428 | whatever CONNECT is accepted, its bytes are those of the fields returned in their places; the identifier has 1 to 23 bytes and the will is there if and only if it is flagged |
| MqttFrames.ConnectRefused | gate/base/mqtt/mqtt.go:345-390 | an identifier that is empty or too long and a protocol name that leaves no room are refused, each with its error |
| MqttFrames.WillExactly | gate/base/mqtt/mqtt.go:391-408 | the will is read if and only if it is flagged, and refused if and only if its topic exceeds the count |
| MqttFrames.NameExactly | gate/base/mqtt/mqtt.go:409-418 | a flagged name is read if and only if the count has anything left, and refused if and only if it exceeds it |
| MqttFrames.PasswordExactly | gate/base/mqtt/mqtt.go:419-428 | the same for the password after the name |
| MqttFrames.SmallPackLayout | gate/base/mqtt/mqtt.go:636-791 | the bytes of every small pack by position, CONNACK included |
| MqttFrames.PublishLayout | gate/base/mqtt/mqtt.go:657-716 | header, topic, id and payload of a PUBLISH in their places, the id only above QoS 0 |
| MqttFrames.TopicLayout | gate/base/mqtt/mqtt.go:717-777 | the bytes of a SUBSCRIBE and UNSUBSCRIBE of one topic, with a length that leaves out the id |
| Handshake.Client.WaitPack | gate/base/mqtt/mqtt_client_server.go:124-214 | which packs are sent back and which are handed up, for every pack read, and the error when the queue has failed |
| Handshake.Client.AckTopics | gate/base/mqtt/mqtt_client_server.go:184-196 | one SUBACK per topic of QoS 2, and the error of the last |
| Handshake.Client.ListenLoop | gate/base/mqtt/mqtt_client_server.go:64-111 | every pack received up to the end of the loop is handed up, and answered in order until the write queue records an error; the loop ends with the first pack that cannot be answered, a read error, a closed channel, or a CONNECT that is none |
| Handshake.Client.OnlineMsgId | gate/base/mqtt/mqtt_client_server.go:114-122 | the next id after the last one |
| Handshake.IdsAreFresh | gate/base/mqtt/mqtt_client_server.go:114-122 | ids are non-zero 16-bit numbers and none comes twice within 65535 |
| Handshake.RepliesMoveOn | gate/base/mqtt/mqtt_client_server.go:136-208 | a reply moves the exchange of its id on by one stage and starts none, each topic of QoS 2 is answered by one SUBACK, and no reply is for the layer above |
| Handshake.EveryRunConserves | gate/base/mqtt/mqtt_client_server.go:124-214 | in every run, per peer and id: publishes of QoS 1 and 2, connects, unsubscribes, pings and topics of QoS 2 sent are those in flight, those whose answer is, and those answered; and every PUBLISH, SUBSCRIBE, UNSUBSCRIBE and PINGREQ sent has been handed up at the other side, in order, or is on its way there |
| Handshake.ReceiptWeighs | gate/base/mqtt/mqtt_client_server.go:124-214 | every receipt lowers the weight in flight by exactly one |
| Handshake.Quiesces | gate/base/mqtt/mqtt_client_server.go:124-214 | with no new requests the exchange stops after as many receipts as the weight; then every exchange has been answered to its end and everything meant for the layer above has been handed up |
| Handshake.ReadPacksAreTyped | gate/base/mqtt/mqtt_client_server.go:136-207 | no type assertion of the reply machine fails on a pack that was read |
| Handshake.RepliesSurviveTheWire | gate/base/mqtt/mqtt_client_server.go:124-214 | every reply but CONNACK is read by the peer as it was sent |
| Handshake.ReplyBytes | gate/base/mqtt/mqtt_client_server.go:136-208 | the bytes of every reply by position, with the id of the pack it answers |
| PackQueue.EveryRunKeeps | gate/base/mqtt/pack_queue.go:83-225 | what every interleaving of writer and reader keeps |
| PackQueue.QueueIsSafe | gate/base/mqtt/pack_queue.go:83-225 | no send on a closed channel, none closed twice, no channel beyond its room, the writer's error and finish notices never block, exactly one error is sent for the one failed write, packs written are a prefix of those queued, and results are received in stream order with nothing after an error |
| PackQueue.ShutdownCompletes | gate/base/mqtt/pack_queue.go:181-225 | once a write has failed, the finish notice stays there until the reader takes it, and from any state reached the writer's and the reader's own steps lead to all four closes, each done once, without a panic |
| PackQueue.WriterCatchesUp | gate/base/mqtt/pack_queue.go:83-118 | while no write fails the writer by itself writes everything queued, and then there is room again |
| PackQueue.NextResultArrives | gate/base/mqtt/pack_queue.go:181-225 | reader and receiver by themselves bring the next result of the stream to the receiver |
| PackQueue.PeerReadsWhatWasQueued | gate/base/mqtt/pack_queue.go:83-118 | in every interleaving, a peer reading the bytes written so far gets the packs queued, in order, up to the last one written |
| PendingCalls.EveryRunKeeps | rpc/base/local_client.go:39-199 | what every interleaving of callers, handler and `Done` keeps |
| PendingCalls.AtMostOnce | rpc/base/local_client.go:141-199 | each call's channel gets at most one result and one close, never a send after the close, the handler's send never blocks, and nobody panics before the broker client has set its table to nil |
| PendingCalls.ResultIsOwn | rpc/base/amqp_client.go:101-168 | a result is a reply with the caller's own id or the report of its passed deadline |
| PendingCalls.ResultIsTakenOnce | rpc/base/rpc_client.go:120-124 | a caller can take its result if and only if it has been sent and not taken, and finds nothing more |
| PendingCalls.DoneClosesExactly | rpc/base/local_client.go:39-54 | when `Done` has returned, a registered call is closed if and only if it was registered before `Done` listed the table |
| PendingCalls.LateCallStaysOpen | rpc/base/local_client.go:39-86 | a run in which a call registers after the listing and `Done` returns with its channel open |
| PendingCalls.NeverClosedLater | rpc/base/local_client.go:39-54 | after `Done` has returned no step of anyone closes a call it has not closed |
| PendingCalls.SweepLeavesExactly | rpc/base/local_client.go:141-199 | whenever the handler is at its select, the table is exactly what the last sweep looked at in time and what was registered since, less what was replied to since; every overdue entry has its report and is closed |
| PendingCalls.SweepClearsOverdue | rpc/base/local_client.go:141-162 | after a sweep at time t, a pending entry with a deadline below t was registered after the sweep's snapshot |
| PendingCalls.LateCallOutlivesSweep | rpc/base/local_client.go:141-162 | such an entry can exist |
| PendingCalls.OthersUntouched | rpc/base/local_client.go:173-187 | a step of the handler leaves the entries and channels of all other calls unchanged, dropped replies those of all calls |
| PendingCalls.HandlerAdvances | rpc/base/local_client.go:141-199 | away from its select the handler is never blocked and comes closer to it with every step |
| PendingCalls.DoneReturns | rpc/base/amqp_client.go:38-57 | from any state after `Done` has been called, with either backend, the handler's and its own steps let it meet the handler and return |
| PendingCalls.DoneAdvances | rpc/base/local_client.go:43-53 | after the meeting `Done` is never blocked and comes closer to returning with every step |
| PendingCalls.DroppedTablePanicsIff | rpc/base/amqp_client.go:38-85 | once the table is nil, a caller can still panic if and only if its call has passed the test of `isClose` and not reached the table |
| PendingCalls.LateCallMayPanic | rpc/base/amqp_client.go:38-85 | such a state is reached |
| RpcClient.Client.Call | rpc/base/local_client.go:59-86 | registers the call unless the client is closed |
| RpcClient.Client.OnTimeout | rpc/base/local_client.go:141-162 | a sweep ends exactly the overdue calls, each with its report and a close, and keeps the others |
| RpcClient.Client.OnResponse | rpc/base/local_client.go:173-187 | a reply ends the call it names and no other |
| RpcClient.Client.Done | rpc/base/local_client.go:39-54 | every pending call is closed without a result and the table is empty |
| RpcRefinement.Respond | rpc/base/local_client.go:173-187 | handling a reply is a run of the protocol: the same table, channels, results and closes afterwards |
| RpcRefinement.Sweep | rpc/base/local_client.go:141-162 | a whole timeout sweep is a run of the protocol, whatever the clock shows at each entry |
| RpcRefinement.Finish | rpc/base/local_client.go:39-54 | `Done` is a run of the protocol that ends with `Done` returned |
| RpcClient.Resolve | rpc/base/rpc_client.go:120-146 | what the caller makes of a result: closed, refused, mismatched, badly encoded, or its values |
| RpcClient.TimedOutCaller | rpc/base/local_client.go:150-156 | a caller whose deadline has passed is refused with the text of its call, by the local client with code 102 and without an id, by the broker client with its id and code 0 |
| RpcClient.DecodeAllMeans | rpc/base/rpc_client.go:133-139 | the values come out in order, or the first result that does not decode is reported |
| RpcServer.RPCServer.constructor | rpc/base/rpc_server.go:41-68 | the number of slots is the configured one, but at least a hundred |
| RpcServer.RPCServer.Register | rpc/base/rpc_server.go:116-137 | registers a function under an id not taken yet |
| RpcServer.RPCServer.DecodeArgs | rpc/base/rpc_server.go:315-341 | finds the first argument that does not decode, or whose type has no argument, and otherwise the values the function is called with |
| RpcServer.RPCServer.EncodeResults | rpc/base/rpc_server.go:394-404 | encodes all results in order or finds the first that fails |
| RpcServer.RPCServer.Report | rpc/base/rpc_server.go:383-435 | exactly one callback with results and fault, or a panic and none |
| RpcServer.RPCServer.RunBody | rpc/base/rpc_server.go:277-446 | on every path, recovered panics included, exactly one callback, the slot given back and the wait group even; none exactly if the process ends |
| RpcServer.RPCServer.RunFunc | rpc/base/rpc_server.go:232-458 | exactly one callback with the request's answer and balanced slots, with and without a goroutine of its own; none exactly if the process ends |
| RpcServer.AnswerMeans | rpc/base/rpc_server.go:232-458 | the answer carries the request's id; all results in order and the function's fault if everything went well, no results otherwise |
| RpcServer.TurnedAway | rpc/base/rpc_server.go:263-275 | code and text for an unknown function, a value that is no function and a wrong number of arguments |
| RpcServer.BadArgument | rpc/base/rpc_server.go:315-341 | code and text when the first bad argument does not decode, panics or is missing |
| RpcServer.TooLate | rpc/base/rpc_server.go:359-366 | code and text when the deadline has passed before the call |
| RpcServer.CallFails | rpc/base/rpc_server.go:369-424 | code and text when the function is late, returns nothing, or returns a result or fault that cannot be reported |
| RpcServer.FailureHasText | rpc/base/rpc_server.go:232-458 | a request that does not complete is answered with an error text, given that the texts it is made of are not empty |
| RpcServer.UnansweredIff | rpc/base/rpc_server.go:313-381 | a request gets no answer, and the process ends, if and only if it gets as far as the call of its function and its arguments do not fit the signature, variadic functions and nil values included, or the function panics |
| RpcServer.WrongArguments | rpc/base/rpc_server.go:313-370 | a string for an integer and a missing type end the process; a function of a variadic parameter alone can be called without types |
| RpcServer.FailureCodes | rpc/base/rpc_server.go:263-424 | a failed request carries -1, 2, 102 or 0, each of the first three exactly for its causes |
| RpcServer.CodesWrap | rpc/base/rpc_server.go:236 | error codes are converted to 32 bits modulo 2^32 |
| RpcServer.FirstBadArgIff | rpc/base/rpc_server.go:315-341 | decoding succeeds if and only if every type has an argument and each decodes |
| RpcSystem.EveryRunKeeps | rpc/base/rpc_server.go:172-230 | what every interleaving of the composed client and server keeps |
| RpcSystem.BodiesAreBounded | rpc/base/rpc_server.go:50-78 | bodies running at once never exceed the larger of a hundred and the configured number, and all slots are free when all requests have ended |
| RpcSystem.ExactlyOneCallback | rpc/base/rpc_server.go:232-458 | each request that has ended has been called back once, with its answer, and no other at all |
| RpcSystem.EndToEnd | rpc/base/local_server.go:33-72 | what a caller receives is the server's one answer to that very call or a timeout report |
| RpcSystem.EveryRequestEnds | rpc/base/rpc_server.go:172-230 | from any state with the client open, the goroutines by themselves bring every request to its end and give back every slot, requests waiting to be received or for a slot included, unless the call of a function ends the process |
| RpcSystem.ProcessMayEndIff | rpc/base/local_server.go:33-72 | once the client has closed the reply channel, the process can still end if and only if a result is on its way, a request past the test of `isClose` is unanswered and not expired on receipt, a call can still be offered in time, or a function not waited for is going to panic |
| RpcSystem.OnlyBadCallsBefore | rpc/base/rpc_server.go:313-357 | before that only the call of a function, by its arguments or its own panic, can have ended it |
| RpcSystem.CallReturnsValues | rpc/base/rpc_client.go:120-146 | the values the function returned are the values the caller decodes, in order |
| RpcSystem.FailureIsSeen | rpc/base/rpc_client.go:125-146 | the caller is refused if and only if the request did not complete or reported a fault |
| RpcSystem.ValuesAreReturned | rpc/base/rpc_client.go:120-146 | in every run, a caller that finds values is one whose function completed without a fault |
| ShardedMap.Fnv32 | utils/concurrent-map.go:305-313 | the loop computes the hash with 32-bit wrap-around |
| ShardedMap.KnownHashes | utils/concurrent-map.go:305-313 | published values of the hash |
| ShardedMap.LookUp | utils/concurrent-map.go:30-32 | a key is in the one map exactly if it is in its own shard, with that value |
| ShardedMap.PutInShard | utils/concurrent-map.go:44-50 | writing a key in its shard writes it in the one map and keeps every key in its shard |
| ShardedMap.DropFromShard | utils/concurrent-map.go:117-123 | removing a key from its shard removes it from the one map |
| ShardedMap.SizeOfMerge | utils/concurrent-map.go:94-103 | the sizes of the shards add up to the size of the one map |
| ShardedMap.ConcurrentMap.constructor | utils/concurrent-map.go:21-27 | a new map is empty |
| ShardedMap.ConcurrentMap.MSet | utils/concurrent-map.go:34-41 | adds all entries of a map, later values winning |
| ShardedMap.ConcurrentMap.Set | utils/concurrent-map.go:44-50 | acts as on one map and touches one shard |
| ShardedMap.ConcurrentMap.Upsert | utils/concurrent-map.go:59-68 | stores what the callback makes of the present value |
| ShardedMap.ConcurrentMap.SetIfAbsent | utils/concurrent-map.go:70-80 | stores only under a new key and says so |
| ShardedMap.ConcurrentMap.Get | utils/concurrent-map.go:83-91 | looks up in the one map |
| ShardedMap.ConcurrentMap.Has | utils/concurrent-map.go:106-114 | membership in the one map |
| ShardedMap.ConcurrentMap.Remove | utils/concurrent-map.go:117-123 | removes from the one map |
| ShardedMap.ConcurrentMap.RemoveCb | utils/concurrent-map.go:132-143 | removes exactly if the callback says so |
| ShardedMap.ConcurrentMap.Pop | utils/concurrent-map.go:146-154 | removes and returns what was there |
| ShardedMap.ConcurrentMap.Count | utils/concurrent-map.go:94-103 | the size of the one map |
| ShardedMap.ConcurrentMap.IsEmpty | utils/concurrent-map.go:157-159 | whether the one map is empty |
| ShardedMap.ConcurrentMap.Keys | utils/concurrent-map.go:263-291 | every key of the one map once |
| Snapshot.EveryRunKeeps | utils/concurrent-map.go:178-229 | what every interleaving of copiers, forwarders, writers and consumer keeps |
| Snapshot.NobodyBlocks | utils/concurrent-map.go:178-229 | neither a copier, which holds its shard's lock, nor a forwarder ever waits for room, even if nothing is consumed |
| Snapshot.EmitsTheUnion | utils/concurrent-map.go:178-229 | the iterator delivers exactly the union of what each shard held when it was locked, each key once |
| Snapshot.IteratorFinishes | utils/concurrent-map.go:178-229 | from any state the copiers and forwarders by themselves close the result, though nothing is consumed, and it is then the union of the frozen shards |
| Snapshot.ConsumerGetsAll | utils/concurrent-map.go:178-229 | whoever ranges over the result can take all of it, and a writer waits if and only if its shard is being copied |
| Snapshot.FrozenWithoutWrites | utils/concurrent-map.go:193-213 | with no writer at work, what a shard is frozen as is what it held from the start |
| Snapshot.Collect | utils/concurrent-map.go:232-241 | the loop of `Items` builds the map of the tuples delivered |
| Snapshot.ItemsAreTheContent | utils/concurrent-map.go:232-241 | with no writer at work, `Items` gives the whole content back |
| BackupChain.ShiftStep | logger/ozzo-log/file.go:107-121 | in each round of the renaming loop the new name is free |
| BackupChain.FileTarget.ShiftBackups | logger/ozzo-log/file.go:107-121 | the downward loop moves every backup up by one name, drops only the oldest allowed and overwrites nothing |
| BackupChain.ShiftDropsOldest | logger/ozzo-log/file.go:107-121 | put end to end, the files lose exactly the oldest backup allowed |
| BackupChain.FileTarget.constructor | logger/ozzo-log/file.go:51-73 | opening in an empty directory |
| BackupChain.FileTarget.Rotate | logger/ozzo-log/file.go:99-127 | rotates exactly when the message would overflow the file and could fit a new one, and what the directory is then |
| BackupChain.FileTarget.Process | logger/ozzo-log/file.go:76-92 | one message, with filter, short writes and failed reopening, in every case the whole new directory |
| BackupChain.FileTarget.HoldsATail | logger/ozzo-log/file.go:76-127 | after any history the backups and the current file are a suffix of all bytes written, with no more backups than configured and no file over the limit but by one message over it |
| BackupChain.FileTarget.RotatedOnlyWhenFull | logger/ozzo-log/file.go:99-102 | whatever is in a backup, the first message of the next file would not have fitted after it, but fits into a file |
| BackupChain.FileTarget.FilledUp | logger/ozzo-log/file.go:99-102 | a file takes every message that fits into it, or into no file |
| BackupChain.FileTarget.NoBackupYet | logger/ozzo-log/file.go:76-127 | as long as all messages together fit into one file there is no backup and the file holds them all |
| NumberedRotation.Lines | log/beego/file.go:225-250 | the chunked reader counts the newlines of the file whatever sizes it is handed |
| NumberedRotation.NewlinesIsCount | log/beego/file.go:225-250 | the count is the number of places that hold byte 10 |
| NumberedRotation.FirstFreeMeans | log/beego/file.go:270-286 | the lowest free number is chosen, and none exactly when all 999 are taken |
| NumberedRotation.TargetMeans | log/beego/file.go:266-286 | with a limit a full file gets the lowest free number of the day of the message, otherwise the day it was opened, and a number only if that is taken |
| NumberedRotation.FileLogWriter.constructor | log/beego/file.go:122-132 | opening in any directory, an existing file continued |
| NumberedRotation.FileLogWriter.InitFd | log/beego/file.go:188-209 | the counters are set from the file |
| NumberedRotation.FileLogWriter.FindName | log/beego/file.go:270-282 | the search loop finds the first free number |
| NumberedRotation.FileLogWriter.DoRotate | log/beego/file.go:254-312 | the live file moves to a free name and a new one starts, or everything stays in place |
| NumberedRotation.FileLogWriter.RotateIfDue | log/beego/file.go:142-163 | before a line the live file is moved away exactly if a rotation is due and a name is free |
| NumberedRotation.FileLogWriter.RotationIsDue | log/beego/file.go:134-140 | with rotation on and a name free a line finds a file below the limits and of its day, and no file is moved away that is |
| NumberedRotation.FileLogWriter.WriteMsg | log/beego/file.go:142-172 | a line of a level let through ends up in the live file, after a rotation if one is due and possible, so that without the line the file is below its limits; one that is filtered changes nothing, and one written only in part is not counted |
| NumberedRotation.FileLogWriter.DailyRotate | log/beego/file.go:211-223 | the midnight goroutine rotates only when due and loses nothing |
| NumberedRotation.FileLogWriter.NothingIsLost | log/beego/file.go:142-312 | after any history no file found at the start has changed but the live one, no name was used twice, and the files in order hold every line exactly once |
| AsyncLog.EveryRunKeeps | log/beego/log.go:298-546 | what every interleaving of producers, consumer and flusher keeps |
| AsyncLog.InOrderExactlyOnce | log/beego/log.go:379-402 | each output's messages, the one in hand and the queue are all messages queued, in order and once, despite reused records; no record is lost and the queue never exceeds its room |
| AsyncLog.FlushMeansWritten | log/beego/log.go:496-520 | when `Flush` or `Close` returns, everything queued before the call has been given to every output |
| AsyncLog.DrainNeverBlocks | log/beego/log.go:531-546 | the drain never waits, the signal always finds room and the wait group never goes below zero |
| AsyncLog.FlushReturns | log/beego/log.go:379-402 | from any state with a waiting flush, the steps of consumer and flusher let it return and leave the flusher ready for the next call, or closed |
| AsyncLog.FlushIsServed | log/beego/log.go:496-546 | from any state between calls, a call of `Flush` or `Close` returns by the steps of flusher and consumer, with everything queued before it given to every output |
| AsyncLog.MessageStays | log/beego/log.go:298-306 | a message stays with its producer until that producer queues it |
| AsyncLog.MessageIsQueued | log/beego/log.go:298-306 | with room in the queue a producer can queue any message by its own steps |
| AsyncLog.EverythingIsWritten | log/beego/log.go:379-402 | unless told to close, the consumer by itself gives everything queued to every output |

## Left out

- Index additions in the log codec are exact: 64-bit wrap-around of `iNdEx + msglen` is not modelled.
- Messages of the log codec are values: aliasing between them, nil elements in repeated fields, and what a receiver holds after a failed `Unmarshal` are not modelled; a nil and an empty slice of unrecognized bytes are the same.
- `Marshal` of the three inner message types: the same wrapper around size pass and in-place writer as that of the list.
- RoundTrip.ListRoundTrip: for encodings below 2^63 bytes, the limit of the program's own `int`.
- MqttIo.DelayWritePack: I/O errors of the buffered writer are not modelled, and the declared length must fit the four bytes of the program's array.
- A nil topic pointer of a PUBLISH, and `dup`, `qos` or type values too wide for their bits in the fixed header, are outside the packs considered.
- Socket deadlines and the floating-point keep-alive of the write queue.
- PackQueue.ShutdownCompletes: that a pending read of a stream whose connection is being closed returns at all is up to the operating system.
- PackQueue.QueueIsSafe: producers that send on the write channel while it is being closed are not modelled, nor whether the reader goroutine ever ends when no write fails.
- The handing over of the close notice between `Listen_loop` and another login, and its recovered panics.
- Handshake.Client.ListenLoop: the write queue records an error between rounds; within one SUBSCRIBE, whose topics are acknowledged one by one, it does not.
- Handshake.EveryRunConserves: links neither lose nor reorder packs and the write queues have not failed.
- PendingCalls.ResultIsOwn: correlation ids are distinct and `Done` is called once; failing publishes and undecodable replies of the broker client appear as calls without a reply.
- RpcClient.Client.Call: the handing over of the request to the server is in `RpcSystem` only.
- RpcSystem.EveryRequestEnds: after `Done` has met the handler the process may end first, as `RpcSystem.ProcessMayEndIff` says.
- RpcSystem.ProcessMayEndIff: of `RPCServer.Done` only the first step, `StopConsume`, is modelled.
- The Redis backend: its two goroutines share entries without exclusion and its stored and asserted types differ, so at-most-once does not hold there.
- RpcServer.RPCServer.RunBody: the unsynchronised `executing` counter is not modelled; a panic of a function after its deadline is in `RpcSystem`.
- Decoding and encoding of single arguments, reflection, tracing, error texts and user functions are outcomes given to the model.
- The choice of backend and the building of requests in `CallArgs`, and calls without a reply, are not modelled.
- `RPCServer.Done` and the consumption of requests from brokers.
- The unbuffered iterator `Iter` (deprecated in the source), `IterCb` and JSON marshalling of the sharded map.
- ShardedMap.ConcurrentMap.Keys: stated with no writer at work; its channels are not modelled.
- BackupChain.FileTarget.Process: renaming and removing succeed, and the directory holds no log files at the start; closing by a nil entry is not modelled.
- NumberedRotation.FileLogWriter.DoRotate: renaming, closing and reopening succeed, the live file is not removed from outside, and the deletion of old logs is off.
- AsyncLog.FlushMeansWritten: one flusher, as with two the wait group can go below zero; producers that send after `Close` are not modelled, nor is the order in which the operating system sees what outputs were given.
- Levels and filters of the logs other than that of `WriteMsg`, formatting of log lines and colours are not modelled.
- Item exchange, entity and sequence services: mostly unfinished stubs.
