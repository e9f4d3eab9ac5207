# Verification of the MetaProtocol proxy

A Dafny model of the request path of an Envoy network filter that proxies any request/response
protocol: the codecs that cut a byte stream into messages and the life of each request between a
downstream connection and an upstream one. Every file verifies with `dafny verify dfyconfig.toml`.

What runs step by step in the program is a class here, with the program's fields and its methods,
and each method is proved against a function on values. The properties are lemmas about those
functions: over every input, every chunking of a stream, and every run of events.

| part | values | objects |
|---|---|---|
| Thrift automaton | ThriftProtocol, ThriftBinary, ThriftWire, ThriftTree, ThriftMachine, ThriftRun, ThriftBounds, ThriftRefinement, ThriftTranscoder | ThriftDecoder |
| Thrift codec | ThriftCodec, ThriftStreams | ThriftCodecObject |
| Framing pipeline | CodecInterface, StreamSplitting, ByteConservation | RequestDecoding |
| Dubbo | DubboProtocol, DubboCodec, DubboMessages, DubboStreams, Descriptors | DubboCodecObject, DubboSerializer |
| Request life | MessageLifecycle, MessageInvariant, MessageSteps, ChainOutcome, ConnectionLifecycle, LifecycleRuns, ReleaseRuns, FilterRuns, NestedDispatch, FilterChain, Destruction | LifecycleObjects |
| Both together | EndToEnd, ProtocolRuns | |

## What the proofs say

**Thrift.** The automaton with its explicit stack of frames is a recursive-descent parser followed by
a printer. A state and a stack denote what is still to be parsed and what that will write, and each
step keeps this meaning (`ThriftRefinement.StepKeepsMeaning`). Hence a run ends exactly as the parser
does, on every input and for every lawful protocol (`ThriftTranscoder.RunRefinesParser`), and on the
encoding of a tree of any nesting it stops behind the encoding with the same octets as output. The
stack grammar that makes each assertion of the handlers hold is `ThriftMachine.Valid`; the bound on
the steps is four for each octet consumed, and with the strict binary protocol the stack is never
higher than the number of octets consumed, whether or not the run throws.

The protocol interface is a triple of functions with three laws (`ThriftProtocol.Lawful`): a read
consumes a prefix, its verdict is not disturbed by octets behind it, and it undoes a write. The strict
binary protocol, which the repository does not contain, follows the Apache Thrift specification
("Thrift Binary protocol encoding", sections Message, Struct, List and Set, Map), and its laws are
proved.

**Framing.** A codec is a state and a `decode` function with two laws (`CodecInterface.Resumable`).
For any such codec the callbacks depend on the stream and not on its chunks, a repeated dispatch
delivers nothing, and the dispatch loop ends. Both codecs are proved to obey the laws.

**Dubbo.** Every octet is delivered, held or buffered, in order, over any chunking. A reply header
reads back if and only if its status passes the validity check. That check has no case for
ServerError, which the default branch of `onError` writes: such a reply makes the program's own
decoder throw (`DubboProtocol.DefaultErrorReplyThrows`).

What every header says is proved octet by octet (`DubboProtocol.HeaderReads`), and every event, call
and result, written with a Hessian writer that the reader undoes, is delivered as it was meant exactly
if it keeps to the rules, and throws otherwise (`DubboMessages.MessageDecodes`). The program's own
writer of results does not always keep to them: it puts content behind the types without a value,
where the reader allows none. What it writes reads back if and only if the type is not one of these
two (`DubboMessages.ResultRoundTrip`).

**Request life.** The environment keeps to a contract, `ConnectionLifecycle.Enabled`: no data once the
downstream is closed; only a filter that has stopped resumes, once, and before that it may reset the
stream, or reply once; a pool request gets one result, none after it is cancelled, and a synchronous
failure is only an overflow; nothing comes from an upstream connection that is not attached or has
closed; nothing reaches a deleted message. Upstream data holds no heartbeat and no request, which the
response decoder does not implement (active_message.h:46-48) or asserts away (active_message.cc:38-39),
and no octets behind a response that an encoder filter stops, where `ASSERT(complete_ || underflow)`
(active_message.cc:31) fails. The router
is the last filter of the chain, filters return Continue or StopIteration, and local replies leave the
connection open (`end_stream` is false in every call of the repository). A dispatch may run inside
any callback that resumes a chain, decode more requests and break the connection; while the connection
has not broken it does neither (`NestedDispatch.NestedDispatchIsQuiet`).

Over every run that keeps to it, a request is answered at most once as long as responses carry the id
of their request. Without that hypothesis the property is false, because the response is written
before its id is compared: `LifecycleRuns.AnsweredTwice` is a run with two replies, and
`LifecycleRuns.TwoRepliesExactly` says when there are two, for all runs. A filter is entered again
exactly as often as it resumes with the origin message undrained (`FilterRuns.RepeatsAreResumptions`).
A request leaves the list of active messages exactly at the steps that end it, so a two-way request
that nothing ends stays linked until its response comes (`ReleaseRuns.LinkedExactly`). What the filter
chain does to a request is told by the first filter that does not continue and, behind all of them, by
what the router meets (`ChainOutcome.DecodedOutcome`). A deleted request is left alone, and each of its filters is destroyed once
(`Destruction.EachFilterIsDestroyedOnce`).

**From octets to octets.** A run of a connection with its framing is a list of chunks and other events
in any order; a dispatch decodes what the framing says, also inside other events. The requests are
then the decoded streams in order. For a codec that conserves octets, as Dubbo's does, each payload is
the request's own stretch of the octets received, and this stretch goes upstream, once, or nothing
does (`EndToEnd.RequestsAreStretches`). For both protocols messages on the wire become requests with
their kind and id, a Dubbo event becomes none, and octets that hold no message close the connection
and release every request (`ProtocolRuns`).

## Model

| member | source | states |
|---|---|---|
| ThriftBinary.StrictIsLawful | src/application_protocols/thrift/protocol.h:65-261 | the three laws of the protocol interface hold for the strict binary protocol: prefix reads, stable verdicts, reads undo writes |
| ThriftBinary.UndoWrite | src/application_protocols/thrift/protocol.h:268-403 | every token the protocol carries is read back from what was written, whatever follows |
| ThriftBinary.ReadIsStable | src/application_protocols/thrift/protocol.h:65-261 | a success or an exception of a read stays the same when octets arrive behind it |
| ThriftWire.HeaderOnTheWire | src/application_protocols/thrift/protocol.h:268-274 | the octets of a message header with a short name |
| ThriftWire.CodesOnTheWire | src/application_protocols/thrift/protocol.h:296-345 | the type codes that stand in front of fields and elements |
| ThriftWire.HeadsOnTheWire | src/application_protocols/thrift/protocol.h:296-347 | the octets of field, list, set and map heads and of the stop field |
| ThriftWire.ScalarsOnTheWire | src/application_protocols/thrift/protocol.h:354-403 | the octets of scalars |
| ThriftWire.StructOnTheWire | src/application_protocols/thrift/protocol.h:281-303 | a struct with one number in it, octet by octet up to its stop field |
| ThriftTree.ParseEncoded | src/application_protocols/thrift/protocol.h:268-403 | parsing the encoding of a tree of any nesting gives the tree and leaves the suffix |
| ThriftTree.ParseEncodedMessage | src/application_protocols/thrift/protocol.h:268-403 | the same for a whole message with its header |
| ThriftTree.ParsedIsSendable | src/application_protocols/thrift/protocol.h:65-261 | whatever parses is a tree that the protocol can carry |
| ThriftTree.ParsedMessageIsSendable | src/application_protocols/thrift/protocol.h:65-261 | whatever parses as a message can be sent again |
| ThriftMachine.AcceptIsValid | src/application_protocols/thrift/thrift_codec.cc:220-517 | taking a token keeps the stack grammar: a frame of the right kind is on top in each state, with elements left where one is due |
| ThriftMachine.StepIsValid | src/application_protocols/thrift/thrift_codec.cc:519-567 | every step keeps the stack grammar, so that no stack assertion fails, `remaining_` never underflows and MessageEnd and Done have an empty stack |
| ThriftMachine.StepCost | src/application_protocols/thrift/thrift_codec.cc:519-585 | each step pays for itself out of four units for each octet read and a potential of state and stack |
| ThriftMachine.StepHeight | src/application_protocols/thrift/thrift_codec.cc:249-257 | for every lawful protocol a step adds at most two frames for each octet it reads |
| ThriftMachine.StepIsStable | src/application_protocols/thrift/thrift_codec.cc:519-560 | a handler that moves or throws does the same when octets are added behind |
| ThriftRun.Run | src/application_protocols/thrift/thrift_codec.cc:569-585 | the loop ends for every input, valid and in Done, or waiting in a state that cannot step, without having read more than there was |
| ThriftRun.RunCost | src/application_protocols/thrift/thrift_codec.cc:569-585 | at most four steps for each octet consumed beyond the initial potential, from every valid machine; in a run that throws, those consumed before the exception |
| ThriftRun.DecodingCost | src/application_protocols/thrift/thrift_codec.cc:569-585 | decoding a message takes at most four steps for each octet consumed, whether it ends, waits or throws |
| ThriftRun.RunHeight | src/application_protocols/thrift/thrift_codec.cc:569-585 | for every lawful protocol no machine a run passes through has a stack higher than at the start by more than two frames for each octet consumed, also in a run that throws |
| ThriftRun.RunResumes | src/application_protocols/thrift/thrift_codec.cc:569-585 | suspending at any octet and resuming gives the state, stack, output, leftover and verdict of one run on everything |
| ThriftRun.FeedIsContinue | src/application_protocols/thrift/thrift_codec.cc:569-585 | the same for any number of pieces, from any valid machine |
| ThriftRun.ChunkingIsInvisible | src/application_protocols/thrift/thrift_codec.cc:569-585 | the same from the initial machine |
| ThriftBounds.StrictStepHeight | src/application_protocols/thrift/thrift_codec.cc:519-560 | with the strict binary protocol a step adds at most one frame for each octet it reads |
| ThriftBounds.StrictRunHeight | src/application_protocols/thrift/thrift_codec.cc:569-585 | with the strict binary protocol no machine a run passes through, from any valid one, has gained more than one frame for each octet consumed, also in a run that throws |
| ThriftBounds.StrictDecodingHeight | src/application_protocols/thrift/thrift_codec.cc:569-585 | decoding a message, the highest stack on the way is no higher than the number of octets consumed, whether it ends, waits or throws |
| ThriftRefinement.ValueDenotes | src/application_protocols/thrift/thrift_codec.cc:440-517 | a state that expects a value means: parse a value of that type, print it, go on as the state after it |
| ThriftRefinement.ContainerDenotes | src/application_protocols/thrift/thrift_codec.cc:440-465 | pushing a return frame for a struct, map, set or list means parsing that value and then the return state |
| ThriftRefinement.GlideKeepsMeaning | src/application_protocols/thrift/thrift_codec.cc:440-465 | a step that only pushes a frame changes nothing of what is denoted |
| ThriftRefinement.AtomKeepsMeaning | src/application_protocols/thrift/thrift_codec.cc:466-517 | reading and rewriting a scalar moves it from the denoted rest to the output |
| ThriftRefinement.NextFieldKeeps | src/application_protocols/thrift/thrift_codec.cc:272-308 | a field header followed by what the new frame denotes is the parser's treatment of the fields |
| ThriftRefinement.ListHeadDenotes | src/application_protocols/thrift/thrift_codec.cc:311-348 | the same for a list and its counted frame |
| ThriftRefinement.SetHeadDenotes | src/application_protocols/thrift/thrift_codec.cc:401-438 | the same for a set |
| ThriftRefinement.MapHeadDenotes | src/application_protocols/thrift/thrift_codec.cc:351-398 | the same for a map, whose key and value states alternate |
| ThriftRefinement.StepKeepsMeaning | src/application_protocols/thrift/thrift_codec.cc:519-567 | every step keeps the denotation of state, stack, output and remaining input; it waits or throws only when the denotation is short or wrong |
| ThriftTranscoder.RunMeans | src/application_protocols/thrift/thrift_codec.cc:569-585 | a run from any valid machine ends as its denotation says |
| ThriftTranscoder.RunRefinesParser | src/application_protocols/thrift/thrift_codec.cc:569-585 | on every input the run finishes exactly when the recursive-descent parser accepts, with the parsed message's encoding as output and the same leftover; it waits or throws when the parser runs short or fails |
| ThriftTranscoder.HeaderIsParsed | src/application_protocols/thrift/thrift_codec.cc:220-236 | the header kept by a finished run is that of the parsed message |
| ThriftTranscoder.FinishedConsumes | src/application_protocols/thrift/thrift_codec.cc:569-585 | a finished run has read at least one octet |
| ThriftTranscoder.TranscodesEveryMessage | src/application_protocols/thrift/thrift_codec.cc:220-585 | on the encoding of any message and any suffix the run reaches Done, consumes exactly the encoding and outputs it octet for octet |
| ThriftTranscoder.TranscodingIsIdempotent | src/application_protocols/thrift/thrift_codec.cc:220-585 | the output of a finished run is canonical: run again, it comes out the same |
| ThriftTranscoder.TranscodesInPieces | src/application_protocols/thrift/thrift_codec.cc:220-585 | transcoding holds however the encoding and its suffix are cut |
| ThriftDecoder.DecoderStateMachine.HandleValue | src/application_protocols/thrift/thrift_codec.cc:440-517 | reads and rewrites a scalar, or pushes the return frame of a container, and changes nothing when it waits or throws |
| ThriftDecoder.DecoderStateMachine.PopReturnState | src/application_protocols/thrift/thrift_codec.cc:562-567 | takes the top frame off the vector and gives its return state |
| ThriftDecoder.DecoderStateMachine.HandleMessageBegin | src/application_protocols/thrift/thrift_codec.cc:220-236 | one step of the automaton on the fields of the object |
| ThriftDecoder.DecoderStateMachine.HandleMessageEnd | src/application_protocols/thrift/thrift_codec.cc:239-246 | likewise |
| ThriftDecoder.DecoderStateMachine.HandleStructBegin | src/application_protocols/thrift/thrift_codec.cc:249-257 | likewise |
| ThriftDecoder.DecoderStateMachine.HandleStructEnd | src/application_protocols/thrift/thrift_codec.cc:260-268 | likewise, returning through the frame |
| ThriftDecoder.DecoderStateMachine.HandleFieldBegin | src/application_protocols/thrift/thrift_codec.cc:272-288 | likewise, with the stop field |
| ThriftDecoder.DecoderStateMachine.HandleFieldValue | src/application_protocols/thrift/thrift_codec.cc:291-296 | likewise |
| ThriftDecoder.DecoderStateMachine.HandleFieldEnd | src/application_protocols/thrift/thrift_codec.cc:299-308 | likewise |
| ThriftDecoder.DecoderStateMachine.HandleListBegin | src/application_protocols/thrift/thrift_codec.cc:311-322 | likewise |
| ThriftDecoder.DecoderStateMachine.HandleListValue | src/application_protocols/thrift/thrift_codec.cc:326-338 | likewise, counting the element in the frame below the one just pushed |
| ThriftDecoder.DecoderStateMachine.HandleListEnd | src/application_protocols/thrift/thrift_codec.cc:341-348 | likewise |
| ThriftDecoder.DecoderStateMachine.HandleMapBegin | src/application_protocols/thrift/thrift_codec.cc:351-362 | likewise |
| ThriftDecoder.DecoderStateMachine.HandleMapKey | src/application_protocols/thrift/thrift_codec.cc:366-374 | likewise |
| ThriftDecoder.DecoderStateMachine.HandleMapValue | src/application_protocols/thrift/thrift_codec.cc:378-388 | likewise, counting the entry |
| ThriftDecoder.DecoderStateMachine.HandleMapEnd | src/application_protocols/thrift/thrift_codec.cc:391-398 | likewise |
| ThriftDecoder.DecoderStateMachine.HandleSetBegin | src/application_protocols/thrift/thrift_codec.cc:401-412 | likewise |
| ThriftDecoder.DecoderStateMachine.HandleSetValue | src/application_protocols/thrift/thrift_codec.cc:416-428 | likewise, counting the element |
| ThriftDecoder.DecoderStateMachine.HandleSetEnd | src/application_protocols/thrift/thrift_codec.cc:431-438 | likewise |
| ThriftDecoder.DecoderStateMachine.HandleState | src/application_protocols/thrift/thrift_codec.cc:519-560 | dispatches to the handler of the state |
| ThriftDecoder.DecoderStateMachine.Run | src/application_protocols/thrift/thrift_codec.cc:569-585 | leaves state, stack, output and buffer as the run on values does, and returns its verdict |
| ThriftCodec.UnframedIsLawful | src/application_protocols/thrift/transport.h:54-76 | a transport without frames obeys the transport laws |
| ThriftCodec.LengthPrefixedIsLawful | src/application_protocols/thrift/transport.h:54-76 | a transport with a bounded length prefix obeys them: verdicts are stable and reading a frame undoes writing it |
| ThriftCodec.DecodeIsStable | src/application_protocols/thrift/thrift_codec.cc:18-96 | octets behind a verdict do not disturb it, and a call after WaitForData continues as one call on everything would |
| ThriftCodec.DecodeProgresses | src/application_protocols/thrift/thrift_codec.cc:18-102 | a Done leaves the codec as new and has read at least one octet when it started so |
| ThriftCodec.ThriftIsResumable | src/application_protocols/thrift/thrift_codec.cc:18-102 | the Thrift codec obeys the laws of the framing pipeline over any lawful protocol and transport |
| ThriftCodec.DeliversWhatWasSent | src/application_protocols/thrift/thrift_codec.cc:18-96 | a framed message on the wire comes out with its own octets as origin message: a call as a request, a reply as a response, one-way as one-way, an exception as an error, and the sequence id modulo 2^64 |
| ThriftCodec.DecodeRefinesParser | src/application_protocols/thrift/thrift_codec.cc:18-96 | on any octets an idle codec waits while frame or message is short, throws when either is wrong or the output cannot be framed, and otherwise hands over the parsed message with its kind and id, encoded and framed anew |
| ThriftCodecObject.ThriftCodec.OpenFrame | src/application_protocols/thrift/thrift_codec.cc:29-65 | creates metadata and machine when a frame starts; `frame_started_` holds exactly while a machine exists |
| ThriftCodecObject.ThriftCodec.CloseFrame | src/application_protocols/thrift/thrift_codec.cc:78-96 | ends the frame of a finished machine, hands over its kind and id, and never leaves `frame_ended_` set |
| ThriftCodecObject.ThriftCodec.Decode | src/application_protocols/thrift/thrift_codec.cc:18-96 | does what the codec on values does; the early return for an ended frame consumes nothing and no call ever leads to it |
| ThriftStreams.DeliversEveryMessage | src/meta_protocol_proxy/conn_manager.cc:103-127 | any messages sent one behind the other and received in any chunks come out one by one, in order, with their kinds, ids and own octets, and nothing is left |
| ThriftStreams.BadFrameBreaks | src/meta_protocol_proxy/conn_manager.cc:115-126 | octets that open no frame or hold no message, behind any messages and in any chunks, break the connection after these have come out |
| ThriftStreams.ThriftChunkingIsInvisible | src/meta_protocol_proxy/conn_manager.cc:25-28 | for Thrift the callbacks depend on the stream only |
| StreamSplitting.DrainResumes | src/meta_protocol_proxy/conn_manager.cc:115-119 | one dispatch loop on everything equals a loop on a part and then a dispatch of the rest |
| StreamSplitting.DrainSettles | src/meta_protocol_proxy/conn_manager.cc:103-127 | a repeated dispatch with no new octets delivers nothing |
| StreamSplitting.ReceiveAllJoins | src/meta_protocol_proxy/conn_manager.cc:25-28 | receiving more chunks equals receiving their concatenation |
| StreamSplitting.ChunkingIsInvisible | src/meta_protocol_proxy/conn_manager.cc:25-28 | over any chunking of any stream callbacks, codec state and leftover are those of one dispatch on the stream |
| StreamSplitting.SameStreamSameCallbacks | src/meta_protocol_proxy/conn_manager.cc:25-28 | two chunkings of one stream deliver the same |
| StreamSplitting.StreamCallsByKind | src/meta_protocol_proxy/decoder.cc:16-26 | over any chunking of any stream a callback is a heartbeat if and only if its metadata are of kind Heartbeat |
| StreamSplitting.WholeMessagesLand | src/meta_protocol_proxy/conn_manager.cc:115-119 | messages that a codec takes whole are delivered one by one, in order, and what is behind them is dispatched as if it had come first |
| StreamSplitting.WholeStreamLands | src/meta_protocol_proxy/conn_manager.cc:25-28 | in any chunks they are delivered with nothing left |
| StreamSplitting.RejectedBreaks | src/meta_protocol_proxy/conn_manager.cc:115-126 | what the codec throws at breaks the connection behind the messages before it |
| ByteConservation.DrainConserves | src/meta_protocol_proxy/conn_manager.cc:115-119 | for a codec whose calls conserve octets, so does the dispatch loop |
| ByteConservation.StreamIsConserved | src/meta_protocol_proxy/conn_manager.cc:25-28 | over any chunking what is delivered, held and buffered is the stream; before an exception what is delivered is a prefix of it |
| RequestDecoding.RequestDecoder.NewStream | src/meta_protocol_proxy/decoder.h:138-143 | a stream is opened only when none is live |
| RequestDecoding.RequestDecoder.OnDecodeStream | src/meta_protocol_proxy/decoder.cc:9-27 | one decode call and, for a complete message, exactly one callback: a heartbeat, with no stream opened, if its kind is Heartbeat, and otherwise a stream |
| RequestDecoding.RequestDecoder.OnData | src/meta_protocol_proxy/decoder.cc:43-73 | decodes at most one message; underflow exactly when the codec waits or nothing is left; no stream stays live |
| RequestDecoding.Dispatcher.Dispatch | src/meta_protocol_proxy/conn_manager.cc:103-127 | the loop ends and delivers what the dispatch on values delivers; an exception closes the connection and is counted once |
| RequestDecoding.Dispatcher.OnData | src/meta_protocol_proxy/conn_manager.cc:25-28 | a chunk joins the buffer and is dispatched |
| RequestDecoding.Dispatcher.ContinueDecoding | src/meta_protocol_proxy/conn_manager.cc:167-170 | dispatches what is buffered, which delivers nothing new, throws nothing and leaves codec state and buffer as they were |
| DubboProtocol.HeaderIsLocal | src/application_protocols/dubbo/dubbo_protocol_impl.cc:87-136 | the header depends on its 16 octets only |
| DubboProtocol.HeaderIsIdempotent | src/application_protocols/dubbo/dubbo_protocol_impl.cc:87-136 | decoding a header again into the same metadata changes nothing, which a waiting heartbeat relies on |
| DubboProtocol.BodyIsLocal | src/application_protocols/dubbo/dubbo_protocol_impl.cc:138-171 | the outcome of decodeData is a function of the first bodySize octets, whatever is pipelined behind |
| DubboProtocol.FlagFields | src/application_protocols/dubbo/dubbo_protocol_impl.cc:15-19 | the masks, in numbers: 0x80 a request, 0x40 two-way, 0x20 an event, the low five bits the serialization |
| DubboProtocol.HeaderReads | src/application_protocols/dubbo/dubbo_protocol_impl.cc:87-136 | what every header of sixteen octets gives, by its octets: kind, id, size, status and serialization, or an exception if the size, the serialization of a request or the status of a response is not allowed |
| DubboProtocol.ForeignMagicThrows | src/application_protocols/dubbo/dubbo_protocol_impl.cc:97-100 | any other magic number throws |
| DubboProtocol.RequestRoundTrip | src/application_protocols/dubbo/dubbo_protocol_impl.cc:57-75 | the header of a request gives back its id, size and kind, a heartbeat if an event, else a request if two-way, else one-way, exactly if it is in Hessian 2 and within the limit |
| DubboProtocol.ResponseRoundTrip | src/application_protocols/dubbo/dubbo_protocol_impl.cc:173-204 | for every status, id and body a response reads back exactly if the status passes isValidResponseStatus and the body is within the limit |
| DubboProtocol.HeartbeatRoundTrip | src/application_protocols/dubbo/dubbo_protocol_impl.cc:178-189 | a heartbeat reply reads back exactly if its status passes the check |
| DubboProtocol.OnlyServerErrorIsRefused | src/application_protocols/dubbo/dubbo_protocol_impl.cc:39-55 | of the enumerators of ResponseStatus the check refuses ServerError and no other |
| DubboProtocol.ErrorReplyRoundTrip | src/application_protocols/dubbo/dubbo_codec.cc:76-100 | an error reply reads back exactly for a missing route, with status 60, or a bad response, with status 50 |
| DubboProtocol.DefaultErrorReplyThrows | src/application_protocols/dubbo/dubbo_codec.cc:92-94 | for every other error the reader of the reply throws |
| DubboSerializer.DeserializeRpcInvocation | src/application_protocols/dubbo/dubbo_hessian2_serializer_impl.cc:19-44 | four strings at the offsets where the one before stopped, refused if null or past the body size |
| DubboSerializer.DeserializeRpcResult | src/application_protocols/dubbo/dubbo_hessian2_serializer_impl.cc:89-130 | the response type and the checks of its size against the body size |
| DubboSerializer.FourStrings | src/application_protocols/dubbo/dubbo_hessian2_serializer_impl.cc:23-27 | reads through a moving offset are one read of four strings |
| DubboMessages.ResultReads | src/application_protocols/dubbo/dubbo_hessian2_serializer_impl.cc:89-130 | for every type and whatever stands behind it: types 0 and 3 are exceptions, 1 and 4 responses, 2 and 5 responses with nothing behind them, and all else throws |
| DubboMessages.ResultRoundTrip | src/application_protocols/dubbo/dubbo_hessian2_serializer_impl.cc:132-146 | what serializeRpcResult writes reads back as an exception or a response by its type, if and only if the type is not one without a value |
| DubboMessages.InvocationReads | src/application_protocols/dubbo/dubbo_hessian2_serializer_impl.cc:19-44 | four written strings read back as service, version and method, whatever follows; a body that ends before them throws |
| DubboCodec.StepConserves | src/application_protocols/dubbo/dubbo_codec.cc:217-253 | a handler keeps header octets held and buffer together equal to what came, and a finished machine holds header size plus body size |
| DubboCodec.StepIsStable | src/application_protocols/dubbo/dubbo_codec.cc:217-264 | a verdict is not disturbed by octets behind it, and a handler that waited does on more octets what it would have done on all |
| DubboCodec.RunResumes | src/application_protocols/dubbo/dubbo_codec.cc:266-280 | the same for whole runs |
| DubboCodec.DubboIsResumable | src/application_protocols/dubbo/dubbo_codec.cc:18-52 | the Dubbo codec obeys the laws of the framing pipeline, whatever a prefix-deterministic Hessian reader makes of the bodies |
| DubboCodec.DubboIsConserving | src/application_protocols/dubbo/dubbo_codec.cc:154-160 | each call delivers, holds or leaves every octet, and each origin message is header size plus body size long |
| DubboCodec.DubboStreamIsConserved | src/application_protocols/dubbo/dubbo_codec.cc:18-42 | over any chunking of any stream delivered origins, held octets and request buffer are what was received, in order |
| DubboCodec.DubboChunkingIsInvisible | src/application_protocols/dubbo/dubbo_codec.cc:18-42 | the callbacks depend on the stream only |
| DubboMessages.MessageDecodes | src/application_protocols/dubbo/dubbo_codec.cc:102-160 | an event, call or result on the wire, whatever follows, is delivered with its kind, id modulo 2^64, status, sizes and own octets exactly if it keeps to the rules, and throws otherwise |
| DubboMessages.ErrorReplyDecodes | src/application_protocols/dubbo/dubbo_codec.cc:74-100 | the reply of onError, read by its own codec, is an error with the id of the request for a missing route or a bad response, and throws for any other error |
| DubboMessages.HeartbeatReplyDecodes | src/application_protocols/dubbo/dubbo_codec.cc:206-215 | the reply to a heartbeat, read by its own codec, is a heartbeat with the same id |
| DubboStreams.DeliversEveryMessage | src/meta_protocol_proxy/conn_manager.cc:103-127 | messages that keep to the rules, in any chunks, come out in order, an event as a heartbeat and any other as a stream, and nothing is left |
| DubboStreams.BadMessageBreaks | src/meta_protocol_proxy/conn_manager.cc:115-126 | a foreign magic number or a message that breaks a rule, behind any messages, breaks the connection after these have come out |
| DubboCodecObject.DecoderStateMachine.OnDecodeStreamHeader | src/application_protocols/dubbo/dubbo_codec.cc:217-240 | peeks at the header and takes it, or a whole heartbeat, only when all of it is there |
| DubboCodecObject.DecoderStateMachine.OnDecodeStreamData | src/application_protocols/dubbo/dubbo_codec.cc:242-253 | decodes the body and moves it behind the header |
| DubboCodecObject.DecoderStateMachine.Run | src/application_protocols/dubbo/dubbo_codec.cc:266-280 | leaves machine and buffer as the run on values does |
| DubboCodecObject.DubboCodec.Decode | src/application_protocols/dubbo/dubbo_codec.cc:18-52 | does what the codec on values does; `decode_started_` holds exactly while a machine exists |
| Descriptors.GetParametersNumber | src/application_protocols/dubbo/hessian_utils.cc:12-57 | on the text of any list of JVM field descriptors the result is its length modulo the counter's 32 bits |
| Descriptors.CountsDescriptors | src/application_protocols/dubbo/hessian_utils.cc:12-57 | the scan adds one for each descriptor, with arrays of any depth and any class name free of `;` |
| MessageInvariant.ChainTurns | src/meta_protocol_proxy/active_message.cc:311-330 | the chain as a loop: a turn calls one filter and ends on a local reply or a stop, or goes on |
| MessageInvariant.ChainCallsInARow | src/meta_protocol_proxy/active_message.cc:311-330 | a chain calls the filters from its start one by one up to the one that ends it |
| MessageInvariant.ChainKeepsOrder | src/meta_protocol_proxy/active_message.cc:231-243 | the calls of a request stay in chain order and the filter that stopped is the one called last |
| MessageInvariant.ChainOrderAt | src/meta_protocol_proxy/active_message.cc:311-330 | what chain order means at each place: start at the first, step forward or repeat, the router last and once; when a filter repeats is said by FilterRuns.RepeatsAreResumptions |
| MessageInvariant.ChainReachesRouter | src/meta_protocol_proxy/active_message.cc:311-330 | a chain that has an upstream request or sends something has called the router, and last |
| MessageInvariant.ChainRuns | src/meta_protocol_proxy/active_message.cc:311-330 | a chain ends paused with the message untouched, waiting in the router, or past it with the payload written or dropped |
| MessageInvariant.RouterRuns | src/meta_protocol_proxy/filters/router/router_impl.cc:26-86 | the router replies once, writes the payload at once, fails with the buffer drained, or waits holding a handle and the payload |
| ChainOutcome.RouterOutcome | src/meta_protocol_proxy/filters/router/router_impl.cc:26-86 | the exact replies, writes and upstream state for each thing the router can meet |
| ChainOutcome.ChainHalts | src/meta_protocol_proxy/active_message.cc:311-330 | a chain comes to what its first filter that does not continue says, or the router behind all of them |
| ChainOutcome.DecodedOutcome | src/meta_protocol_proxy/active_message.cc:245-269 | the same for every decoded request: calls, replies, writes, who may resume and the upstream state |
| ChainOutcome.ResumedOutcome | src/meta_protocol_proxy/active_message.cc:130-148 | the same for every request whose stopped filter resumes |
| MessageSteps.DecodedIsValid | src/meta_protocol_proxy/active_message.cc:245-290 | a decoded request is valid and answered at most once; it is linked if and only if it has stopped, or is neither one-way nor answered locally |
| MessageSteps.ResumeKeeps | src/meta_protocol_proxy/active_message.cc:130-148 | a resumed request is valid and answered at most once; one that was linked stays so unless its chain gets through and it is one-way or answered locally |
| MessageSteps.ResumeCallsInARow | src/meta_protocol_proxy/active_message.cc:130-148 | a resuming filter is entered again exactly if the message is not empty, then those behind it in a row |
| MessageSteps.AnsweredResumes | src/meta_protocol_proxy/active_message.cc:130-148 | a stopped filter that has replied resumes without any filter being called, and the request is released |
| MessageSteps.LateReplyKeeps | src/meta_protocol_proxy/active_message.cc:150-153 | a stopped filter's reply is noted, written if the connection is open and the error encoded, calls no filter and releases nothing |
| MessageSteps.RouterResumes | src/meta_protocol_proxy/active_message.cc:130-148 | after the router drained the origin message its resumption calls no filter and finalizes the request |
| MessageSteps.FinalizedIsValid | src/meta_protocol_proxy/active_message.cc:271-290 | finalizing releases a linked request if and only if it is one-way or was answered locally, and happens once |
| MessageSteps.ReadyKeeps | src/meta_protocol_proxy/filters/router/router_impl.cc:267-293 | when a connection comes the chain is not re-entered, the request is finalized and stays linked unless it is one-way, and the connection is there to write to even if the message is released in between |
| MessageSteps.CompleteKeeps | src/meta_protocol_proxy/filters/router/router_impl.cc:232-238 | the write sends exactly the payload, once, and leaves the message in its place |
| MessageSteps.FailureKeeps | src/meta_protocol_proxy/filters/router/router_impl.cc:240-265 | a pool failure sends nothing upstream, releases the message and answers with exactly one local reply, or with none if the request is one-way, the connection closed or the error not encoded |
| MessageSteps.ResetIsSilent | src/meta_protocol_proxy/filters/router/router_impl.cc:214-230 | resetting drops handle and connection, and the local close it raises causes no reply and no release |
| MessageSteps.ResetIsIdempotent | src/meta_protocol_proxy/filters/router/router_impl.cc:214-230 | resetting again changes nothing |
| MessageSteps.DataKeeps | src/meta_protocol_proxy/active_message.cc:380-413 | upstream data leaves the request valid, with the exact replies for each kind of data; it is released if and only if the response is whole or malformed; the connection goes back to the pool after its own response or the end of the stream and is closed after any other; there is no reply, one local reply or its own response if and only if no foreign response was written, and two exactly if one was and the error can be encoded |
| MessageSteps.ResponseCallsNothing | src/meta_protocol_proxy/filters/router/router_impl.cc:122-157 | upstream data calls no decoder filter |
| MessageSteps.WrittenKeeps | src/meta_protocol_proxy/active_message.cc:35-81 | on an open connection the response is written first, and an error follows if its id is foreign |
| MessageSteps.StoppedKeeps | src/meta_protocol_proxy/active_message.cc:45-48 | a response stopped by an encoder filter is not written, and the message is released |
| MessageSteps.CloseKeeps | src/meta_protocol_proxy/filters/router/router_impl.cc:159-184 | a close of the upstream connection releases no linked request and answers with exactly one local reply, or with none if the request is one-way, the connection closed or the error not encoded |
| MessageSteps.DestroyKeeps | src/meta_protocol_proxy/filters/router/router_impl.cc:15-20 | deletion leaves no upstream request and changes nothing that happened |
| ConnectionLifecycle.Put | src/meta_protocol_proxy/conn_manager.cc:180-186 | releasing a linked message unlinks it and schedules its deletion, and the lists stay distinct and counted |
| ConnectionLifecycle.NewStream | src/meta_protocol_proxy/conn_manager.cc:79-86 | a new message is linked once, at the front, and counted as active |
| ConnectionLifecycle.ResetAllEnds | src/meta_protocol_proxy/conn_manager.cc:188-200 | resetting ends with an empty list, schedules all that was on it from front to back and bumps one counter by its length |
| ConnectionLifecycle.DispatchFollows | src/meta_protocol_proxy/conn_manager.cc:103-127 | a dispatch leaves older requests alone or releases them, and new ones are valid and answered at most once |
| ConnectionLifecycle.DispatchDoes | src/meta_protocol_proxy/conn_manager.cc:103-127 | a dispatch adds the decoded requests behind the old ones and changes nothing else; if it breaks, the connection is closed, every request released and each linked one counted as a local reset |
| LifecycleRuns.EventSteps | src/meta_protocol_proxy/filters/router/router_impl.cc:122-308 | what one event does to every request of the connection: valid, same payload, answers as stated, its filters run only when one of them resumes that has not replied, in a row from it, and a deleted request is not touched |
| LifecycleRuns.ConnectedSteps | src/meta_protocol_proxy/filters/router/router_impl.cc:267-283 | with a dispatch inside onPoolReady that may break the connection the payload still goes out whole |
| LifecycleRuns.DeleteAllDeletes | src/meta_protocol_proxy/active_message.cc:195-210 | exactly the scheduled messages are destroyed, each once, and the counter falls to the number linked |
| LifecycleRuns.RunIsStable | src/meta_protocol_proxy/conn_manager.cc:79-200 | over every run all requests stay valid and the lists agree with them |
| LifecycleRuns.AtMostOneReply | src/meta_protocol_proxy/active_message.cc:35-81 | over every run with faithful ids each request is answered at most once, by its own response or one local reply |
| LifecycleRuns.FreshConnectionAnswersOnce | src/meta_protocol_proxy/active_message.cc:35-81 | the same for every run of a fresh connection |
| LifecycleRuns.TwoRepliesExactly | src/meta_protocol_proxy/active_message.cc:380-413 | over every run a request is answered twice if and only if some step brings it a foreign response on an open connection and the error can be encoded |
| LifecycleRuns.AnsweredTwice | src/meta_protocol_proxy/active_message.cc:386-390 | a run of two events in which a request gets a foreign response and an error |
| LifecycleRuns.NoFilterAfterLocalReply | src/meta_protocol_proxy/active_message.cc:311-330 | over every run no filter of a request is called after a local reply to it |
| LifecycleRuns.RunGuarantees | src/meta_protocol_proxy/active_message.cc:245-290 | over every run from a fresh connection: payload sent at most once and unchanged, and nothing goes upstream before the router is called, the last of the chain; filters in order, finalized exactly once if the chain has completed and otherwise never, deleted or not, never handle and connection together, scheduled for deletion at most once, active counter equal to linked plus deferred |
| ReleaseRuns.StepReleases | src/meta_protocol_proxy/active_message.cc:271-290 | after each event a request is linked if and only if it was, or is new, and the event did not break or close the connection, reset its stream, bring it a whole or malformed response, or get its chain through when it was one-way or answered locally |
| ReleaseRuns.LinkedExactly | src/meta_protocol_proxy/conn_manager.cc:180-200 | the same over every run |
| ReleaseRuns.ScheduledExactly | src/meta_protocol_proxy/conn_manager.cc:180-186 | over every run of a fresh connection a request has been scheduled for deletion if and only if some step was one of these |
| ReleaseRuns.AwaitedStaysLinked | src/meta_protocol_proxy/active_message.cc:287-289 | over every run a two-way request that is not reset or answered, on a connection that stays whole, stays linked |
| FilterRuns.RepeatsAreResumptions | src/meta_protocol_proxy/active_message.cc:130-148 | over every run each filter of each request is entered again exactly as often as it resumes with the origin message undrained and no local reply sent |
| FilterRuns.NoResumptionNoRepeat | src/meta_protocol_proxy/active_message.cc:130-148 | without such a resumption the filters of a request have run in a row from the first, each once |
| FilterRuns.EmptyRunsInARow | src/meta_protocol_proxy/active_message.cc:133-137 | the filters of an empty message are never entered again, however often they stop and resume |
| NestedDispatch.NestedBatchIsQuiet | src/meta_protocol_proxy/conn_manager.cc:167-170 | after any chunks that have not broken the connection, the dispatch inside a resumption decodes no message and throws nothing |
| NestedDispatch.NestedDispatchIsQuiet | src/meta_protocol_proxy/conn_manager.cc:167-170 | such a dispatch leaves every request of the connection where it is |
| FilterChain.DestroysEachOnce | src/meta_protocol_proxy/active_message.cc:195-210 | for any registrations the two lists destroy each filter as often as it was registered, a dual one not twice |
| Destruction.DeletedStays | src/meta_protocol_proxy/active_message.cc:195-210 | over every run a deleted request is never touched again |
| Destruction.EachFilterIsDestroyedOnce | src/meta_protocol_proxy/active_message.cc:195-210 | over every run the filters of a request get one onDestroy each if it is deleted in the run, and none if it is not |
| FilterChain.Filters.AddDecoderFilter | src/meta_protocol_proxy/active_message.cc:435-437 | registers a filter on the decoding side |
| FilterChain.Filters.AddEncoderFilter | src/meta_protocol_proxy/active_message.cc:439-441 | registers a filter on the encoding side |
| FilterChain.Filters.AddFilter | src/meta_protocol_proxy/active_message.cc:443-446 | registers a dual filter on both sides |
| FilterChain.Filters.OnDestroyAll | src/meta_protocol_proxy/active_message.cc:198-209 | the loops of the destructor call onDestroy once for each registered filter |
| LifecycleObjects.ConnectionManager.DeferredMessage | src/meta_protocol_proxy/conn_manager.cc:180-186 | unlinks a linked message and schedules it; does nothing to one already released |
| LifecycleObjects.ConnectionManager.NewStream | src/meta_protocol_proxy/conn_manager.cc:79-86 | links a new message at the front |
| LifecycleObjects.ConnectionManager.ResetAllMessages | src/meta_protocol_proxy/conn_manager.cc:188-200 | the loop ends with an empty list, all of it scheduled in order, one counter up by its length |
| LifecycleObjects.ConnectionManager.OnEvent | src/meta_protocol_proxy/conn_manager.cc:65-67 | a close event resets all messages |
| LifecycleObjects.ConnectionManager.Dispatch | src/meta_protocol_proxy/conn_manager.cc:103-127 | decodes a batch into messages as the model says, and releases all of them, old and new, if it breaks |
| LifecycleObjects.ConnectionManager.DeleteFirst | src/meta_protocol_proxy/active_message.cc:195-210 | the deletion of a scheduled message destroys it, leaves its upstream request without handle and connection, and lowers the counter |
| LifecycleObjects.ActiveMessage.SendLocalReply | src/meta_protocol_proxy/active_message.cc:354-365 | notes the reply even when the connection is closed or the encoding throws, and writes it otherwise |
| LifecycleObjects.ActiveMessage.FinalizeRequest | src/meta_protocol_proxy/active_message.cc:271-290 | counts the finalization, and leaves the message on the list of active messages exactly if it was there and is neither one-way nor answered locally |
| LifecycleObjects.ActiveMessage.ApplyDecoderFilters | src/meta_protocol_proxy/active_message.cc:311-330 | the loop over the chain does what the chain on values does, and the filter action is set when it runs |
| LifecycleObjects.ActiveMessage.OnStreamDecoded | src/meta_protocol_proxy/active_message.cc:245-269 | as on values |
| LifecycleObjects.ActiveMessage.ContinueDecoding | src/meta_protocol_proxy/active_message.cc:130-148 | as on values; if the chain gets through the connection dispatches, makes a message of each arrival and is closed if the batch breaks |
| LifecycleObjects.ActiveMessage.UpstreamData | src/meta_protocol_proxy/active_message.cc:380-413 | the response is decoded, filtered, written and only then compared, with each exception turned into its status |
| LifecycleObjects.ActiveMessage.OnError | src/meta_protocol_proxy/active_message.cc:465-478 | a local reply and a release |
| LifecycleObjects.Router.OnMessageDecoded | src/meta_protocol_proxy/filters/router/router_impl.cc:26-86 | drains the origin message into the upstream buffer and starts the request, or replies |
| LifecycleObjects.Router.OnUpstreamData | src/meta_protocol_proxy/filters/router/router_impl.cc:122-157 | starts the response decoder once and acts on its status |
| LifecycleObjects.Router.OnEvent | src/meta_protocol_proxy/filters/router/router_impl.cc:159-184 | ignores events after the response or of its own reset, and fails the stream on any other |
| LifecycleObjects.Router.OnDestroy | src/meta_protocol_proxy/filters/router/router_impl.cc:15-20 | resets the upstream request, so that it holds neither handle nor connection, and drops it |
| LifecycleObjects.UpstreamRequest.Start | src/meta_protocol_proxy/filters/router/router_impl.cc:203-212 | waits with a handle, or returns Continue when the pool has called back already |
| LifecycleObjects.UpstreamRequest.ResetStream | src/meta_protocol_proxy/filters/router/router_impl.cc:214-230 | cancels the handle or closes the connection, whose event reaches the router in the middle, and is left with neither |
| LifecycleObjects.UpstreamRequest.EncodeData | src/meta_protocol_proxy/filters/router/router_impl.cc:232-238 | writes the whole upstream buffer, and is only called with a connection and no handle |
| LifecycleObjects.UpstreamRequest.OnPoolReady | src/meta_protocol_proxy/filters/router/router_impl.cc:267-293 | called at once or for a request that waited; the nested dispatch may break the connection, and the write still finds its connection |
| LifecycleObjects.UpstreamRequest.OnPoolFailure | src/meta_protocol_proxy/filters/router/router_impl.cc:240-265 | fails the stream, drains the buffer and resumes the chain unless the pool called back at once |
| LifecycleObjects.UpstreamRequest.OnResetStream | src/meta_protocol_proxy/filters/router/router_impl.cc:308-364 | releases a one-way request and answers any other with one local reply |
| EndToEnd.DispatchRequests | src/meta_protocol_proxy/conn_manager.cc:103-127 | a dispatch adds the requests of its decoded streams in order and keeps those there were, even if it breaks |
| EndToEnd.QuietStepKeepsRequests | src/meta_protocol_proxy/conn_manager.cc:167-170 | no event but a dispatch that decodes something adds or alters a request |
| EndToEnd.PlayedJoins | src/meta_protocol_proxy/conn_manager.cc:25-28 | for any codec, chunks and events in any order: the framing is that of the chunks alone, the requests are the streams it decodes, in order, and once it breaks the connection is closed with no request linked |
| EndToEnd.StretchAt | src/meta_protocol_proxy/conn_manager.cc:79-86 | the octets of the decoded streams lie one behind the other, heartbeats between them, each where its start says |
| EndToEnd.RequestsAreStretches | src/meta_protocol_proxy/conn_manager.cc:25-127 | over every run of a new connection each request has its own stretch of the received octets as payload, in front of that of the next, and sends upstream that stretch, once, or nothing |
| ProtocolRuns.DubboRequestsAreStretches | src/application_protocols/dubbo/dubbo_codec.cc:18-42 | the same for the Dubbo codec |
| ProtocolRuns.DubboRequestsAreMessages | src/application_protocols/dubbo/dubbo_codec.cc:18-42 | Dubbo messages that keep to the rules, in any chunks and with any events in between: those that are no heartbeats are the requests in order, one-way if and only if a call is not two-way, with their ids modulo 2^64 and their octets |
| ProtocolRuns.DubboBadMessageShutsDown | src/meta_protocol_proxy/conn_manager.cc:115-127 | a bad message behind them closes the connection and leaves no request linked |
| ProtocolRuns.ThriftRequestsAreMessages | src/application_protocols/thrift/thrift_codec.cc:18-96 | Thrift messages sent one behind the other, in any chunks and with any events in between, are the requests in order, one-way if and only if their header says so, with their ids modulo 2^64, and each goes upstream in its frame as it came, once, or not at all |
| ProtocolRuns.ThriftBadFrameShutsDown | src/meta_protocol_proxy/conn_manager.cc:115-127 | a bad frame behind them closes the connection and leaves no request linked |

## Left out

- Envoy itself: sockets, the event dispatcher, connection pools, cluster manager, histograms, most counters, registries and configuration are events, parameters or absent.
- Thrift passthrough mode: `passthrough_enabled_` is never set.
- The Compact, Auto and Twitter protocols and the Header transport of Thrift: they are not in the repository. What `decodeFrameStart` refuses for other reasons than its length is one verdict, and the binary protocol here is the strict one.
- The scalar cases of `handleValue` are one case, indexed by the kind of scalar; doubles are eight opaque octets.
- The stack of frames is proved on the vector it is held in; its abstraction is an inductive list.
- EndToEnd.RequestsAreStretches: does not cover Thrift, whose origin message is the input read and written anew; where the input is messages in their frames, ProtocolRuns.ThriftRequestsAreMessages does.
- Error replies of Thrift: only their being encoded or not matters to the life of a request.
- The Hessian2 library: its readers are functions whose value depends on its own octets only, and its writer is any that they undo. A null result leaves the offset of the model's decoder in place, which the code never looks at.
- Lazily decoded parameters and attachments of Dubbo, timeouts, `is_two_way_`, and the header maps of metadata.
- `DubboProtocolImpl::encode` is modelled on values; its assertions on empty or missing content are not.
- Codec objects inside the pipeline are kept as their state between calls; that the objects behave so is proved in ThriftCodecObject and DubboCodecObject.
- `stopped_` and `half_closed_` of ConnectionManager are never set to true, so the branches they guard are not part of the model; a half-close is an ordinary close.
- Filters before the router are known by their verdicts. A filter that returns anything but Continue or StopIteration, drains the origin message itself or resets the downstream connection is not modelled; of the encoder filters only whether one stops is.
- A dual filter that sends a local reply or resets the stream while encoding: the reply would break off the encoder chain with Continue (active_message.cc:339-341) and the response would be written behind it. No filter of the repository does so, and it is not an event of the model.
- The Retry status: `onStreamDecoded` overwrites it with Complete.
- Local replies with `end_stream` set, which no caller in the repository sends.
- That every request is released in the end: `filter_complete_` is never set, so after a close of the upstream connection an answered request stays linked until the downstream closes.
- Weighted clusters, header matching and outlier detection.
