/** The Thrift codec inside the framing pipeline: streams of messages in any chunks. */
module ThriftStreams {
  import opened Bytes
  import opened CodecInterface
  import opened StreamSplitting
  import opened ThriftProtocol
  import opened ThriftTree
  import opened ThriftCodec

  /** What a connection that speaks Thrift has delivered after these chunks. */
  function Delivered(p: Protocol, t: Transport, chunks: seq<Octets>): Dispatched<CodecState>
    requires Lawful(p) && LawfulTransport(t)
  {
    ThriftIsResumable(p, t);
    ReceiveAll(Thrift(p, t), Opened(Thrift(p, t)), chunks)
  }

  predicate CanSend(p: Protocol, t: Transport, m: Message) {
    SendableMessage(p, m) && t.encodeFrame(EncodeMessage(p, m)).Wrapped?
  }

  predicate CanSendAll(p: Protocol, t: Transport, messages: seq<Message>) {
    forall i :: 0 <= i < |messages| ==> CanSend(p, t, messages[i])
  }

  /** A message in its frame. */
  function WireOf(p: Protocol, t: Transport, m: Message): Octets
    requires CanSend(p, t, m)
  {
    var w := t.encodeFrame(EncodeMessage(p, m));
    w.head + EncodeMessage(p, m) + w.tail
  }

  function SentAs(p: Protocol, t: Transport, m: Message): Sent
    requires CanSend(p, t, m)
  {
    Sent(WireOf(p, t, m), ToMetadata(m.header, WireOf(p, t, m)))
  }

  function SentAll(p: Protocol, t: Transport, messages: seq<Message>): seq<Sent>
    requires CanSendAll(p, t, messages)
  {
    seq(|messages|, i requires 0 <= i < |messages| => SentAs(p, t, messages[i]))
  }

  function Stream(p: Protocol, t: Transport, messages: seq<Message>): Octets
    requires CanSendAll(p, t, messages)
  {
    StreamSplitting.WireOf(SentAll(p, t, messages))
  }

  lemma MessageLands(p: Protocol, t: Transport, m: Message)
    requires Lawful(p) && LawfulTransport(t) && CanSend(p, t, m)
    ensures Lands(Thrift(p, t), SentAs(p, t, m))
    ensures Describes(SentAs(p, t, m).metadata, m.header, WireOf(p, t, m))
  {
    var x := SentAs(p, t, m);
    forall s
      ensures Thrift(p, t).decode(IDLE, x.wire + s) == Complete(IDLE, s, x.metadata)
    {
      DeliversWhatWasSent(p, t, m, s);
    }
    DecodeProgresses(p, t, IDLE, x.wire + []);
    assert x.wire + [] == x.wire && Thrift(p, t).decode(IDLE, x.wire + []).Complete?;
    MetadataDescribes(m.header, x.wire);
  }

  lemma MessagesLand(p: Protocol, t: Transport, messages: seq<Message>)
    requires Lawful(p) && LawfulTransport(t) && CanSendAll(p, t, messages)
    ensures AllLand(Thrift(p, t), SentAll(p, t, messages))
    ensures AllDescribe(p, t, messages, DueCalls(SentAll(p, t, messages)))
  {
    forall i | 0 <= i < |messages|
      ensures Lands(Thrift(p, t), SentAs(p, t, messages[i]))
      ensures Describes(SentAs(p, t, messages[i]).metadata, messages[i].header, WireOf(p, t, messages[i]))
    {
      MessageLands(p, t, messages[i]);
    }
  }

  /** One stream for each message, with its kind, its id and its own octets. */
  predicate AllDescribe(p: Protocol, t: Transport, messages: seq<Message>, calls: seq<Callback>)
    requires CanSendAll(p, t, messages)
  {
    && |calls| == |messages|
    && forall i :: 0 <= i < |messages| ==>
      calls[i].OnStreamDecoded? && Describes(calls[i].m, messages[i].header, WireOf(p, t, messages[i]))
  }

  /** Any messages, sent one behind the other and received in any chunks, come out one by one and in
      order, each with its kind, its id and its own octets, and leave nothing behind. */
  lemma DeliversEveryMessage(p: Protocol, t: Transport, messages: seq<Message>, chunks: seq<Octets>)
    requires Lawful(p) && LawfulTransport(t) && CanSendAll(p, t, messages)
    requires Join(chunks) == Stream(p, t, messages)
    ensures
      var d := Delivered(p, t, chunks);
      d == Parked(IDLE, [], d.calls) && AllDescribe(p, t, messages, d.calls)
  {
    ThriftIsResumable(p, t);
    MessagesLand(p, t, messages);
    WholeStreamLands(Thrift(p, t), SentAll(p, t, messages), chunks);
  }

  /** A frame that does not open, or one that holds no message. */
  predicate IsBad(p: Protocol, t: Transport, b: Octets)
    requires Lawful(p) && LawfulTransport(t)
  {
    var start := t.frameStart(b);
    start.Refused? || (start.Framed? && ParseMessage(p, b[start.used..]).Wrong?)
  }

  /** Behind any messages it breaks the connection: they are delivered, and nothing after them. */
  lemma BadFrameBreaks(p: Protocol, t: Transport, messages: seq<Message>, bad: Octets, chunks: seq<Octets>)
    requires Lawful(p) && LawfulTransport(t) && CanSendAll(p, t, messages) && bad != [] && IsBad(p, t, bad)
    requires Join(chunks) == Stream(p, t, messages) + bad
    ensures
      var d := Delivered(p, t, chunks);
      d.Broken? && AllDescribe(p, t, messages, d.calls)
  {
    ThriftIsResumable(p, t);
    MessagesLand(p, t, messages);
    DecodeRefinesParser(p, t, bad);
    RejectedBreaks(Thrift(p, t), SentAll(p, t, messages), bad, chunks);
  }

  /** The callbacks depend on the stream, well formed or not, and not on how it was chunked. */
  lemma ThriftChunkingIsInvisible(p: Protocol, t: Transport, one: seq<Octets>, other: seq<Octets>)
    requires Lawful(p) && LawfulTransport(t) && Join(one) == Join(other)
    ensures Delivered(p, t, one) == Delivered(p, t, other)
  {
    ThriftIsResumable(p, t);
    SameStreamSameCallbacks(Thrift(p, t), one, other);
  }
}
