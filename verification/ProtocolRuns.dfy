/** From the wire to the requests of a connection, for the two protocols of the repository: which
    requests a connection has after any run, and what becomes of them when the stream breaks. */
module ProtocolRuns {
  import opened Bytes
  import Codecs = CodecInterface
  import Framing = StreamSplitting
  import opened MessageLifecycle
  import opened ConnectionEvents
  import opened ConnectionLifecycle
  import opened ReleaseRuns
  import opened NestedDispatch
  import opened EndToEnd
  import DubboProtocol
  import DubboCodec
  import DubboMessages
  import DubboStreams
  import ThriftProtocol
  import ThriftTree
  import ThriftCodec
  import ThriftStreams

  // Any protocol.

  /** The connection is closed, and no request of it is linked any more. */
  predicate ShutDown(c: Connection) {
    !c.open && forall i :: 0 <= i < |c.messages| ==> c.messages[i].place != Linked
  }

  lemma BrokenIsShutDown<S(!new)>(c: Codecs.Codec<S>, chain: Chain, y: Proxy<S>)
    requires Codecs.Resumable(c) && Joined(c, chain, y) && y.framing.Broken?
    ensures ShutDown(y.conn)
  {
    forall i | 0 <= i < |y.conn.messages|
      ensures y.conn.messages[i].place != Linked
    {
      assert i in y.conn.active <==> IsAt(y.conn, i, Linked);
    }
  }

  lemma EachSendsItsPayload<S(!new)>(c: Codecs.Codec<S>, chain: Chain, y: Proxy<S>)
    requires Codecs.Resumable(c) && Joined(c, chain, y)
    ensures |y.conn.messages| == |RequestsIn(y.conn)|
    ensures forall i :: 0 <= i < |y.conn.messages| ==>
      SentOnce(y.conn.messages[i]) && RequestsIn(y.conn)[i] == y.conn.messages[i].request
  {
    forall i | 0 <= i < |y.conn.messages|
      ensures SentOnce(y.conn.messages[i])
    {
      SendsItsPayload(y.conn, i);
    }
  }

  // Dubbo.

  /** The runs of a new connection that speaks Dubbo, and what they lead to. */
  ghost predicate PossibleInDubbo(h: DubboProtocol.Hessian, chain: Chain, inputs: seq<Input>)
    requires DubboProtocol.LawfulHessian(h)
  {
    DubboCodec.DubboIsResumable(h);
    Possible(DubboCodec.Dubbo(h), chain, inputs)
  }

  function DubboOutcome(h: DubboProtocol.Hessian, chain: Chain, inputs: seq<Input>): Proxy<DubboCodec.CodecState>
    requires DubboProtocol.LawfulHessian(h) && PossibleInDubbo(h, chain, inputs)
  {
    DubboCodec.DubboIsResumable(h);
    Outcome(DubboCodec.Dubbo(h), chain, inputs)
  }

  /** The Dubbo codec conserves its octets, and so its requests are stretches of the stream. */
  lemma DubboRequestsAreStretches(h: DubboProtocol.Hessian, chain: Chain, inputs: seq<Input>)
    requires DubboProtocol.LawfulHessian(h) && PossibleInDubbo(h, chain, inputs)
    ensures
      var y := DubboOutcome(h, chain, inputs);
      && y.framing == DubboCodec.Delivered(h, ChunksOf(inputs))
      && RequestsIn(y.conn) == RequestsOf(ArrivalsOf(y.framing.calls, chain))
      && |y.conn.messages| == |ArrivalsOf(y.framing.calls, chain)|
      && forall i :: 0 <= i < |y.conn.messages| ==> IsStretch(y, chain, Join(ChunksOf(inputs)), i)
  {
    DubboCodec.DubboIsResumable(h);
    DubboCodec.DubboIsConserving(h);
    RequestsAreStretches(DubboCodec.Dubbo(h), DubboCodec.Held, chain, inputs);
  }

  /** All but the events. */
  function Streams(messages: seq<DubboMessages.Message>): seq<DubboMessages.Message> {
    if messages == [] then []
    else (if messages[0].Event? then [] else [messages[0]]) + Streams(messages[1..])
  }

  /** The request that a message makes: one-way if it is a call that is not two-way, with its id and
      its own octets. */
  predicate MadeOfDubbo(r: Request, w: DubboMessages.Writer, x: DubboMessages.Message, chain: Chain) {
    && (r.oneway <==> x.Invoke? && !x.twoWay)
    && r.id == x.requestId % 0x1_0000_0000_0000_0000
    && r.payload == DubboMessages.WireOf(w, x) && r.filters == chain.filters
  }

  lemma {:induction false} StreamsArrive(
      w: DubboMessages.Writer, messages: seq<DubboMessages.Message>, calls: seq<Framing.Callback>, chain: Chain)
    requires DubboStreams.AllMeant(w, messages, calls)
    ensures AllMadeOfDubbo(RequestsOf(ArrivalsOf(calls, chain)), w, Streams(messages), chain)
    decreases |messages|
  {
    if messages != [] {
      StreamsArrive(w, messages[1..], calls[1..], chain);
      var arrivals, later := ArrivalsOf(calls, chain), ArrivalsOf(calls[1..], chain);
      if messages[0].Event? {
        assert arrivals == later && Streams(messages) == Streams(messages[1..]);
      } else {
        MeantIsMade(w, messages[0], chain);
        OneMoreStream(w, messages[0], Streams(messages[1..]), ArrivalOf(calls[0].m, chain), later, chain);
      }
    }
  }

  lemma MeantIsMade(w: DubboMessages.Writer, x: DubboMessages.Message, chain: Chain)
    requires !x.Event?
    ensures MadeOfDubbo(ArrivalOf(DubboMessages.Meant(w, x), chain).request, w, x, chain)
  {
  }

  predicate AllMadeOfDubbo(
      requests: seq<Request>, w: DubboMessages.Writer, streams: seq<DubboMessages.Message>, chain: Chain)
  {
    && |requests| == |streams|
    && forall i :: 0 <= i < |streams| ==> MadeOfDubbo(requests[i], w, streams[i], chain)
  }

  lemma OneMoreStream(
      w: DubboMessages.Writer, x: DubboMessages.Message, streams: seq<DubboMessages.Message>, a: Arrival,
      later: seq<Arrival>, chain: Chain)
    requires MadeOfDubbo(a.request, w, x, chain) && AllMadeOfDubbo(RequestsOf(later), w, streams, chain)
    ensures AllMadeOfDubbo(RequestsOf([a] + later), w, [x] + streams, chain)
  {
    assert ([a] + later)[1..] == later;
  }

  /** The requests of a connection are these messages without the events, and each sends its octets
      upstream once, or nothing. */
  predicate HasDubbo(c: Connection, w: DubboMessages.Writer, messages: seq<DubboMessages.Message>, chain: Chain) {
    var streams := Streams(messages);
    && |c.messages| == |streams|
    && forall i :: 0 <= i < |streams| ==>
      MadeOfDubbo(c.messages[i].request, w, streams[i], chain) && SentOnce(c.messages[i])
  }

  lemma DubboJoined(h: DubboProtocol.Hessian, chain: Chain, inputs: seq<Input>)
    requires DubboProtocol.LawfulHessian(h) && PossibleInDubbo(h, chain, inputs)
    ensures Codecs.Resumable(DubboCodec.Dubbo(h))
    ensures
      var y := DubboOutcome(h, chain, inputs);
      && Joined(DubboCodec.Dubbo(h), chain, y) && y.framing == DubboCodec.Delivered(h, ChunksOf(inputs))
      && (y.framing.Broken? ==> ShutDown(y.conn))
  {
    var codec := DubboCodec.Dubbo(h);
    DubboCodec.DubboIsResumable(h);
    StartedJoins(codec, chain);
    PlayedJoins(codec, chain, Started(codec), inputs);
    var y := DubboOutcome(h, chain, inputs);
    if y.framing.Broken? {
      BrokenIsShutDown(codec, chain, y);
    }
  }

  lemma DubboHas(
      h: DubboProtocol.Hessian, w: DubboMessages.Writer, chain: Chain, y: Proxy<DubboCodec.CodecState>,
      messages: seq<DubboMessages.Message>)
    requires DubboProtocol.LawfulHessian(h) && DubboStreams.AllMeant(w, messages, y.framing.calls)
    requires Codecs.Resumable(DubboCodec.Dubbo(h)) && Joined(DubboCodec.Dubbo(h), chain, y)
    ensures HasDubbo(y.conn, w, messages, chain)
  {
    StreamsArrive(w, messages, y.framing.calls, chain);
    EachSendsItsPayload(DubboCodec.Dubbo(h), chain, y);
  }

  /** Dubbo messages that keep to the rules, sent one behind the other, in any chunks and with any
      events in between: those that are no events are the requests of the connection, in order, with
      their kinds, ids and octets; a heartbeat adds none. */
  lemma DubboRequestsAreMessages(
      h: DubboProtocol.Hessian, w: DubboMessages.Writer, chain: Chain, inputs: seq<Input>,
      messages: seq<DubboMessages.Message>)
    requires DubboProtocol.LawfulHessian(h) && DubboMessages.Undoes(h, w) && PossibleInDubbo(h, chain, inputs)
    requires DubboStreams.AllKeepRules(w, messages) && Join(ChunksOf(inputs)) == DubboStreams.Stream(w, messages)
    ensures HasDubbo(DubboOutcome(h, chain, inputs).conn, w, messages, chain)
  {
    DubboJoined(h, chain, inputs);
    DubboStreams.DeliversEveryMessage(h, w, messages, ChunksOf(inputs));
    DubboHas(h, w, chain, DubboOutcome(h, chain, inputs), messages);
  }

  /** With a bad message behind them they are still the requests; but the connection is closed, and
      every one of them is released. */
  lemma DubboBadMessageShutsDown(
      h: DubboProtocol.Hessian, w: DubboMessages.Writer, chain: Chain, inputs: seq<Input>,
      messages: seq<DubboMessages.Message>, bad: Octets)
    requires DubboProtocol.LawfulHessian(h) && DubboMessages.Undoes(h, w) && PossibleInDubbo(h, chain, inputs)
    requires DubboStreams.AllKeepRules(w, messages) && DubboStreams.IsBad(w, bad)
    requires Join(ChunksOf(inputs)) == DubboStreams.Stream(w, messages) + bad
    ensures
      var c := DubboOutcome(h, chain, inputs).conn;
      HasDubbo(c, w, messages, chain) && ShutDown(c)
  {
    DubboJoined(h, chain, inputs);
    DubboStreams.BadMessageBreaks(h, w, messages, bad, ChunksOf(inputs));
    DubboHas(h, w, chain, DubboOutcome(h, chain, inputs), messages);
  }

  // Thrift.

  ghost predicate PossibleInThrift(
      p: ThriftProtocol.Protocol, t: ThriftCodec.Transport, chain: Chain, inputs: seq<Input>)
    requires ThriftProtocol.Lawful(p) && ThriftCodec.LawfulTransport(t)
  {
    ThriftCodec.ThriftIsResumable(p, t);
    Possible(ThriftCodec.Thrift(p, t), chain, inputs)
  }

  function ThriftOutcome(
      p: ThriftProtocol.Protocol, t: ThriftCodec.Transport, chain: Chain, inputs: seq<Input>)
      : Proxy<ThriftCodec.CodecState>
    requires ThriftProtocol.Lawful(p) && ThriftCodec.LawfulTransport(t) && PossibleInThrift(p, t, chain, inputs)
  {
    ThriftCodec.ThriftIsResumable(p, t);
    Outcome(ThriftCodec.Thrift(p, t), chain, inputs)
  }

  /** The request that a message makes: one-way if its header says so, with its id and its octets in
      their frame. */
  predicate MadeOfThrift(r: Request, m: ThriftTree.Message, wire: Octets, chain: Chain) {
    && (r.oneway <==> m.header.kind.Oneway?)
    && r.id == m.header.sequenceId % 0x1_0000_0000_0000_0000
    && r.payload == wire && r.filters == chain.filters
  }

  lemma {:induction false} CallsArrive(calls: seq<Framing.Callback>, chain: Chain)
    requires forall i :: 0 <= i < |calls| ==> calls[i].OnStreamDecoded?
    ensures
      var requests := RequestsOf(ArrivalsOf(calls, chain));
      && |requests| == |calls|
      && forall i :: 0 <= i < |calls| ==> requests[i] == ArrivalOf(calls[i].m, chain).request
    decreases |calls|
  {
    if calls != [] {
      CallsArrive(calls[1..], chain);
      assert ArrivalsOf(calls, chain) == [ArrivalOf(calls[0].m, chain)] + ArrivalsOf(calls[1..], chain);
    }
  }

  /** The requests of a connection are these messages, and each sends its octets upstream once, or
      nothing. */
  predicate HasThrift(
      c: Connection, p: ThriftProtocol.Protocol, t: ThriftCodec.Transport, messages: seq<ThriftTree.Message>,
      chain: Chain)
    requires ThriftStreams.CanSendAll(p, t, messages)
  {
    && |c.messages| == |messages|
    && forall i :: 0 <= i < |messages| ==>
      && MadeOfThrift(c.messages[i].request, messages[i], ThriftStreams.WireOf(p, t, messages[i]), chain)
      && SentOnce(c.messages[i])
  }

  lemma ThriftJoined(p: ThriftProtocol.Protocol, t: ThriftCodec.Transport, chain: Chain, inputs: seq<Input>)
    requires ThriftProtocol.Lawful(p) && ThriftCodec.LawfulTransport(t) && PossibleInThrift(p, t, chain, inputs)
    ensures Codecs.Resumable(ThriftCodec.Thrift(p, t))
    ensures
      var y := ThriftOutcome(p, t, chain, inputs);
      && Joined(ThriftCodec.Thrift(p, t), chain, y) && y.framing == ThriftStreams.Delivered(p, t, ChunksOf(inputs))
      && (y.framing.Broken? ==> ShutDown(y.conn))
  {
    var codec := ThriftCodec.Thrift(p, t);
    ThriftCodec.ThriftIsResumable(p, t);
    StartedJoins(codec, chain);
    PlayedJoins(codec, chain, Started(codec), inputs);
    var y := ThriftOutcome(p, t, chain, inputs);
    if y.framing.Broken? {
      BrokenIsShutDown(codec, chain, y);
    }
  }

  lemma ThriftHas(
      p: ThriftProtocol.Protocol, t: ThriftCodec.Transport, chain: Chain, y: Proxy<ThriftCodec.CodecState>,
      messages: seq<ThriftTree.Message>)
    requires ThriftProtocol.Lawful(p) && ThriftCodec.LawfulTransport(t) && ThriftStreams.CanSendAll(p, t, messages)
    requires Codecs.Resumable(ThriftCodec.Thrift(p, t)) && Joined(ThriftCodec.Thrift(p, t), chain, y)
    requires ThriftStreams.AllDescribe(p, t, messages, y.framing.calls)
    ensures HasThrift(y.conn, p, t, messages, chain)
  {
    CallsArrive(y.framing.calls, chain);
    EachSendsItsPayload(ThriftCodec.Thrift(p, t), chain, y);
  }

  /** Thrift messages sent one behind the other, in any chunks and with any events in between, are
      the requests of the connection, in order, with their kinds, ids and octets. */
  lemma ThriftRequestsAreMessages(
      p: ThriftProtocol.Protocol, t: ThriftCodec.Transport, chain: Chain, inputs: seq<Input>,
      messages: seq<ThriftTree.Message>)
    requires ThriftProtocol.Lawful(p) && ThriftCodec.LawfulTransport(t) && PossibleInThrift(p, t, chain, inputs)
    requires ThriftStreams.CanSendAll(p, t, messages)
    requires Join(ChunksOf(inputs)) == ThriftStreams.Stream(p, t, messages)
    ensures HasThrift(ThriftOutcome(p, t, chain, inputs).conn, p, t, messages, chain)
  {
    ThriftJoined(p, t, chain, inputs);
    ThriftStreams.DeliversEveryMessage(p, t, messages, ChunksOf(inputs));
    ThriftHas(p, t, chain, ThriftOutcome(p, t, chain, inputs), messages);
  }

  /** With a bad frame behind them they are still the requests; but the connection is closed, and
      every one of them is released. */
  lemma ThriftBadFrameShutsDown(
      p: ThriftProtocol.Protocol, t: ThriftCodec.Transport, chain: Chain, inputs: seq<Input>,
      messages: seq<ThriftTree.Message>, bad: Octets)
    requires ThriftProtocol.Lawful(p) && ThriftCodec.LawfulTransport(t) && PossibleInThrift(p, t, chain, inputs)
    requires ThriftStreams.CanSendAll(p, t, messages) && bad != [] && ThriftStreams.IsBad(p, t, bad)
    requires Join(ChunksOf(inputs)) == ThriftStreams.Stream(p, t, messages) + bad
    ensures
      var c := ThriftOutcome(p, t, chain, inputs).conn;
      HasThrift(c, p, t, messages, chain) && ShutDown(c)
  {
    ThriftJoined(p, t, chain, inputs);
    ThriftStreams.BadFrameBreaks(p, t, messages, bad, ChunksOf(inputs));
    ThriftHas(p, t, chain, ThriftOutcome(p, t, chain, inputs), messages);
  }
}
