/** The incremental framing pipeline, `dispatch` over `DecoderBase::onData` over a codec, on values:
    what one dispatch delivers, and that chunking does not matter. */
module StreamSplitting {
  import opened Bytes
  import opened CodecInterface

  /** The callbacks the decoder makes. */
  datatype Callback = OnHeartbeat(m: Metadata) | OnStreamDecoded(m: Metadata)

  function CallbackFor(m: Metadata): Callback {
    if m.kind == Heartbeat then OnHeartbeat(m) else OnStreamDecoded(m)
  }

  /** A dispatch leaves the codec in `state` with `rest` buffered, or closes the connection. */
  datatype Dispatched<S> =
    | Parked(state: S, rest: Octets, calls: seq<Callback>)
    | Broken(calls: seq<Callback>)

  function Preceded<S>(calls: seq<Callback>, d: Dispatched<S>): Dispatched<S> {
    match d
    case Parked(s, rest, more) => Parked(s, rest, calls + more)
    case Broken(more) => Broken(calls + more)
  }

  /** The loop `while (!underflow)`: it stops when the codec waits or nothing is left. */
  function Drain<S(!new)>(c: Codec<S>, s: S, b: Octets): Dispatched<S>
    requires Resumable(c)
    decreases 2 * |b| + if s == c.idle then 0 else 1
  {
    assert ProgressesAt(c, s, b);
    match c.decode(s, b)
    case Rejected => Broken([])
    case NeedsMore(s1, rest) => Parked(s1, rest, [])
    case Complete(s1, rest, m) =>
      if rest == [] then Parked(s1, rest, [CallbackFor(m)])
      else Preceded([CallbackFor(m)], Drain(c, s1, rest))
  }

  /** `dispatch`: nothing happens on an empty buffer. */
  function Dispatch<S(!new)>(c: Codec<S>, s: S, b: Octets): Dispatched<S>
    requires Resumable(c)
  {
    if b == [] then Parked(s, b, []) else Drain(c, s, b)
  }

  /** `onData`: a chunk joins the buffer and is dispatched; a closed connection gets no more data. */
  function Receive<S(!new)>(c: Codec<S>, d: Dispatched<S>, chunk: Octets): Dispatched<S>
    requires Resumable(c)
  {
    match d
    case Broken(_) => d
    case Parked(s, rest, calls) => Preceded(calls, Dispatch(c, s, rest + chunk))
  }

  function ReceiveAll<S(!new)>(c: Codec<S>, d: Dispatched<S>, chunks: seq<Octets>): Dispatched<S>
    requires Resumable(c)
    decreases |chunks|
  {
    if chunks == [] then d else ReceiveAll(c, Receive(c, d, chunks[0]), chunks[1..])
  }

  function Opened<S>(c: Codec<S>): Dispatched<S> {
    Parked(c.idle, [], [])
  }

  lemma PrecededTwice<S>(a: seq<Callback>, b: seq<Callback>, d: Dispatched<S>)
    ensures Preceded(a, Preceded(b, d)) == Preceded(a + b, d)
  {
    assert a + (b + d.calls) == a + b + d.calls;
  }

  lemma PrecededByNone<S>(d: Dispatched<S>)
    ensures Preceded([], d) == d
  {
    assert [] + d.calls == d.calls;
  }

  lemma {:induction false} DrainResumes<S(!new)>(c: Codec<S>, s: S, b: Octets, x: Octets)
    requires Resumable(c) && x != []
    ensures Drain(c, s, b + x) == Receive(c, Drain(c, s, b), x)
    decreases 2 * |b| + if s == c.idle then 0 else 1
  {
    assert ProgressesAt(c, s, b) && StableAt(c, s, b, x);
    match c.decode(s, b)
    case Rejected =>
    case NeedsMore(s1, rest) =>
      PrecededByNone(Drain(c, s1, rest + x));
    case Complete(s1, rest, m) =>
      if rest != [] {
        DrainResumes(c, s1, rest, x);
        var d := Drain(c, s1, rest);
        if d.Parked? {
          PrecededTwice([CallbackFor(m)], d.calls, Dispatch(c, d.state, d.rest + x));
        }
      }
  }

  /** One dispatch on everything delivers what two dispatches on its parts deliver. */
  lemma DispatchResumes<S(!new)>(c: Codec<S>, s: S, b: Octets, x: Octets)
    requires Resumable(c)
    ensures Dispatch(c, s, b + x) == Receive(c, Dispatch(c, s, b), x)
  {
    if x == [] {
      assert b + x == b;
      DispatchSettles(c, s, b);
    } else if b == [] {
      assert b + x == x;
      PrecededByNone(Dispatch(c, s, x));
    } else {
      DrainResumes(c, s, b, x);
    }
  }

  /** A first message, and then whatever the rest delivers. */
  lemma DispatchFirst<S(!new)>(c: Codec<S>, b: Octets)
    requires Resumable(c) && c.decode(c.idle, b).Complete?
    ensures
      var r := c.decode(c.idle, b);
      Dispatch(c, c.idle, b) == Preceded([CallbackFor(r.metadata)], Dispatch(c, c.idle, r.rest))
  {
    assert ProgressesAt(c, c.idle, b);
    var call := CallbackFor(c.decode(c.idle, b).metadata);
    assert [call] + [] == [call];
  }

  /** A repeated dispatch with no new octets delivers nothing more. */
  lemma {:induction false} DrainSettles<S(!new)>(c: Codec<S>, s: S, b: Octets)
    requires Resumable(c)
    ensures
      var d := Drain(c, s, b);
      d.Parked? ==> Dispatch(c, d.state, d.rest) == Parked(d.state, d.rest, [])
    decreases 2 * |b| + if s == c.idle then 0 else 1
  {
    assert ProgressesAt(c, s, b) && StableAt(c, s, b, []);
    match c.decode(s, b)
    case Rejected =>
    case NeedsMore(_, rest) =>
      assert b + [] == b && rest + [] == rest;
    case Complete(s1, rest, _) =>
      if rest != [] {
        DrainSettles(c, s1, rest);
      }
  }

  lemma DispatchSettles<S(!new)>(c: Codec<S>, s: S, b: Octets)
    requires Resumable(c)
    ensures Receive(c, Dispatch(c, s, b), []) == Dispatch(c, s, b)
  {
    var d := Dispatch(c, s, b);
    if b != [] {
      DrainSettles(c, s, b);
    }
    if d.Parked? {
      assert d.rest + [] == d.rest && d.calls + [] == d.calls;
    }
  }

  lemma ReceiveJoins<S(!new)>(c: Codec<S>, b: Octets, x: Octets)
    requires Resumable(c)
    ensures Receive(c, Receive(c, Opened(c), b), x) == Receive(c, Opened(c), b + x)
  {
    assert [] + b == b && [] + (b + x) == b + x;
    DispatchResumes(c, c.idle, b, x);
    PrecededByNone(Dispatch(c, c.idle, b));
    PrecededByNone(Dispatch(c, c.idle, b + x));
  }

  lemma {:induction false} ReceiveAllJoins<S(!new)>(c: Codec<S>, b: Octets, chunks: seq<Octets>)
    requires Resumable(c)
    ensures ReceiveAll(c, Receive(c, Opened(c), b), chunks) == Receive(c, Opened(c), b + Join(chunks))
    decreases |chunks|
  {
    if chunks == [] {
      assert b + Join(chunks) == b;
    } else {
      ReceiveJoins(c, b, chunks[0]);
      ReceiveAllJoins(c, b + chunks[0], chunks[1..]);
      Regroup2(b, chunks[0], Join(chunks[1..]));
    }
  }

  /** However a stream is chunked across `onData` calls, the callbacks, the codec state and the
      octets left over depend only on the stream. */
  lemma ChunkingIsInvisible<S(!new)>(c: Codec<S>, chunks: seq<Octets>)
    requires Resumable(c)
    ensures ReceiveAll(c, Opened(c), chunks) == Dispatch(c, c.idle, Join(chunks))
  {
    assert [] + Join(chunks) == Join(chunks);
    PrecededByNone(Dispatch(c, c.idle, []));
    PrecededByNone(Dispatch(c, c.idle, Join(chunks)));
    ReceiveAllJoins(c, [], chunks);
  }

  lemma SameStreamSameCallbacks<S(!new)>(c: Codec<S>, one: seq<Octets>, other: seq<Octets>)
    requires Resumable(c) && Join(one) == Join(other)
    ensures ReceiveAll(c, Opened(c), one) == ReceiveAll(c, Opened(c), other)
  {
    ChunkingIsInvisible(c, one);
    ChunkingIsInvisible(c, other);
  }

  // Which callback a message gets.

  /** Heartbeats, and only they, are kept from being streams. */
  predicate CallsByKind(calls: seq<Callback>) {
    forall i :: 0 <= i < |calls| ==> (calls[i].OnHeartbeat? <==> calls[i].m.kind == Heartbeat)
  }

  lemma {:induction false} DrainCallsByKind<S(!new)>(c: Codec<S>, s: S, b: Octets)
    requires Resumable(c)
    ensures CallsByKind(Drain(c, s, b).calls)
    decreases 2 * |b| + if s == c.idle then 0 else 1
  {
    assert ProgressesAt(c, s, b);
    var r := c.decode(s, b);
    if r.Complete? && r.rest != [] {
      DrainCallsByKind(c, r.state, r.rest);
    }
  }

  /** Over every chunking of every stream. */
  lemma StreamCallsByKind<S(!new)>(c: Codec<S>, chunks: seq<Octets>)
    requires Resumable(c)
    ensures CallsByKind(ReceiveAll(c, Opened(c), chunks).calls)
  {
    ChunkingIsInvisible(c, chunks);
    if Join(chunks) != [] {
      DrainCallsByKind(c, c.idle, Join(chunks));
    }
  }

  // Streams of whole messages.

  /** A message on the wire, and what a codec is to make of it. */
  datatype Sent = Sent(wire: Octets, metadata: Metadata)

  /** An idle codec takes exactly this message, whatever follows it. */
  ghost predicate Lands<S(!new)>(c: Codec<S>, x: Sent) {
    x.wire != [] && forall s :: c.decode(c.idle, x.wire + s) == Complete(c.idle, s, x.metadata)
  }

  ghost predicate AllLand<S(!new)>(c: Codec<S>, xs: seq<Sent>) {
    forall i :: 0 <= i < |xs| ==> Lands(c, xs[i])
  }

  function WireOf(xs: seq<Sent>): Octets {
    if xs == [] then [] else xs[0].wire + WireOf(xs[1..])
  }

  /** The callbacks due: a heartbeat for each heartbeat, a stream for each other message. */
  function DueCalls(xs: seq<Sent>): (r: seq<Callback>)
    ensures |r| == |xs|
    ensures forall i :: 0 <= i < |xs| ==>
      r[i] == if xs[i].metadata.kind == Heartbeat then OnHeartbeat(xs[i].metadata) else OnStreamDecoded(xs[i].metadata)
  {
    if xs == [] then []
    else
      var m := xs[0].metadata;
      [if m.kind == Heartbeat then OnHeartbeat(m) else OnStreamDecoded(m)] + DueCalls(xs[1..])
  }

  lemma FirstLands<S(!new)>(c: Codec<S>, x: Sent, rest: Octets)
    requires Resumable(c) && Lands(c, x)
    ensures Dispatch(c, c.idle, x.wire + rest) == Preceded(DueCalls([x]), Dispatch(c, c.idle, rest))
  {
    DispatchFirst(c, x.wire + rest);
  }

  /** Messages one behind the other are delivered one by one and in order, and whatever is behind
      them is dispatched as if it had come first. */
  lemma {:induction false} WholeMessagesLand<S(!new)>(c: Codec<S>, xs: seq<Sent>, tail: Octets)
    requires Resumable(c) && AllLand(c, xs)
    ensures Dispatch(c, c.idle, WireOf(xs) + tail) == Preceded(DueCalls(xs), Dispatch(c, c.idle, tail))
    decreases |xs|
  {
    var d := Dispatch(c, c.idle, tail);
    if xs == [] {
      assert [] + tail == tail;
      PrecededByNone(d);
    } else {
      var first, rest := xs[0], xs[1..];
      Regroup2(first.wire, WireOf(rest), tail);
      assert Lands(c, first);
      assert AllLand(c, rest) by {
        forall i | 0 <= i < |rest| ensures Lands(c, rest[i]) { assert rest[i] == xs[i + 1]; }
      }
      FirstLands(c, first, WireOf(rest) + tail);
      WholeMessagesLand(c, rest, tail);
      PrecededTwice(DueCalls([first]), DueCalls(rest), d);
      assert DueCalls([first]) + DueCalls(rest) == DueCalls(xs);
    }
  }

  /** What throws when nothing is under way breaks the connection behind the messages before it. */
  lemma RejectedBreaks<S(!new)>(c: Codec<S>, xs: seq<Sent>, bad: Octets, chunks: seq<Octets>)
    requires Resumable(c) && AllLand(c, xs) && bad != [] && c.decode(c.idle, bad).Rejected?
    requires Join(chunks) == WireOf(xs) + bad
    ensures ReceiveAll(c, Opened(c), chunks) == Broken(DueCalls(xs))
  {
    ChunkingIsInvisible(c, chunks);
    WholeMessagesLand(c, xs, bad);
    assert DueCalls(xs) + [] == DueCalls(xs);
  }

  /** And messages with nothing behind them leave the connection as it was. */
  lemma WholeStreamLands<S(!new)>(c: Codec<S>, xs: seq<Sent>, chunks: seq<Octets>)
    requires Resumable(c) && AllLand(c, xs) && Join(chunks) == WireOf(xs)
    ensures ReceiveAll(c, Opened(c), chunks) == Parked(c.idle, [], DueCalls(xs))
  {
    ChunkingIsInvisible(c, chunks);
    WholeMessagesLand(c, xs, []);
    assert WireOf(xs) + [] == WireOf(xs) && DueCalls(xs) + [] == DueCalls(xs);
  }
}
