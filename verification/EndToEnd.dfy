/** Framing and request life together: chunks arrive at a connection, its dispatch loop decodes them,
    and the decoded streams are its requests, while everything else happens in between. */
module EndToEnd {
  import opened Bytes
  import Codecs = CodecInterface
  import Framing = StreamSplitting
  import opened ByteConservation
  import opened MessageLifecycle
  import opened MessageInvariant
  import opened ConnectionEvents
  import opened ConnectionLifecycle
  import opened LifecycleRuns
  import opened ReleaseRuns
  import opened MessageSteps
  import opened NestedDispatch

  // The requests of a connection, in the order of their arrival.

  function RequestsIn(c: Connection): seq<Request> {
    seq(|c.messages|, i requires 0 <= i < |c.messages| => c.messages[i].request)
  }

  function RequestsOf(arrivals: seq<Arrival>): (r: seq<Request>)
    ensures |r| == |arrivals|
    ensures forall i :: 0 <= i < |r| ==> r[i] == arrivals[i].request
  {
    if arrivals == [] then [] else [arrivals[0].request] + RequestsOf(arrivals[1..])
  }

  lemma ArriveRequests(c: Connection, a: Arrival, encodes: bool)
    requires WellLinked(c)
    ensures RequestsIn(Arrive(c, a, encodes)) == RequestsIn(c) + [a.request]
  {
    DecodedIsValid(a.request, a.verdicts, Downstream(c.open, encodes));
  }

  lemma OneRequestMore(before: seq<Request>, arrivals: seq<Arrival>)
    requires arrivals != []
    ensures before + [arrivals[0].request] + RequestsOf(arrivals[1..]) == before + RequestsOf(arrivals)
  {
  }

  lemma {:induction false} ArriveAllRequests(c: Connection, arrivals: seq<Arrival>, encodes: bool)
    requires WellLinked(c)
    ensures RequestsIn(ArriveAll(c, arrivals, encodes)) == RequestsIn(c) + RequestsOf(arrivals)
    decreases |arrivals|
  {
    if arrivals == [] {
      assert RequestsIn(c) + [] == RequestsIn(c);
    } else {
      ArriveRequests(c, arrivals[0], encodes);
      ArriveAllRequests(Arrive(c, arrivals[0], encodes), arrivals[1..], encodes);
      OneRequestMore(RequestsIn(c), arrivals);
    }
  }

  lemma {:induction false} ResetAllRequests(c: Connection, local: bool)
    requires WellLinked(c)
    ensures RequestsIn(ResetAll(c, local)) == RequestsIn(c)
    decreases |c.active|
  {
    if c.active != [] {
      var c1 := ResetFirst(c, local);
      forall i | 0 <= i < |c.messages|
        ensures c1.messages[i].request == c.messages[i].request
      {
        assert Kept(c.messages[i], c1.messages[i]);
      }
      assert RequestsIn(c1) == RequestsIn(c);
      ResetAllRequests(c1, local);
    }
  }

  /** A dispatch adds what it decodes, in order. */
  lemma DispatchRequests(c: Connection, batch: Batch, encodes: bool)
    requires WellLinked(c)
    ensures RequestsIn(ConnectionLifecycle.Dispatch(c, batch, encodes)) == RequestsIn(c) + RequestsOf(batch.arrivals)
  {
    ArriveAllRequests(c, batch.arrivals, encodes);
    if batch.broken {
      var c1 := ArriveAll(c, batch.arrivals, encodes);
      var c2 := c1.(open := false);
      assert RequestsIn(c2) == RequestsIn(c1);
      ResetAllRequests(c2, true);
      ResetAllRequests(ResetAll(c2, true), true);
    }
  }

  /** The batch of the dispatch inside an event, if there is one. */
  function BatchIn(e: Event): Batch {
    match e
    case Data(batch) => batch
    case FilterResumes(_, _, batch) => batch
    case PoolReady(_, _, batch) => batch
    case PoolFailure(_, _, batch) => batch
    case _ => Batch([], false)
  }

  /** An event whose dispatch is quiet adds no request. */
  lemma QuietStepAddsNone(c: Connection, s: Step)
    requires Stable(c) && Enabled(c, s.event) && BatchIn(s.event) == Batch([], false)
    ensures |Next(c, s).messages| == |c.messages|
  {
    match s.event
    case DownstreamClose(local) =>
      ResetAllRequests(c.(open := false), local);
      assert |RequestsIn(ResetAll(c.(open := false), local))| == |RequestsIn(c.(open := false))|;
    case Tick => DeleteAllDeletes(c, Downstream(c.open, s.encodes));
    case _ =>
  }

  lemma QuietStepKeepsRequests(c: Connection, s: Step)
    requires Stable(c) && Enabled(c, s.event) && BatchIn(s.event) == Batch([], false)
    ensures RequestsIn(Next(c, s)) == RequestsIn(c)
  {
    QuietStepAddsNone(c, s);
    EventSteps(c, s);
    forall i | 0 <= i < |c.messages|
      ensures Next(c, s).messages[i].request == c.messages[i].request
    {
      assert SteppedAt(c, Next(c, s), s, i);
    }
  }

  // The two halves together.

  /** A downstream connection with its requests and its framing. */
  datatype Proxy<S> = Proxy(conn: Connection, framing: Framing.Dispatched<S>)

  /** A chunk arrives, or anything else happens. */
  datatype Input = Chunk(octets: Octets, encodes: bool) | Other(step: Step)

  function OctetsOf(input: Input): Octets {
    if input.Chunk? then input.octets else []
  }

  /** What the dispatch that an input brings about decodes. */
  function BatchFor<S(!new)>(c: Codecs.Codec<S>, chain: Chain, x: Proxy<S>, input: Input): Batch
    requires Codecs.Resumable(c)
  {
    match x.framing
    case Broken(_) => Batch([], false)
    case Parked(state, rest, _) => BatchOf(Framing.Dispatch(c, state, rest + OctetsOf(input)), chain)
  }

  function StepFor<S(!new)>(c: Codecs.Codec<S>, chain: Chain, x: Proxy<S>, input: Input): Step
    requires Codecs.Resumable(c)
  {
    match input
    case Chunk(_, encodes) => Step(Data(BatchFor(c, chain, x, input)), encodes)
    case Other(s) => s
  }

  /** The input may happen: the environment keeps to its contract, no chunk follows an exception, and
      a nested dispatch decodes what is buffered. */
  ghost predicate Fits<S(!new)>(c: Codecs.Codec<S>, chain: Chain, x: Proxy<S>, input: Input)
    requires Codecs.Resumable(c)
  {
    && (input.Chunk? ==> x.framing.Parked?)
    && Enabled(x.conn, StepFor(c, chain, x, input).event)
    && (input.Other? ==> !input.step.event.Data?)
    && (input.Other? && Nests(input.step.event) ==> BatchIn(input.step.event) == BatchFor(c, chain, x, input))
  }

  predicate Nests(e: Event) {
    e.FilterResumes? || e.PoolReady? || e.PoolFailure?
  }

  function Advance<S(!new)>(c: Codecs.Codec<S>, chain: Chain, x: Proxy<S>, input: Input): Proxy<S>
    requires Codecs.Resumable(c) && Stable(x.conn) && Fits(c, chain, x, input)
  {
    Proxy(Next(x.conn, StepFor(c, chain, x, input)), Framing.Receive(c, x.framing, OctetsOf(input)))
  }

  /** The requests are the decoded streams, in order, and nothing that could be decoded waits; once
      an exception has broken the stream, the connection is closed and no request is linked. */
  ghost predicate Joined<S(!new)>(c: Codecs.Codec<S>, chain: Chain, x: Proxy<S>)
    requires Codecs.Resumable(c)
  {
    && Stable(x.conn)
    && RequestsIn(x.conn) == RequestsOf(ArrivalsOf(x.framing.calls, chain))
    && Framing.Receive(c, x.framing, []) == x.framing
    && (x.framing.Broken? ==> !x.conn.open && x.conn.active == [])
  }

  lemma {:induction false} ArrivalsJoin(a: seq<Framing.Callback>, b: seq<Framing.Callback>, chain: Chain)
    ensures ArrivalsOf(a + b, chain) == ArrivalsOf(a, chain) + ArrivalsOf(b, chain)
    decreases |a|
  {
    if a == [] {
      assert a + b == b;
    } else {
      assert (a + b)[1..] == a[1..] + b;
      ArrivalsJoin(a[1..], b, chain);
    }
  }

  lemma RequestsJoin(a: seq<Arrival>, b: seq<Arrival>)
    ensures RequestsOf(a + b) == RequestsOf(a) + RequestsOf(b)
  {
  }

  /** A settled connection has a quiet nested dispatch. */
  lemma SettledIsQuiet<S(!new)>(c: Codecs.Codec<S>, chain: Chain, x: Proxy<S>, input: Input)
    requires Codecs.Resumable(c) && Joined(c, chain, x) && input.Other?
    ensures BatchFor(c, chain, x, input) == Batch([], false)
  {
    if x.framing.Parked? {
      var d := Framing.Dispatch(c, x.framing.state, x.framing.rest + []);
      assert d.Parked? && |x.framing.calls + d.calls| == |x.framing.calls|;
    }
  }

  lemma ReceiveSettles<S(!new)>(c: Codecs.Codec<S>, d: Framing.Dispatched<S>, chunk: Octets)
    requires Codecs.Resumable(c)
    ensures
      var r := Framing.Receive(c, d, chunk);
      Framing.Receive(c, r, []) == r
  {
    if d.Parked? {
      var b := d.rest + chunk;
      Framing.DispatchSettles(c, d.state, b);
      var inc := Framing.Dispatch(c, d.state, b);
      if inc.Parked? {
        Framing.PrecededTwice(d.calls, inc.calls, Framing.Dispatch(c, inc.state, inc.rest + []));
      }
    }
  }

  lemma ChunkJoins<S(!new)>(c: Codecs.Codec<S>, chain: Chain, x: Proxy<S>, input: Input)
    requires Codecs.Resumable(c) && Joined(c, chain, x) && Fits(c, chain, x, input) && input.Chunk?
    ensures
      var y := Advance(c, chain, x, input);
      RequestsIn(y.conn) == RequestsOf(ArrivalsOf(y.framing.calls, chain))
  {
    var inc := Framing.Dispatch(c, x.framing.state, x.framing.rest + input.octets);
    DispatchRequests(x.conn, BatchFor(c, chain, x, input), input.encodes);
    ArrivalsJoin(x.framing.calls, inc.calls, chain);
    RequestsJoin(ArrivalsOf(x.framing.calls, chain), ArrivalsOf(inc.calls, chain));
  }

  /** A quiet event links nothing. */
  lemma QuietStepLinksNone(c: Connection, s: Step)
    requires Stable(c) && Enabled(c, s.event) && BatchIn(s.event) == Batch([], false)
    requires !c.open && c.active == []
    ensures !Next(c, s).open && Next(c, s).active == []
  {
    var r := Next(c, s);
    QuietStepAddsNone(c, s);
    StepReleases(c, s);
    forall j: nat
      ensures j !in r.active
    {
      assert j in c.active <==> IsAt(c, j, Linked);
      assert j in r.active <==> IsAt(r, j, Linked);
      if j < |r.messages| {
        assert LinkedRight(c, s, r, j);
      }
    }
    SomeIn(r.active);
  }

  lemma SomeIn(s: seq<nat>)
    ensures s != [] ==> exists j: nat :: j in s
  {
    if s != [] {
      assert s[0] in s;
    }
  }

  lemma AdvanceJoins<S(!new)>(c: Codecs.Codec<S>, chain: Chain, x: Proxy<S>, input: Input)
    requires Codecs.Resumable(c) && Joined(c, chain, x) && Fits(c, chain, x, input)
    ensures Joined(c, chain, Advance(c, chain, x, input))
  {
    var s := StepFor(c, chain, x, input);
    NextIsStable(x.conn, s);
    ReceiveSettles(c, x.framing, OctetsOf(input));
    if input.Chunk? {
      ChunkJoins(c, chain, x, input);
      StepReleases(x.conn, s);
    } else {
      SettledIsQuiet(c, chain, x, input);
      QuietStepKeepsRequests(x.conn, s);
      if x.framing.Broken? {
        QuietStepLinksNone(x.conn, s);
      }
    }
  }

  // Runs.

  ghost predicate Playable<S(!new)>(c: Codecs.Codec<S>, chain: Chain, x: Proxy<S>, inputs: seq<Input>)
    requires Codecs.Resumable(c) && Joined(c, chain, x)
    decreases |inputs|
  {
    inputs == [] ||
    (Fits(c, chain, x, inputs[0]) &&
     (AdvanceJoins(c, chain, x, inputs[0]); Playable(c, chain, Advance(c, chain, x, inputs[0]), inputs[1..])))
  }

  function Played<S(!new)>(c: Codecs.Codec<S>, chain: Chain, x: Proxy<S>, inputs: seq<Input>): Proxy<S>
    requires Codecs.Resumable(c) && Joined(c, chain, x) && Playable(c, chain, x, inputs)
    decreases |inputs|
  {
    if inputs == [] then x
    else
      AdvanceJoins(c, chain, x, inputs[0]);
      Played(c, chain, Advance(c, chain, x, inputs[0]), inputs[1..])
  }

  function ChunksOf(inputs: seq<Input>): seq<Octets> {
    if inputs == [] then [] else [OctetsOf(inputs[0])] + ChunksOf(inputs[1..])
  }

  lemma {:induction false} PlayedJoins<S(!new)>(c: Codecs.Codec<S>, chain: Chain, x: Proxy<S>, inputs: seq<Input>)
    requires Codecs.Resumable(c) && Joined(c, chain, x) && Playable(c, chain, x, inputs)
    ensures
      var y := Played(c, chain, x, inputs);
      Joined(c, chain, y) && y.framing == Framing.ReceiveAll(c, x.framing, ChunksOf(inputs))
    decreases |inputs|
  {
    if inputs != [] {
      AdvanceJoins(c, chain, x, inputs[0]);
      PlayedJoins(c, chain, Advance(c, chain, x, inputs[0]), inputs[1..]);
      assert ChunksOf(inputs)[1..] == ChunksOf(inputs[1..]);
    }
  }

  function Started<S>(c: Codecs.Codec<S>): Proxy<S> {
    Proxy(OPENED, Framing.Opened(c))
  }

  lemma StartedJoins<S(!new)>(c: Codecs.Codec<S>, chain: Chain)
    requires Codecs.Resumable(c)
    ensures Joined(c, chain, Started(c))
  {
    OpenedIsStable();
    var none: Octets := [];
    assert none + none == none;
  }

  /** The runs of a new connection, and what they lead to. */
  ghost predicate Possible<S(!new)>(c: Codecs.Codec<S>, chain: Chain, inputs: seq<Input>)
    requires Codecs.Resumable(c)
  {
    StartedJoins(c, chain);
    Playable(c, chain, Started(c), inputs)
  }

  function Outcome<S(!new)>(c: Codecs.Codec<S>, chain: Chain, inputs: seq<Input>): Proxy<S>
    requires Codecs.Resumable(c) && Possible(c, chain, inputs)
  {
    StartedJoins(c, chain);
    Played(c, chain, Started(c), inputs)
  }

  // Where each request stands in the stream.

  /** Where the `i`th decoded stream starts, heartbeats counted in. */
  function StartOf(calls: seq<Framing.Callback>, chain: Chain, i: nat): nat
    requires i < |ArrivalsOf(calls, chain)|
  {
    if calls[0].OnStreamDecoded? then
      if i == 0 then 0 else |calls[0].m.origin| + StartOf(calls[1..], chain, i - 1)
    else |calls[0].m.origin| + StartOf(calls[1..], chain, i)
  }

  /** The stretch of octets of the `i`th decoded stream. */
  lemma {:induction false} StretchAt(calls: seq<Framing.Callback>, chain: Chain, i: nat)
    requires i < |ArrivalsOf(calls, chain)|
    ensures
      var start, payload := StartOf(calls, chain, i), ArrivalsOf(calls, chain)[i].request.payload;
      && start + |payload| <= |Origins(calls)|
      && Origins(calls)[start..start + |payload|] == payload
      && (i + 1 < |ArrivalsOf(calls, chain)| ==> start + |payload| <= StartOf(calls, chain, i + 1))
    decreases |calls|
  {
    var first, rest := calls[0].m.origin, Origins(calls[1..]);
    if calls[0].OnStreamDecoded? && i == 0 {
      assert (first + rest)[0..|first|] == first;
    } else {
      var j := if calls[0].OnStreamDecoded? then i - 1 else i;
      StretchAt(calls[1..], chain, j);
      var start, payload := StartOf(calls[1..], chain, j), ArrivalsOf(calls, chain)[i].request.payload;
      assert (first + rest)[|first| + start..|first| + start + |payload|] == rest[start..start + |payload|];
    }
  }

  /** What the delivered origins hold is where it was in the stream. */
  lemma OriginsInStream<S>(held: S -> Octets, d: Framing.Dispatched<S>, stream: Octets, lo: nat, hi: nat)
    requires Conserved(held, d, stream) && lo <= hi <= |Origins(d.calls)|
    ensures hi <= |stream| && stream[lo..hi] == Origins(d.calls)[lo..hi]
  {
    if d.Parked? {
      SliceOfPrefix(Origins(d.calls), held(d.state) + d.rest, lo, hi);
    }
  }

  lemma SendsItsPayload(c: Connection, i: nat)
    requires Stable(c) && i < |c.messages|
    ensures SentOnce(c.messages[i])
  {
    assert InOrder(c.messages[i]);
  }

  predicate SentOnce(m: Message) {
    m.history.sent == [] || m.history.sent == [m.request.payload]
  }

  /** The `i`th request has the stretch of the `i`th decoded stream as its payload, in front of that
      of the next one, and sends upstream this stretch, once, or nothing. */
  predicate IsStretch<S>(y: Proxy<S>, chain: Chain, stream: Octets, i: nat)
    requires i < |y.conn.messages| == |ArrivalsOf(y.framing.calls, chain)|
  {
    var start, m := StartOf(y.framing.calls, chain, i), y.conn.messages[i];
    var end := start + |m.request.payload|;
    && end <= |stream| && stream[start..end] == m.request.payload
    && (i + 1 < |y.conn.messages| ==> end <= StartOf(y.framing.calls, chain, i + 1))
    && (m.history.sent == [] || m.history.sent == [stream[start..end]])
  }

  lemma RequestIsStretch<S(!new)>(
      c: Codecs.Codec<S>, held: S -> Octets, chain: Chain, y: Proxy<S>, stream: Octets, i: nat)
    requires Codecs.Resumable(c) && Joined(c, chain, y) && Conserved(held, y.framing, stream)
    requires i < |y.conn.messages|
    ensures |y.conn.messages| == |ArrivalsOf(y.framing.calls, chain)| && IsStretch(y, chain, stream, i)
  {
    var requests := RequestsIn(y.conn);
    assert |requests| == |y.conn.messages| && requests[i] == y.conn.messages[i].request;
    StretchAt(y.framing.calls, chain, i);
    var start := StartOf(y.framing.calls, chain, i);
    OriginsInStream(held, y.framing, stream, start, start + |requests[i].payload|);
    SendsItsPayload(y.conn, i);
  }

  /** From the octets downstream to the octets upstream: whatever chunks arrive and whatever else
      happens in between, the requests of a connection are its decoded streams in order; each has as
      payload its own stretch of the octets received, behind that of the request before it; and what
      it sends upstream is that stretch, once, or nothing. */
  lemma RequestsAreStretches<S(!new)>(
      c: Codecs.Codec<S>, held: S -> Octets, chain: Chain, inputs: seq<Input>)
    requires Codecs.Resumable(c) && Conserving(c, held) && Possible(c, chain, inputs)
    ensures
      var y := Outcome(c, chain, inputs);
      && y.framing == Framing.ReceiveAll(c, Framing.Opened(c), ChunksOf(inputs))
      && RequestsIn(y.conn) == RequestsOf(ArrivalsOf(y.framing.calls, chain))
      && |y.conn.messages| == |ArrivalsOf(y.framing.calls, chain)|
      && forall i :: 0 <= i < |y.conn.messages| ==> IsStretch(y, chain, Join(ChunksOf(inputs)), i)
  {
    StartedJoins(c, chain);
    PlayedJoins(c, chain, Started(c), inputs);
    StreamIsConserved(c, held, ChunksOf(inputs));
    var y := Outcome(c, chain, inputs);
    assert |RequestsIn(y.conn)| == |y.conn.messages|;
    forall i | 0 <= i < |y.conn.messages|
      ensures IsStretch(y, chain, Join(ChunksOf(inputs)), i)
    {
      RequestIsStretch(c, held, chain, y, Join(ChunksOf(inputs)), i);
    }
  }
}
