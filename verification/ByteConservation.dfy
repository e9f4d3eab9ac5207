/** Conservation over whole streams, for any codec each of whose calls conserves its octets. */
module ByteConservation {
  import opened Bytes
  import opened CodecInterface
  import opened StreamSplitting

  /** `held` gives the octets a codec has taken out of the buffer but not delivered. */
  predicate ConservesAt<S(==)>(c: Codec<S>, held: S -> Octets, s: S, b: Octets) {
    match c.decode(s, b)
    case Complete(s1, rest, m) => m.origin + rest == held(s) + b && held(s1) == [] && Whole(m)
    case NeedsMore(s1, rest) => held(s1) + rest == held(s) + b
    case Rejected => true
  }

  ghost predicate Conserving<S(!new)>(c: Codec<S>, held: S -> Octets) {
    held(c.idle) == [] && forall s, b :: ConservesAt(c, held, s, b)
  }

  /** The origin message is as long as the header says. */
  predicate Whole(m: Metadata) {
    |m.origin| == m.headerSize + m.bodySize
  }

  function Origins(calls: seq<Callback>): Octets {
    if calls == [] then [] else calls[0].m.origin + Origins(calls[1..])
  }

  predicate AllWhole(calls: seq<Callback>) {
    forall i :: 0 <= i < |calls| ==> Whole(calls[i].m)
  }

  /** Everything received is delivered, held by the codec or still buffered, in this order; before
      an exception closed the connection, what was delivered is what came first. */
  predicate Conserved<S(==)>(held: S -> Octets, d: Dispatched<S>, stream: Octets) {
    && AllWhole(d.calls)
    && match d
       case Parked(s, rest, calls) => Origins(calls) + (held(s) + rest) == stream
       case Broken(calls) => Origins(calls) <= stream
  }

  lemma {:induction false} DrainConserves<S(!new)>(c: Codec<S>, held: S -> Octets, s: S, b: Octets)
    requires Resumable(c) && Conserving(c, held)
    ensures Conserved(held, Drain(c, s, b), held(s) + b)
    decreases 2 * |b| + if s == c.idle then 0 else 1
  {
    assert ProgressesAt(c, s, b) && ConservesAt(c, held, s, b);
    match c.decode(s, b)
    case Rejected =>
    case NeedsMore(s1, rest) =>
      assert [] + (held(s1) + rest) == held(s1) + rest;
    case Complete(s1, rest, m) =>
      var call := CallbackFor(m);
      if rest == [] {
        assert Origins([call]) == m.origin + Origins([]);
        assert Drain(c, s, b) == Parked(s1, rest, [call]);
        assert m.origin + [] + ([] + rest) == m.origin + rest;
      } else {
        DrainConserves(c, held, s1, rest);
        OneMore(held, call, Drain(c, s1, rest), rest);
      }
  }

  lemma OneMore<S>(held: S -> Octets, call: Callback, d: Dispatched<S>, stream: Octets)
    requires Whole(call.m) && Conserved(held, d, [] + stream)
    ensures Conserved(held, Preceded([call], d), call.m.origin + stream)
  {
    var calls := [call] + d.calls;
    assert calls[1..] == d.calls;
    assert Origins(calls) == call.m.origin + Origins(d.calls);
    assert [] + stream == stream;
    if d.Parked? {
      Regroup2(call.m.origin, Origins(d.calls), held(d.state) + d.rest);
    }
  }

  /** For every chunking of a stream. */
  lemma StreamIsConserved<S(!new)>(c: Codec<S>, held: S -> Octets, chunks: seq<Octets>)
    requires Resumable(c) && Conserving(c, held)
    ensures Conserved(held, ReceiveAll(c, Opened(c), chunks), Join(chunks))
  {
    ChunkingIsInvisible(c, chunks);
    var stream := Join(chunks);
    assert [] + stream == stream;
    if stream != [] {
      DrainConserves(c, held, c.idle, stream);
    }
  }
}
