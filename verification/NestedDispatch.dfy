/** Where framing meets the life of requests: the batches that a connection decodes come from its
    dispatch loop, and a dispatch nested in a resumption, with no new octets, decodes nothing. */
module NestedDispatch {
  import opened Bytes
  import Codecs = CodecInterface
  import Framing = StreamSplitting
  import opened MessageLifecycle
  import opened ConnectionEvents
  import opened ConnectionLifecycle

  /** What the factory and the environment add to decoded metadata: the number of filters before
      the router, and what all of them will do. */
  datatype Chain = Chain(filters: nat, verdicts: Codecs.Metadata -> Verdicts)

  function ArrivalOf(m: Codecs.Metadata, chain: Chain): Arrival {
    Arrival(Request(m.kind == Codecs.Oneway, m.requestId, m.origin, chain.filters), chain.verdicts(m))
  }

  /** Each decoded stream arrives; heartbeats do not. */
  function ArrivalsOf(calls: seq<Framing.Callback>, chain: Chain): seq<Arrival> {
    if calls == [] then []
    else
      (if calls[0].OnStreamDecoded? then [ArrivalOf(calls[0].m, chain)] else []) + ArrivalsOf(calls[1..], chain)
  }

  /** The batch of one dispatch. */
  function BatchOf<S>(d: Framing.Dispatched<S>, chain: Chain): Batch {
    Batch(ArrivalsOf(d.calls, chain), d.Broken?)
  }

  /** Whatever chunks a connection has received, unless one of them broke it, dispatching again
      decodes no message and throws nothing. */
  lemma NestedBatchIsQuiet<S(!new)>(c: Codecs.Codec<S>, chunks: seq<Octets>, chain: Chain)
    requires Codecs.Resumable(c)
    ensures
      var d := Framing.ReceiveAll(c, Framing.Opened(c), chunks);
      d.Parked? ==> BatchOf(Framing.Dispatch(c, d.state, d.rest), chain) == Batch([], false)
  {
    Framing.ChunkingIsInvisible(c, chunks);
    var stream := Join(chunks);
    if stream != [] {
      Framing.DrainSettles(c, c.idle, stream);
    }
  }

  /** Such a dispatch leaves every request where it is: on a connection that has not broken, a
      resumption changes no request but its own. */
  lemma NestedDispatchIsQuiet<S(!new)>(
      codec: Codecs.Codec<S>, chunks: seq<Octets>, chain: Chain, c: Connection, encodes: bool)
    requires Codecs.Resumable(codec) && WellLinked(c)
    ensures
      var d := Framing.ReceiveAll(codec, Framing.Opened(codec), chunks);
      d.Parked? ==>
        ConnectionLifecycle.Dispatch(c, BatchOf(Framing.Dispatch(codec, d.state, d.rest), chain), encodes) == c
  {
    NestedBatchIsQuiet(codec, chunks, chain);
  }
}
