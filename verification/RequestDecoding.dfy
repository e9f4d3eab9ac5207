/** The objects of the framing pipeline: `DecoderBase` with its one-message state machine, and the
    part of `ConnectionManager` that buffers and dispatches. */
module RequestDecoding {
  import opened Bytes
  import opened Buffers
  import opened CodecInterface
  import opened StreamSplitting

  datatype ProtocolState = WaitForData | OnDecodeStreamData | Done

  /** The outcome of `onData`: the underflow flag, or an exception from the codec. */
  datatype Fed = Underflow(flag: bool) | Threw

  /** The codec is kept as its state between calls; `calls` records the callbacks made. */
  class RequestDecoder<S(==,!new)> {
    const codec: Codec<S>
    var codecState: S
    var decodeStarted: bool
    var hasMachine: bool
    var machineState: ProtocolState
    var hasStream: bool
    ghost var calls: seq<Callback>

    ghost predicate Valid()
      reads this
    {
      && Resumable(codec)
      && (decodeStarted <==> hasMachine)
      && (hasMachine ==> machineState != Done)
      && !hasStream
    }

    constructor (codec: Codec<S>)
      requires Resumable(codec)
      ensures Valid() && this.codec == codec && codecState == codec.idle && calls == []
    {
      this.codec, codecState := codec, codec.idle;
      decodeStarted, hasMachine, machineState, hasStream := false, false, OnDecodeStreamData, false;
      calls := [];
    }

    method Start()
      modifies this`hasMachine, this`machineState, this`decodeStarted
      ensures hasMachine && machineState == OnDecodeStreamData && decodeStarted
    {
      hasMachine, machineState := true, OnDecodeStreamData;
      decodeStarted := true;
    }

    method Complete()
      modifies this`hasMachine, this`hasStream, this`decodeStarted
      ensures !hasMachine && !hasStream && !decodeStarted
    {
      hasMachine := false;
      hasStream := false;
      decodeStarted := false;
    }

    /** A new stream is opened only when no other is live. */
    method NewStream()
      requires !hasStream
      modifies this`hasStream
      ensures hasStream
    {
      hasStream := true;
    }

    /** One `decode` call, and for a complete message the one callback it deserves. */
    method OnDecodeStream(buffer: Buffer) returns (state: ProtocolState, threw: bool)
      requires !hasStream
      modifies this`codecState, this`hasStream, this`calls, buffer
      ensures
        match codec.decode(old(codecState), old(buffer.data))
        case Rejected =>
          threw && codecState == old(codecState) && buffer.data == old(buffer.data) && calls == old(calls) && !hasStream
        case NeedsMore(s, rest) =>
          !threw && state == WaitForData && codecState == s && buffer.data == rest && calls == old(calls) && !hasStream
        case Complete(s, rest, m) =>
          !threw && state == Done && codecState == s && buffer.data == rest && calls == old(calls) + [CallbackFor(m)]
      ensures hasStream ==> calls != [] && calls[|calls| - 1].OnStreamDecoded?
      ensures
        var r := codec.decode(old(codecState), old(buffer.data));
        r.Complete? ==>
          && |calls| == |old(calls)| + 1 && calls[|old(calls)|].m == r.metadata
          && (if r.metadata.kind == Heartbeat then calls[|old(calls)|].OnHeartbeat? && !hasStream
              else calls[|old(calls)|].OnStreamDecoded? && hasStream)
    {
      var decoded := codec.decode(codecState, buffer.data);
      threw := false;
      match decoded
      case Rejected =>
        state, threw := WaitForData, true;
      case NeedsMore(s, rest) =>
        codecState, buffer.data := s, rest;
        state := WaitForData;
      case Complete(s, rest, m) =>
        codecState, buffer.data := s, rest;
        if m.kind == Heartbeat {
          calls := calls + [OnHeartbeat(m)];
        } else {
          NewStream();
          calls := calls + [OnStreamDecoded(m)];
        }
        state := Done;
    }

    /** Decodes at most one message; underflow means that nothing more can come of this buffer. */
    method OnData(buffer: Buffer) returns (r: Fed)
      requires Valid()
      modifies this, buffer
      ensures Valid()
      ensures
        match codec.decode(old(codecState), old(buffer.data))
        case Rejected =>
          r == Threw && codecState == old(codecState) && buffer.data == old(buffer.data) && calls == old(calls)
        case NeedsMore(s, rest) => r == Underflow(true) && codecState == s && buffer.data == rest && calls == old(calls)
        case Complete(s, rest, m) =>
          r == Underflow(rest == []) && codecState == s && buffer.data == rest && calls == old(calls) + [CallbackFor(m)]
    {
      if !decodeStarted {
        Start();
      }
      var state, threw := OnDecodeStream(buffer);
      if threw {
        return Threw;
      }
      machineState := state;
      if state == WaitForData {
        return Underflow(true);
      }
      Complete();
      return Underflow(|buffer.data| == 0);
    }
  }

  /** After a dispatch another one delivers nothing. */
  lemma Settles<S(!new)>(c: Codec<S>, calls: seq<Callback>, s: S, b: Octets)
    requires Resumable(c)
    ensures
      var d := Preceded(calls, StreamSplitting.Dispatch(c, s, b));
      Receive(c, d, []) == d
  {
    DispatchSettles(c, s, b);
    var d := StreamSplitting.Dispatch(c, s, b);
    if d.Parked? {
      var more := StreamSplitting.Dispatch(c, d.state, d.rest + []);
      PrecededTwice(calls, d.calls, more);
    }
  }

  /** The buffering and dispatching half of `ConnectionManager`. */
  class Dispatcher<S(==,!new)> {
    const requestBuffer: Buffer
    const decoder: RequestDecoder<S>
    var stopped: bool
    var open: bool
    var decodingErrors: nat

    /** Data may wait to be dispatched. */
    ghost predicate Ready()
      reads this, requestBuffer, decoder
    {
      decoder.Valid() && !stopped
    }

    /** And between two calls none that could be does. */
    ghost predicate Valid()
      reads this, requestBuffer, decoder
    {
      Ready() && (open ==> Receive(decoder.codec, View(), []) == View())
    }

    /** What has been delivered so far, and what is still buffered while the connection is open. */
    ghost function View(): Dispatched<S>
      reads this, requestBuffer, decoder
    {
      if open then Parked(decoder.codecState, requestBuffer.data, decoder.calls) else Broken(decoder.calls)
    }

    constructor (codec: Codec<S>)
      requires Resumable(codec)
      ensures Valid() && fresh(requestBuffer) && fresh(decoder) && decoder.codec == codec
      ensures View() == Opened(codec) && decodingErrors == 0
    {
      requestBuffer := new Buffer([]);
      decoder := new RequestDecoder(codec);
      stopped, open, decodingErrors := false, true, 0;
    }

    /** The loop ends for every codec that obeys the laws, and delivers what one dispatch on
        values delivers; an exception closes the connection and is counted. */
    method Dispatch()
      requires Ready() && open
      modifies this, requestBuffer, decoder
      ensures Valid()
      ensures View() == Preceded(old(decoder.calls),
                StreamSplitting.Dispatch(decoder.codec, old(decoder.codecState), old(requestBuffer.data)))
      ensures decodingErrors == old(decodingErrors) + if open then 0 else 1
    {
      Settles(decoder.codec, decoder.calls, decoder.codecState, requestBuffer.data);
      if |requestBuffer.data| == 0 {
        return;
      }
      if stopped {
        return;
      }
      var c := decoder.codec;
      ghost var goal := Preceded(decoder.calls, Drain(c, decoder.codecState, requestBuffer.data));
      var underflow := false;
      while !underflow
        invariant Ready() && open && decodingErrors == old(decodingErrors)
        invariant goal ==
          if underflow then View() else Preceded(decoder.calls, Drain(c, decoder.codecState, requestBuffer.data))
        decreases !underflow, 2 * |requestBuffer.data| + if decoder.codecState == c.idle then 0 else 1
      {
        ghost var calls, s, b := decoder.calls, decoder.codecState, requestBuffer.data;
        assert ProgressesAt(c, s, b);
        var fed := decoder.OnData(requestBuffer);
        if fed.Threw? {
          open := false;
          decodingErrors := decodingErrors + 1;
          return;
        }
        underflow := fed.flag;
        if !underflow {
          ghost var call := CallbackFor(c.decode(s, b).metadata);
          PrecededTwice(calls, [call], Drain(c, decoder.codecState, requestBuffer.data));
        }
      }
    }

    /** A chunk from downstream: the accumulated view moves exactly as `Receive` says. */
    method OnData(data: Buffer)
      requires Valid() && open && data != requestBuffer
      modifies this, requestBuffer, decoder, data
      ensures Valid() && data.data == []
      ensures View() == Receive(decoder.codec, old(View()), old(data.data))
    {
      requestBuffer.Move(data);
      Dispatch();
    }

    /** A filter chain that had stopped resumes: whatever is buffered is dispatched again, and
        delivers nothing. */
    method ContinueDecoding()
      requires Valid() && open
      modifies this, requestBuffer, decoder
      ensures Valid() && open && View() == old(View())
    {
      stopped := false;
      assert requestBuffer.data + [] == requestBuffer.data;
      Dispatch();
    }
  }
}
