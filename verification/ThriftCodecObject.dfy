/** The ThriftCodec class of thrift_codec.cc: the frame flags, the metadata and the machine
    it owns, with `decode` proved against the codec on values. */
module ThriftCodecObject {
  import opened Bytes
  import opened Buffers
  import opened CodecInterface
  import opened ThriftProtocol
  import opened ThriftMachine
  import opened ThriftDecoder
  import Spec = ThriftCodec
  import Runs = ThriftRun

  /** The outcome of a `decode` call. */
  datatype Verdict = Waiting | DecodeDone(metadata: Metadata) | Threw

  /** The metadata object a caller hands in, before anything is decoded. */
  const FRESH_METADATA := Metadata(Request, 0, OkStatus, 0, 0, [])

  class ThriftCodec {
    const protocol: Protocol
    const transport: Spec.Transport
    var hasMetadata: bool
    var machine: DecoderStateMachine?
    var frameStarted: bool
    var frameEnded: bool

    ghost function View(): Spec.CodecState
      reads this, machine
    {
      Spec.CodecState(frameStarted, frameEnded, hasMetadata,
                      if machine == null then Spec.NoMachine else Spec.Running(machine.View()))
    }

    ghost predicate Valid()
      reads this, machine
    {
      && Lawful(protocol) && Spec.LawfulTransport(transport)
      && (frameStarted <==> machine != null)
      && (frameStarted ==> hasMetadata)
      && (machine != null ==> machine.proto == protocol && machine.Valid())
    }

    constructor (protocol: Protocol, transport: Spec.Transport)
      requires Lawful(protocol) && Spec.LawfulTransport(transport)
      ensures Valid() && View() == Spec.IDLE
      ensures this.protocol == protocol && this.transport == transport
    {
      this.protocol, this.transport := protocol, transport;
      hasMetadata, machine, frameStarted, frameEnded := false, null, false, false;
    }

    method Complete()
      modifies this
      ensures machine == null && !frameStarted && !frameEnded && hasMetadata == old(hasMetadata)
    {
      machine := null;
      frameStarted := false;
      frameEnded := false;
    }

    /** Looks for the start of the next frame; once it is there a machine for its message exists. */
    method OpenFrame(buffer: Buffer) returns (r: Spec.Framing)
      requires Valid() && !frameStarted && !frameEnded
      modifies this, buffer
      ensures r == transport.frameStart(old(buffer.data))
      ensures !frameEnded && Valid()
      ensures r.Framed? ==>
        && View() == Spec.InFrame(INITIAL) && fresh(machine)
        && r.used <= |old(buffer.data)| && buffer.data == old(buffer.data)[r.used..]
      ensures !r.Framed? ==>
        View() == Spec.CodecState(false, false, true, Spec.NoMachine) && buffer.data == old(buffer.data)
    {
      if !hasMetadata {
        hasMetadata := true;
      }
      r := transport.frameStart(buffer.data);
      if r.Framed? {
        buffer.Drain(r.used);
        frameStarted := true;
        machine := new DecoderStateMachine(protocol);
      }
    }

    /** Closes the frame of a finished machine and hands the message over. */
    method CloseFrame(buffer: Buffer) returns (r: Verdict)
      requires Valid() && machine != null && machine.state == Done && !frameEnded
      modifies this, buffer
      ensures !frameEnded && (r != Threw ==> Valid()) && (machine == null || machine == old(machine))
      ensures
        match Spec.CloseFrame(transport, old(machine.View()), old(buffer.data))
        case NeedsMore(s, rest) => r == Waiting && View() == s && buffer.data == rest
        case Complete(s, rest, metadata) => r == DecodeDone(metadata) && View() == s && buffer.data == rest
        case Rejected => r == Threw
      ensures r.DecodeDone? ==> Spec.Describes(r.metadata, old(machine.metadata.header), r.metadata.origin)
    {
      var end := transport.frameEnd(buffer.data);
      match end {
        case Unfinished => return Waiting;
        case Refused => return Threw;
        case Framed(used) => buffer.Drain(used);
      }
      var wrapped := transport.encodeFrame(machine.origin);
      if wrapped.TooLarge? {
        return Threw;
      }
      var metadata := Spec.ToMetadata(machine.metadata.header, wrapped.head + machine.origin + wrapped.tail);
      Spec.MetadataDescribes(machine.metadata.header, metadata.origin);
      frameEnded := true;
      hasMetadata := false;
      Complete();
      return DecodeDone(metadata);
    }

    /** Runs the machine of an open frame, and closes the frame of one that is done. */
    method RunMachine(buffer: Buffer) returns (r: Verdict)
      requires Valid() && machine != null && !frameEnded
      modifies this, machine, buffer
      ensures !frameEnded && (r != Threw ==> Valid()) && (machine == null || machine == old(machine))
      ensures
        match Spec.DecodeBody(protocol, transport, old(machine.View()), old(buffer.data))
        case NeedsMore(s, rest) => r == Waiting && View() == s && buffer.data == rest
        case Complete(s, rest, metadata) => r == DecodeDone(metadata) && View() == s && buffer.data == rest
        case Rejected => r == Threw
    {
      var state := machine.Run(buffer);
      if state == Thrown {
        return Threw;
      }
      if state.state == WaitForData {
        return Waiting;
      }
      r := CloseFrame(buffer);
    }

    /** While no frame has ended early, a call does what the codec on values does; the early return
        for an ended frame consumes nothing, and no call ever leaves a frame ended. */
    method Decode(buffer: Buffer) returns (r: Verdict)
      requires Valid()
      modifies this, machine, buffer
      ensures !frameEnded && (r != Threw ==> Valid())
      ensures machine == null || machine == old(machine) || fresh(machine)
      ensures old(frameEnded) ==>
        r == DecodeDone(FRESH_METADATA) && buffer.data == old(buffer.data) && machine == null
      ensures !old(frameEnded) ==>
        match Spec.Decode(protocol, transport, old(View()), old(buffer.data))
        case NeedsMore(s, rest) => r == Waiting && View() == s && buffer.data == rest
        case Complete(s, rest, metadata) => r == DecodeDone(metadata) && View() == s && buffer.data == rest
        case Rejected => r == Threw
    {
      if frameEnded {
        Complete();
        return DecodeDone(FRESH_METADATA);
      }
      if !frameStarted {
        var start := OpenFrame(buffer);
        match start {
          case Unfinished => return Waiting;
          case Refused => return Threw;
          case Framed(_) =>
        }
      }
      r := RunMachine(buffer);
    }
  }
}
