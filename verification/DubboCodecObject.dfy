/** The DecoderStateMachine and the DubboCodec of dubbo_codec.cc in their own form, proved against
    the machine and the codec on values. */
module DubboCodecObject {
  import opened Bytes
  import opened Buffers
  import opened CodecInterface
  import opened DubboProtocol
  import Spec = DubboCodec

  /** What a handler or `run` returns: a state, or an exception. */
  datatype Handled = Next(state: Spec.ProtocolState) | Thrown

  class DecoderStateMachine {
    const hessian: Hessian
    var state: Spec.ProtocolState
    var metadata: MessageMetadata
    var context: Spec.MaybeContext

    ghost function View(): Spec.Machine
      reads this
    {
      Spec.Machine(state, metadata, context)
    }

    ghost predicate Valid()
      reads this
    {
      LawfulHessian(hessian) && Spec.Valid(View())
    }

    constructor (hessian: Hessian)
      requires LawfulHessian(hessian)
      ensures Valid() && View() == Spec.INITIAL && this.hessian == hessian
    {
      this.hessian := hessian;
      state, metadata, context := Spec.OnDecodeStreamHeader, NEW_METADATA, Spec.NoContext;
    }

    /** A handler does what one step does, but for the state that `run` assigns. */
    twostate predicate Stepped(buffer: Buffer, r: Handled)
      requires old(Valid() && state != Spec.Done)
      reads this, buffer
    {
      match Spec.Step(hessian, old(View()), old(buffer.data))
      case Moved(m, rest) =>
        r.Next? && r.state != Spec.WaitForData && View().(state := r.state) == m && buffer.data == rest
      case Waits(m) => r == Next(Spec.WaitForData) && View() == m && buffer.data == old(buffer.data)
      case Fails => r == Thrown
    }

    /** Moves the next `n` octets into the origin message. */
    method MoveToOrigin(buffer: Buffer, n: nat)
      requires context.Known? && n <= |buffer.data|
      modifies this`context, buffer
      ensures context == Spec.Known(Spec.Take(old(context.context), old(buffer.data), n))
      ensures buffer.data == old(buffer.data)[n..]
    {
      context := Spec.Known(context.context.(origin := context.context.origin + buffer.data[..n]));
      buffer.Drain(n);
    }

    method OnDecodeStreamHeader(buffer: Buffer) returns (r: Handled)
      requires Valid() && state == Spec.OnDecodeStreamHeader
      modifies this, buffer
      ensures state == old(state) && Stepped(buffer, r)
    {
      var header := DecodeHeader(buffer.data, metadata);
      match header
      case ShortHeader => return Next(Spec.WaitForData);
      case BadHeader => return Thrown;
      case Header(c, md) =>
        metadata, context := md, Spec.Known(c);
        if metadata.messageType == HeartbeatRequest || metadata.messageType == HeartbeatResponse {
          if |buffer.data| < c.headerSize + c.bodySize {
            return Next(Spec.WaitForData);
          }
          MoveToOrigin(buffer, c.headerSize + c.bodySize);
          return Next(Spec.Done);
        }
        MoveToOrigin(buffer, c.headerSize);
        return Next(Spec.OnDecodeStreamData);
    }

    method OnDecodeStreamData(buffer: Buffer) returns (r: Handled)
      requires Valid() && state == Spec.OnDecodeStreamData
      modifies this, buffer
      ensures state == old(state) && Stepped(buffer, r)
    {
      var data := DecodeData(hessian, buffer.data, context.context.bodySize, metadata);
      match data
      case ShortData => return Next(Spec.WaitForData);
      case BadData => return Thrown;
      case Data(md) =>
        metadata := md;
        MoveToOrigin(buffer, context.context.bodySize);
        return Next(Spec.Done);
    }

    method HandleState(buffer: Buffer) returns (r: Handled)
      requires Valid() && state != Spec.Done
      modifies this, buffer
      ensures state == old(state) && Stepped(buffer, r)
    {
      if state == Spec.OnDecodeStreamHeader {
        r := OnDecodeStreamHeader(buffer);
      } else {
        r := OnDecodeStreamData(buffer);
      }
    }

    method Run(buffer: Buffer) returns (r: Handled)
      requires Valid()
      modifies this, buffer
      ensures
        match Spec.Run(hessian, old(View()), old(buffer.data))
        case Finished(m, rest) => Valid() && r == Next(Spec.Done) && View() == m && buffer.data == rest
        case Suspended(m, rest) => Valid() && r == Next(Spec.WaitForData) && View() == m && buffer.data == rest
        case Crashed => r == Thrown
    {
      ghost var goal := Spec.Run(hessian, View(), buffer.data);
      while state != Spec.Done
        invariant Valid() && goal == Spec.Run(hessian, View(), buffer.data)
        decreases Spec.StatesLeft(state)
      {
        Spec.StepConserves(hessian, View(), buffer.data);
        var next := HandleState(buffer);
        if next == Thrown {
          return Thrown;
        }
        if next.state == Spec.WaitForData {
          return Next(Spec.WaitForData);
        }
        state := next.state;
      }
      return Next(Spec.Done);
    }
  }

  /** The outcome of a `decode` call. */
  datatype Verdict = Waiting | DecodeDone(metadata: Metadata) | Threw

  class DubboCodec {
    const hessian: Hessian
    var machine: DecoderStateMachine?
    var decodeStarted: bool

    ghost function View(): Spec.CodecState
      reads this, machine
    {
      if machine == null then Spec.NotStarted else Spec.Decoding(machine.View())
    }

    ghost predicate Valid()
      reads this, machine
    {
      && LawfulHessian(hessian)
      && (decodeStarted <==> machine != null)
      && (machine != null ==> machine.hessian == hessian && machine.Valid() && machine.state != Spec.Done)
    }

    constructor (hessian: Hessian)
      requires LawfulHessian(hessian)
      ensures Valid() && View() == Spec.NotStarted && this.hessian == hessian
    {
      this.hessian := hessian;
      machine, decodeStarted := null, false;
    }

    method Start()
      requires LawfulHessian(hessian)
      modifies this
      ensures Valid() && View() == Spec.Decoding(Spec.INITIAL) && fresh(machine)
    {
      machine := new DecoderStateMachine(hessian);
      decodeStarted := true;
    }

    method Complete()
      modifies this
      ensures machine == null && !decodeStarted
    {
      machine := null;
      decodeStarted := false;
    }

    /** A call does what the codec on values does; when it throws, the machine is left behind. */
    method Decode(buffer: Buffer) returns (r: Verdict)
      requires Valid()
      modifies this, machine, buffer
      ensures r != Threw ==> Valid()
      ensures machine == null || machine == old(machine) || fresh(machine)
      ensures
        match Spec.Decode(hessian, old(View()), old(buffer.data))
        case NeedsMore(s, rest) => r == Waiting && View() == s && buffer.data == rest
        case Complete(s, rest, metadata) => r == DecodeDone(metadata) && View() == s && buffer.data == rest
        case Rejected => r == Threw
    {
      if !decodeStarted {
        Start();
      }
      var state := machine.Run(buffer);
      if state == Thrown {
        return Threw;
      }
      if state.state == Spec.WaitForData {
        return Waiting;
      }
      var metadata := Spec.ToMetadata(machine.metadata, machine.context.context);
      Complete();
      return DecodeDone(metadata);
    }
  }
}
