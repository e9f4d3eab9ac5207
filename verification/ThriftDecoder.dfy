/** The DecoderStateMachine of thrift_codec.cc in its own form: handlers that pop and push a
    vector of frames, drain the buffer and append to the origin message. */
module ThriftDecoder {
  import opened Bytes
  import opened Buffers
  import opened ThriftProtocol
  import opened ThriftMachine
  import ThriftRun

  /** The stack held in a vector whose back is the top. */
  function StackOf(frames: seq<Frame>): Stack {
    if frames == [] then Empty else Push(frames[|frames| - 1], StackOf(frames[..|frames| - 1]))
  }

  lemma StackOfPush(frames: seq<Frame>, f: Frame)
    ensures StackOf(frames + [f]) == Push(f, StackOf(frames))
  {
    assert (frames + [f])[..|frames|] == frames;
  }

  lemma StackOfUpdate(frames: seq<Frame>, f: Frame)
    requires frames != []
    ensures StackOf(frames[|frames| - 1 := f]) == Push(f, StackOf(frames).below)
  {
    var i := |frames| - 1;
    assert frames[i := f][..i] == frames[..i];
  }

  /** Counting an element of the frame at `index` after handleValue, which may have pushed one. */
  lemma StackOfCounted(before: seq<Frame>, after: seq<Frame>)
    requires before != [] && before[|before| - 1].remaining > 0
    requires after == before || (|after| == |before| + 1 && after[..|before|] == before)
    ensures
      var i := |before| - 1;
      var counted := StackOf(after[i := after[i].(remaining := after[i].remaining - 1)]);
      counted ==
      if after == before then CountDown(StackOf(before)) else Push(after[|before|], CountDown(StackOf(before)))
  {
    var i := |before| - 1;
    var f := before[i].(remaining := before[i].remaining - 1);
    StackOfUpdate(before, f);
    if after != before {
      StackOfPush(before[i := f], after[|before|]);
      assert after[i := f] == before[i := f] + [after[|before|]];
    }
  }

  /** What a handler returns: the next state, or an exception. */
  datatype Handled = Next(state: ProtocolState) | Thrown

  class DecoderStateMachine {
    const proto: Protocol
    var metadata: Header
    var state: ProtocolState
    var frames: seq<Frame>
    var origin: Octets

    ghost function View(): Machine
      reads this
    {
      Machine(state, StackOf(frames), origin, metadata)
    }

    ghost predicate Valid()
      reads this
    {
      Lawful(proto) && ThriftMachine.Valid(View())
    }

    constructor (proto: Protocol)
      requires Lawful(proto)
      ensures Valid() && View() == INITIAL && this.proto == proto
    {
      this.proto := proto;
      metadata, state, frames, origin := NoHeader, MessageBegin, [], [];
    }

    ghost predicate CanStep()
      reads this
    {
      Lawful(proto) && Ready(View()) && state != Done
    }

    /** A handler does what one step does; it changes nothing when it waits or throws. */
    twostate predicate Stepped(buffer: Buffer, r: Handled)
      requires old(CanStep())
      reads this, buffer
    {
      match Step(proto, old(View()), old(buffer.data))
      case Moved(m, rest) => r.Next? && r.state != WaitForData && View().(state := r.state) == m && buffer.data == rest
      case Waits => r == Next(WaitForData) && View() == old(View()) && buffer.data == old(buffer.data)
      case Fails => r == Thrown && View() == old(View()) && buffer.data == old(buffer.data)
    }

    /** A read method of the protocol: it drains what it has read. */
    method Read(slot: Slot, buffer: Buffer) returns (r: ReadResult)
      requires Lawful(proto)
      modifies buffer
      ensures r == proto.read(slot, old(buffer.data))
      ensures r.Got? ==> r.used <= |old(buffer.data)|
      ensures buffer.data == if r.Got? then old(buffer.data)[r.used..] else old(buffer.data)
    {
      r := proto.read(slot, buffer.data);
      if r.Got? {
        buffer.Drain(r.used);
      }
    }

    method PopReturnState() returns (s: ProtocolState)
      requires frames != []
      modifies this`frames
      ensures s == StackOf(old(frames)).top.returnState && StackOf(frames) == StackOf(old(frames)).below
    {
      s := frames[|frames| - 1].returnState;
      frames := frames[..|frames| - 1];
    }

    method PushFrame(f: Frame)
      modifies this`frames
      ensures frames == old(frames) + [f] && StackOf(frames) == Push(f, StackOf(old(frames)))
    {
      StackOfPush(frames, f);
      frames := frames + [f];
    }

    /** Pushes the frame of a container whose head has been read, and writes the head. */
    method Enter(head: Token, f: Frame)
      modifies this`frames, this`origin
      ensures View() == old(View()).(stack := Push(f, StackOf(old(frames))), origin := old(origin) + proto.write(head))
    {
      PushFrame(f);
      origin := origin + proto.write(head);
    }

    /** `stack_[index].remaining_--`, where `before` is the stack handleValue was called on. */
    method CountElement(index: nat, ghost before: seq<Frame>)
      requires index == |before| - 1 && before[index].remaining > 0
      requires frames == before || (|frames| == |before| + 1 && frames[..|before|] == before)
      modifies this`frames
      ensures
        var counted := CountDown(StackOf(before));
        StackOf(frames) == if old(frames) == before then counted else Push(old(frames)[|before|], counted)
    {
      StackOfCounted(before, frames);
      frames := frames[index := frames[index].(remaining := frames[index].remaining - 1)];
    }

    method HandleMessageBegin(buffer: Buffer) returns (r: Handled)
      requires CanStep() && state == MessageBegin
      modifies this, buffer
      ensures state == old(state) && Stepped(buffer, r)
    {
      var head := Read(MessageHead, buffer);
      match head
      case More => return Next(WaitForData);
      case Bad => return Thrown;
      case Got(tok, _) =>
        metadata := Known(tok.header);
        frames := [];
        PushFrame(ReturnTo(MessageEnd));
        origin := origin + proto.write(tok);
        return Next(StructBegin);
    }

    method HandleMessageEnd(buffer: Buffer) returns (r: Handled)
      requires CanStep() && state == MessageEnd
      modifies this, buffer
      ensures state == old(state) && Stepped(buffer, r)
    {
      var tail := Read(MessageTail, buffer);
      match tail
      case More => return Next(WaitForData);
      case Bad => return Thrown;
      case Got(tok, _) =>
        origin := origin + proto.write(tok);
        return Next(Done);
    }

    method HandleStructBegin(buffer: Buffer) returns (r: Handled)
      requires CanStep() && state == StructBegin
      modifies this, buffer
      ensures state == old(state) && Stepped(buffer, r)
    {
      var head := Read(StructHead, buffer);
      match head
      case More => return Next(WaitForData);
      case Bad => return Thrown;
      case Got(tok, _) =>
        origin := origin + proto.write(tok);
        return Next(FieldBegin);
    }

    method HandleStructEnd(buffer: Buffer) returns (r: Handled)
      requires CanStep() && state == StructEnd
      modifies this, buffer
      ensures state == old(state) && Stepped(buffer, r)
    {
      var tail := Read(StructTail, buffer);
      match tail
      case More => return Next(WaitForData);
      case Bad => return Thrown;
      case Got(tok, _) =>
        origin := origin + proto.write(STOP_FIELD);
        origin := origin + proto.write(tok);
        var s := PopReturnState();
        return Next(s);
    }

    method HandleFieldBegin(buffer: Buffer) returns (r: Handled)
      requires CanStep() && state == FieldBegin
      modifies this, buffer
      ensures state == old(state) && Stepped(buffer, r)
    {
      var head := Read(FieldHead, buffer);
      match head
      case More => return Next(WaitForData);
      case Bad => return Thrown;
      case Got(tok, _) =>
        if tok.fieldType == Stop {
          return Next(StructEnd);
        }
        PushFrame(Frame(FieldEnd, tok.fieldType, Stop, 0));
        origin := origin + proto.write(tok);
        return Next(FieldValue);
    }

    method HandleFieldValue(buffer: Buffer) returns (r: Handled)
      requires CanStep() && state == FieldValue
      modifies this, buffer
      ensures state == old(state) && Stepped(buffer, r)
    {
      var frame := frames[|frames| - 1];
      r := HandleValue(buffer, frame.elem, frame.returnState);
    }

    method HandleFieldEnd(buffer: Buffer) returns (r: Handled)
      requires CanStep() && state == FieldEnd
      modifies this, buffer
      ensures state == old(state) && Stepped(buffer, r)
    {
      var tail := Read(FieldTail, buffer);
      match tail
      case More => return Next(WaitForData);
      case Bad => return Thrown;
      case Got(tok, _) =>
        var _ := PopReturnState();
        origin := origin + proto.write(tok);
        return Next(FieldBegin);
    }

    method HandleListBegin(buffer: Buffer) returns (r: Handled)
      requires CanStep() && state == ListBegin
      modifies this, buffer
      ensures state == old(state) && Stepped(buffer, r)
    {
      HeadStep(proto, View(), ListHead, buffer.data);
      var head := Read(ListHead, buffer);
      match head
      case More => return Next(WaitForData);
      case Bad => return Thrown;
      case Got(tok, _) =>
        Enter(tok, Frame(ListEnd, tok.elem, Stop, tok.size));
        return Next(ListValue);
    }

    method HandleListValue(buffer: Buffer) returns (r: Handled)
      requires CanStep() && state == ListValue
      modifies this, buffer
      ensures state == old(state) && Stepped(buffer, r)
    {
      var index := |frames| - 1;
      if frames[index].remaining == 0 {
        var s := PopReturnState();
        return Next(s);
      }
      ValueStep(proto, View(), buffer.data);
      r := HandleValue(buffer, frames[index].elem, ListValue);
      if r.Next? && r.state != WaitForData {
        CountElement(index, old(frames));
      }
    }

    method HandleListEnd(buffer: Buffer) returns (r: Handled)
      requires CanStep() && state == ListEnd
      modifies this, buffer
      ensures state == old(state) && Stepped(buffer, r)
    {
      TailStep(proto, View(), ListTail, buffer.data);
      var tail := Read(ListTail, buffer);
      match tail
      case More => return Next(WaitForData);
      case Bad => return Thrown;
      case Got(tok, _) =>
        origin := origin + proto.write(tok);
        var s := PopReturnState();
        return Next(s);
    }

    method HandleMapBegin(buffer: Buffer) returns (r: Handled)
      requires CanStep() && state == MapBegin
      modifies this, buffer
      ensures state == old(state) && Stepped(buffer, r)
    {
      HeadStep(proto, View(), MapHead, buffer.data);
      var head := Read(MapHead, buffer);
      match head
      case More => return Next(WaitForData);
      case Bad => return Thrown;
      case Got(tok, _) =>
        Enter(tok, Frame(MapEnd, tok.key, tok.value, tok.size));
        return Next(MapKey);
    }

    method HandleMapKey(buffer: Buffer) returns (r: Handled)
      requires CanStep() && state == MapKey
      modifies this, buffer
      ensures state == old(state) && Stepped(buffer, r)
    {
      var frame := frames[|frames| - 1];
      if frame.remaining == 0 {
        var s := PopReturnState();
        return Next(s);
      }
      ValueStep(proto, View(), buffer.data);
      r := HandleValue(buffer, frame.elem, MapValue);
    }

    method HandleMapValue(buffer: Buffer) returns (r: Handled)
      requires CanStep() && state == MapValue
      modifies this, buffer
      ensures state == old(state) && Stepped(buffer, r)
    {
      var index := |frames| - 1;
      ValueStep(proto, View(), buffer.data);
      r := HandleValue(buffer, frames[index].value, MapKey);
      if r.Next? && r.state != WaitForData {
        CountElement(index, old(frames));
      }
    }

    method HandleMapEnd(buffer: Buffer) returns (r: Handled)
      requires CanStep() && state == MapEnd
      modifies this, buffer
      ensures state == old(state) && Stepped(buffer, r)
    {
      TailStep(proto, View(), MapTail, buffer.data);
      var tail := Read(MapTail, buffer);
      match tail
      case More => return Next(WaitForData);
      case Bad => return Thrown;
      case Got(tok, _) =>
        origin := origin + proto.write(tok);
        var s := PopReturnState();
        return Next(s);
    }

    method HandleSetBegin(buffer: Buffer) returns (r: Handled)
      requires CanStep() && state == SetBegin
      modifies this, buffer
      ensures state == old(state) && Stepped(buffer, r)
    {
      HeadStep(proto, View(), SetHead, buffer.data);
      var head := Read(SetHead, buffer);
      match head
      case More => return Next(WaitForData);
      case Bad => return Thrown;
      case Got(tok, _) =>
        Enter(tok, Frame(SetEnd, tok.elem, Stop, tok.size));
        return Next(SetValue);
    }

    method HandleSetValue(buffer: Buffer) returns (r: Handled)
      requires CanStep() && state == SetValue
      modifies this, buffer
      ensures state == old(state) && Stepped(buffer, r)
    {
      var index := |frames| - 1;
      if frames[index].remaining == 0 {
        var s := PopReturnState();
        return Next(s);
      }
      ValueStep(proto, View(), buffer.data);
      r := HandleValue(buffer, frames[index].elem, SetValue);
      if r.Next? && r.state != WaitForData {
        CountElement(index, old(frames));
      }
    }

    method HandleSetEnd(buffer: Buffer) returns (r: Handled)
      requires CanStep() && state == SetEnd
      modifies this, buffer
      ensures state == old(state) && Stepped(buffer, r)
    {
      TailStep(proto, View(), SetTail, buffer.data);
      var tail := Read(SetTail, buffer);
      match tail
      case More => return Next(WaitForData);
      case Bad => return Thrown;
      case Got(tok, _) =>
        origin := origin + proto.write(tok);
        var s := PopReturnState();
        return Next(s);
    }

    /** A scalar is copied and `returnState` comes next; for a container `returnState` is pushed
        and its first state comes next; any other type throws. */
    method HandleValue(buffer: Buffer, t: FieldType, returnState: ProtocolState) returns (r: Handled)
      requires Lawful(proto) && returnState != WaitForData
      modifies this`frames, this`origin, buffer
      ensures
        var before := old(buffer.data);
        match ValueDemand(t)
        case Reads(slot) =>
          && frames == old(frames)
          && (match proto.read(slot, before)
              case More => r == Next(WaitForData) && origin == old(origin) && buffer.data == before
              case Bad => r == Thrown && origin == old(origin) && buffer.data == before
              case Got(tok, used) =>
                && r == Next(returnState) && origin == old(origin) + proto.write(tok)
                && used <= |before| && buffer.data == before[used..])
        case Silent =>
          && r == Next(ContainerStart(t)) && frames == old(frames) + [ReturnTo(returnState)]
          && StackOf(frames) == Push(ReturnTo(returnState), StackOf(old(frames)))
          && origin == old(origin) && buffer.data == before
        case Throws => r == Thrown && frames == old(frames) && origin == old(origin) && buffer.data == before
    {
      match t
      case Basic(kind) =>
        var read := Read(ScalarSlot(kind), buffer);
        match read {
          case More => return Next(WaitForData);
          case Bad => return Thrown;
          case Got(tok, _) =>
            origin := origin + proto.write(tok);
            return Next(returnState);
        }
      case Struct =>
        PushFrame(ReturnTo(returnState));
        return Next(StructBegin);
      case Map =>
        PushFrame(ReturnTo(returnState));
        return Next(MapBegin);
      case List =>
        PushFrame(ReturnTo(returnState));
        return Next(ListBegin);
      case Set =>
        PushFrame(ReturnTo(returnState));
        return Next(SetBegin);
      case _ =>
        return Thrown;
    }

    method HandleState(buffer: Buffer) returns (r: Handled)
      requires CanStep()
      modifies this, buffer
      ensures state == old(state) && Stepped(buffer, r)
    {
      match state
      case MessageBegin => r := HandleMessageBegin(buffer);
      case StructBegin => r := HandleStructBegin(buffer);
      case StructEnd => r := HandleStructEnd(buffer);
      case FieldBegin => r := HandleFieldBegin(buffer);
      case FieldValue => r := HandleFieldValue(buffer);
      case FieldEnd => r := HandleFieldEnd(buffer);
      case ListBegin => r := HandleListBegin(buffer);
      case ListValue => r := HandleListValue(buffer);
      case ListEnd => r := HandleListEnd(buffer);
      case MapBegin => r := HandleMapBegin(buffer);
      case MapKey => r := HandleMapKey(buffer);
      case MapValue => r := HandleMapValue(buffer);
      case MapEnd => r := HandleMapEnd(buffer);
      case SetBegin => r := HandleSetBegin(buffer);
      case SetValue => r := HandleSetValue(buffer);
      case SetEnd => r := HandleSetEnd(buffer);
      case MessageEnd => r := HandleMessageEnd(buffer);
    }

    /** The loop computes the whole run: it finishes, suspends or throws as `ThriftRun.Run` says,
        and the machine and the buffer end where that run ends. */
    method Run(buffer: Buffer) returns (r: Handled)
      requires Valid()
      modifies this, buffer
      ensures
        match ThriftRun.Run(proto, old(View()), old(buffer.data))
        case Finished(m, rest) => r == Next(Done) && View() == m && buffer.data == rest && Valid()
        case Suspended(m, rest) => r == Next(WaitForData) && View() == m && buffer.data == rest && Valid()
        case Crashed => r == Thrown
    {
      while state != Done
        invariant Valid()
        invariant ThriftRun.Run(proto, View(), buffer.data) == ThriftRun.Run(proto, old(View()), old(buffer.data))
        decreases 4 * |buffer.data| + Potential(View())
      {
        ghost var m, b := View(), buffer.data;
        var next := HandleState(buffer);
        if next == Thrown || next.state == WaitForData {
          return next;
        }
        state := next.state;
        StepIsValid(proto, m, b);
        StepCost(proto, m, b);
      }
      return Next(Done);
    }
  }
}
