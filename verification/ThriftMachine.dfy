/** The automaton of src/application_protocols/thrift/thrift_codec.cc on values: one step, the
    grammar of its stack, and what its steps cost. */
module ThriftMachine {
  import opened Bytes
  import opened ThriftProtocol

  datatype ProtocolState =
    | WaitForData
    | MessageBegin | MessageEnd
    | StructBegin | StructEnd
    | FieldBegin | FieldValue | FieldEnd
    | MapBegin | MapKey | MapValue | MapEnd
    | ListBegin | ListValue | ListEnd
    | SetBegin | SetValue | SetEnd
    | Done

  datatype Frame = Frame(returnState: ProtocolState, elem: FieldType, value: FieldType, remaining: uint32)

  /** The frame handleValue pushes: only a state to come back to. */
  function ReturnTo(s: ProtocolState): Frame {
    Frame(s, Stop, Stop, 0)
  }

  datatype Stack = Empty | Push(top: Frame, below: Stack)

  function Depth(stack: Stack): nat {
    if stack.Empty? then 0 else 1 + Depth(stack.below)
  }

  /** The stack with one element less to come on its top frame. */
  function CountDown(stack: Stack): (s: Stack)
    requires stack.Push? && stack.top.remaining > 0
  {
    Push(stack.top.(remaining := stack.top.remaining - 1), stack.below)
  }

  datatype Header = NoHeader | Known(header: MessageHeader)

  /** `state_`, `stack_`, `origin_message_` and the part of `metadata_` that readMessageBegin sets. */
  datatype Machine = Machine(state: ProtocolState, stack: Stack, origin: Octets, header: Header)

  const INITIAL := Machine(MessageBegin, Empty, [], NoHeader)

  // The grammar of the stack: which stacks can stand under which state.

  /** The states a completed value can return to. */
  predicate IsReturn(s: ProtocolState) {
    s.MessageEnd? || s.FieldEnd? || s.ListValue? || s.SetValue? || s.MapKey? || s.MapValue?
  }

  /** What the state expects of the top frame. */
  predicate TopFits(state: ProtocolState, stack: Stack) {
    match state
    case WaitForData => false
    case MessageBegin | MessageEnd | Done => stack.Empty?
    case StructBegin | StructEnd | FieldBegin => stack.Push? && IsReturn(stack.top.returnState)
    case ListBegin | ListEnd | SetBegin | SetEnd | MapBegin | MapEnd =>
      stack.Push? && IsReturn(stack.top.returnState) && stack.top.returnState != MessageEnd
    case FieldValue | FieldEnd => stack.Push? && stack.top.returnState == FieldEnd
    case ListValue => stack.Push? && stack.top.returnState == ListEnd
    case SetValue => stack.Push? && stack.top.returnState == SetEnd
    case MapKey => stack.Push? && stack.top.returnState == MapEnd
    case MapValue => stack.Push? && stack.top.returnState == MapEnd && stack.top.remaining > 0
  }

  /** The state that will be current once the top frame is gone. */
  function Beneath(state: ProtocolState, top: Frame): ProtocolState {
    if state.FieldValue? || state.FieldEnd? then FieldBegin else top.returnState
  }

  predicate WellStacked(state: ProtocolState, stack: Stack)
    decreases stack
  {
    TopFits(state, stack) && (stack.Push? ==> WellStacked(Beneath(state, stack.top), stack.below))
  }

  /** Past the message header, `metadata_` holds that header. */
  predicate Valid(m: Machine) {
    WellStacked(m.state, m.stack) && (m.state != MessageBegin ==> m.header.Known?)
  }

  predicate Ready(m: Machine) {
    TopFits(m.state, m.stack)
  }

  // One step.

  /** What the state asks of the input: a token, nothing, or an exception. */
  datatype Demand = Reads(slot: Slot) | Silent | Throws

  /** The states in which handleValue runs. */
  predicate AtValue(m: Machine)
    requires Ready(m)
  {
    || m.state.FieldValue? || m.state.MapValue?
    || ((m.state.ListValue? || m.state.SetValue? || m.state.MapKey?) && m.stack.top.remaining > 0)
  }

  function ValueType(m: Machine): FieldType
    requires Ready(m) && AtValue(m)
  {
    if m.state.MapValue? then m.stack.top.value else m.stack.top.elem
  }

  function ValueReturn(s: ProtocolState): ProtocolState {
    if s.FieldValue? then FieldEnd else if s.MapKey? then MapValue else if s.MapValue? then MapKey else s
  }

  /** The stack once a value has been handled: all but fields and map keys count it. */
  function Counted(m: Machine): (s: Stack)
    requires Ready(m) && AtValue(m)
    ensures s.Push? && s.below == m.stack.below && s.top.returnState == m.stack.top.returnState
  {
    if m.state.FieldValue? || m.state.MapKey? then m.stack else CountDown(m.stack)
  }

  function ContainerStart(t: FieldType): ProtocolState
    requires IsContainer(t)
  {
    match t
    case Struct => StructBegin
    case Map => MapBegin
    case Set => SetBegin
    case List => ListBegin
  }

  function ValueDemand(t: FieldType): Demand {
    if t.Basic? then Reads(ScalarSlot(t.kind)) else if IsContainer(t) then Silent else Throws
  }

  /** The demand of the states that are not about a value. */
  function StateDemand(s: ProtocolState): Demand {
    match s
    case MessageBegin => Reads(MessageHead)
    case MessageEnd => Reads(MessageTail)
    case StructBegin => Reads(StructHead)
    case StructEnd => Reads(StructTail)
    case FieldBegin => Reads(FieldHead)
    case FieldEnd => Reads(FieldTail)
    case ListBegin => Reads(ListHead)
    case ListEnd => Reads(ListTail)
    case SetBegin => Reads(SetHead)
    case SetEnd => Reads(SetTail)
    case MapBegin => Reads(MapHead)
    case MapEnd => Reads(MapTail)
    case _ => Silent
  }

  function DemandOf(m: Machine): Demand
    requires Ready(m) && m.state != Done
  {
    if AtValue(m) then ValueDemand(ValueType(m)) else StateDemand(m.state)
  }

  /** The tokens that push a frame, the frame they push and the state they lead to. */
  predicate Opens(tok: Token) {
    (tok.OpenField? && tok.fieldType != Stop) || tok.OpenList? || tok.OpenSet? || tok.OpenMap?
  }

  function FrameOf(tok: Token): Frame
    requires Opens(tok) && FitsCounter(tok)
  {
    match tok
    case OpenField(_, t, _) => Frame(FieldEnd, t, Stop, 0)
    case OpenList(t, n) => Frame(ListEnd, t, Stop, n)
    case OpenSet(t, n) => Frame(SetEnd, t, Stop, n)
    case OpenMap(k, v, n) => Frame(MapEnd, k, v, n)
  }

  function Inside(tok: Token): ProtocolState
    requires Opens(tok)
  {
    match tok
    case OpenField(_, _, _) => FieldValue
    case OpenList(_, _) => ListValue
    case OpenSet(_, _) => SetValue
    case OpenMap(_, _, _) => MapKey
  }

  /** The machine after the demanded token has been read. */
  function Accept(p: Protocol, m: Machine, tok: Token): Machine
    requires Ready(m) && m.state != Done && DemandOf(m) == Reads(SlotOf(tok)) && FitsCounter(tok)
  {
    var out := m.origin + p.write(tok);
    if Opens(tok) then Machine(Inside(tok), Push(FrameOf(tok), m.stack), out, m.header)
    else if tok.OpenMessage? then Machine(StructBegin, Push(ReturnTo(MessageEnd), Empty), out, Known(tok.header))
    else if tok.CloseMessage? then Machine(Done, m.stack, out, m.header)
    else if tok.OpenStruct? then Machine(FieldBegin, m.stack, out, m.header)
    else if tok.OpenField? then Machine(StructEnd, m.stack, m.origin, m.header)
    else if tok.CloseField? then Machine(FieldBegin, m.stack.below, out, m.header)
    else if tok.Atom? then Machine(ValueReturn(m.state), Counted(m), out, m.header)
    else if tok.CloseStruct? then
      Machine(m.stack.top.returnState, m.stack.below, m.origin + p.write(STOP_FIELD) + p.write(tok), m.header)
    else Machine(m.stack.top.returnState, m.stack.below, out, m.header)
  }

  /** The machine after a step that reads nothing: it opens a container or closes an exhausted one. */
  function Glide(m: Machine): Machine
    requires Ready(m) && m.state != Done && DemandOf(m) == Silent
  {
    if AtValue(m) then
      Machine(ContainerStart(ValueType(m)), Push(ReturnTo(ValueReturn(m.state)), Counted(m)), m.origin, m.header)
    else
      Machine(m.stack.top.returnState, m.stack.below, m.origin, m.header)
  }

  datatype StepResult = Moved(m: Machine, rest: Octets) | Waits | Fails

  function Step(p: Protocol, m: Machine, b: Octets): (r: StepResult)
    requires Lawful(p) && Ready(m) && m.state != Done
    ensures r.Moved? ==> |r.rest| <= |b|
  {
    match DemandOf(m)
    case Throws => Fails
    case Silent => Moved(Glide(m), b)
    case Reads(slot) =>
      match p.read(slot, b)
      case More => Waits
      case Bad => Fails
      case Got(tok, used) => Moved(Accept(p, m, tok), b[used..])
  }

  // The grammar is inductive.

  /** The state in which a slot other than a scalar is read. */
  function StateOf(slot: Slot): ProtocolState
    requires !slot.ScalarSlot?
  {
    match slot
    case MessageHead => MessageBegin
    case MessageTail => MessageEnd
    case StructHead => StructBegin
    case StructTail => StructEnd
    case FieldHead => FieldBegin
    case FieldTail => FieldEnd
    case ListHead => ListBegin
    case ListTail => ListEnd
    case SetHead => SetBegin
    case SetTail => SetEnd
    case MapHead => MapBegin
    case MapTail => MapEnd
  }

  lemma SlotFixesState(m: Machine, slot: Slot)
    requires Ready(m) && m.state != Done && DemandOf(m) == Reads(slot)
    ensures if slot.ScalarSlot? then AtValue(m) && ValueType(m) == Basic(slot.kind) else m.state == StateOf(slot)
  {
  }

  /** Once a value is handled its state can be returned to. */
  lemma ReturnIsWellStacked(m: Machine)
    requires Valid(m) && AtValue(m)
    ensures IsReturn(ValueReturn(m.state)) && WellStacked(ValueReturn(m.state), Counted(m))
  {
  }

  lemma AcceptIsValid(p: Protocol, m: Machine, tok: Token)
    requires Valid(m) && m.state != Done && DemandOf(m) == Reads(SlotOf(tok)) && FitsCounter(tok)
    ensures Valid(Accept(p, m, tok))
  {
    SlotFixesState(m, SlotOf(tok));
    if tok.Atom? {
      ReturnIsWellStacked(m);
    } else if Opens(tok) {
      OpeningIsWellStacked(m, tok);
    }
  }

  /** A frame pushed by a head stands rightly on what was there. */
  lemma OpeningIsWellStacked(m: Machine, tok: Token)
    requires Valid(m) && Opens(tok) && FitsCounter(tok) && m.state == StateOf(SlotOf(tok))
    ensures WellStacked(Inside(tok), Push(FrameOf(tok), m.stack))
  {
    match tok {
      case OpenField(_, _, _) =>
      case OpenList(_, _) =>
      case OpenSet(_, _) =>
      case OpenMap(_, _, _) =>
    }
  }

  /** The stack grammar is inductive, so no assertion about the stack ever fails. */
  lemma StepIsValid(p: Protocol, m: Machine, b: Octets)
    requires Lawful(p) && Valid(m) && m.state != Done && Step(p, m, b).Moved?
    ensures Valid(Step(p, m, b).m)
  {
    match DemandOf(m)
    case Silent =>
      if AtValue(m) {
        ReturnIsWellStacked(m);
      }
    case Reads(slot) => AcceptIsValid(p, m, p.read(slot, b).tok);
  }

  // Steps of one kind.

  /** The step of a list, set or map head: it writes what it reads, and goes inside. */
  lemma HeadStep(p: Protocol, m: Machine, slot: Slot, b: Octets)
    requires Lawful(p) && Ready(m)
    requires
      || (m.state.ListBegin? && slot == ListHead) || (m.state.SetBegin? && slot == SetHead)
      || (m.state.MapBegin? && slot == MapHead)
    ensures
      match p.read(slot, b)
      case More => Step(p, m, b).Waits?
      case Bad => Step(p, m, b).Fails?
      case Got(tok, used) =>
        && SlotOf(tok) == slot && Opens(tok) && FitsCounter(tok) && used <= |b|
        && Step(p, m, b) ==
           Moved(Machine(Inside(tok), Push(FrameOf(tok), m.stack), m.origin + p.write(tok), m.header), b[used..])
  {
  }

  /** The step of a tail: it writes what it reads, and returns through the frame. */
  lemma TailStep(p: Protocol, m: Machine, slot: Slot, b: Octets)
    requires Lawful(p) && Ready(m)
    requires
      || (m.state.FieldEnd? && slot == FieldTail) || (m.state.ListEnd? && slot == ListTail)
      || (m.state.SetEnd? && slot == SetTail) || (m.state.MapEnd? && slot == MapTail)
    ensures
      match p.read(slot, b)
      case More => Step(p, m, b).Waits?
      case Bad => Step(p, m, b).Fails?
      case Got(tok, used) =>
        && used <= |b|
        && Step(p, m, b) ==
           Moved(Machine(Beneath(m.state, m.stack.top), m.stack.below, m.origin + p.write(tok), m.header), b[used..])
  {
  }

  /** The step of a state that handles a value: a scalar is copied, a container is opened with a
      return frame on the counted stack, and any other type throws. */
  lemma ValueStep(p: Protocol, m: Machine, b: Octets)
    requires Lawful(p) && Ready(m) && AtValue(m)
    ensures
      var t, next := ValueType(m), ValueReturn(m.state);
      match ValueDemand(t)
      case Throws => Step(p, m, b).Fails?
      case Silent =>
        Step(p, m, b) ==
        Moved(Machine(ContainerStart(t), Push(ReturnTo(next), Counted(m)), m.origin, m.header), b)
      case Reads(slot) =>
        match p.read(slot, b)
        case More => Step(p, m, b).Waits?
        case Bad => Step(p, m, b).Fails?
        case Got(tok, used) =>
          && used <= |b|
          && Step(p, m, b) == Moved(Machine(next, Counted(m), m.origin + p.write(tok), m.header), b[used..])
  {
  }

  // The cost of steps.

  function PhaseCost(s: ProtocolState): nat {
    match s
    case StructBegin | ListBegin | SetBegin | MapBegin | FieldEnd | MessageEnd => 1
    case FieldValue | ListValue | SetValue | MapKey | MapValue => 2
    case StructEnd | ListEnd | SetEnd | MapEnd => 3
    case _ => 0
  }

  function StackCost(stack: Stack): nat {
    match stack
    case Empty => 0
    case Push(f, below) =>
      StackCost(below) + if f.returnState.ListEnd? || f.returnState.SetEnd? || f.returnState.MapEnd? then 2 else 0
  }

  /** Steps that may still happen without reading anything. */
  function Potential(m: Machine): nat {
    PhaseCost(m.state) + StackCost(m.stack)
  }

  lemma AcceptCost(p: Protocol, m: Machine, tok: Token)
    requires Ready(m) && m.state != Done && DemandOf(m) == Reads(SlotOf(tok)) && FitsCounter(tok)
    ensures Potential(Accept(p, m, tok)) + 1 <= Potential(m) + if Solid(SlotOf(tok)) then 4 else 0
  {
    SlotFixesState(m, SlotOf(tok));
  }

  /** Every step pays for itself out of the potential and four units for each octet it consumes. */
  lemma StepCost(p: Protocol, m: Machine, b: Octets)
    requires Lawful(p) && Ready(m) && m.state != Done && Step(p, m, b).Moved?
    ensures
      var r := Step(p, m, b);
      Potential(r.m) + 1 + 4 * |r.rest| <= Potential(m) + 4 * |b|
  {
    match DemandOf(m)
    case Silent =>
    case Reads(slot) => AcceptCost(p, m, p.read(slot, b).tok);
  }

  // The height of the stack.

  /** Frames on the stack, and the one handleValue may push before reading anything. */
  function Height(m: Machine): nat {
    Depth(m.stack) +
    if m.state.FieldValue? || m.state.ListValue? || m.state.SetValue? || m.state.MapKey? || m.state.MapValue?
    then 1 else 0
  }

  lemma AcceptHeight(p: Protocol, m: Machine, tok: Token)
    requires Ready(m) && m.state != Done && DemandOf(m) == Reads(SlotOf(tok)) && FitsCounter(tok)
    ensures Height(Accept(p, m, tok)) <= Height(m) + if Solid(SlotOf(tok)) then 2 else 0
  {
    SlotFixesState(m, SlotOf(tok));
  }

  lemma GlideHeight(m: Machine)
    requires Ready(m) && m.state != Done && DemandOf(m) == Silent
    ensures Height(Glide(m)) <= Height(m)
  {
    if AtValue(m) {
      assert Depth(Counted(m)) == 1 + Depth(m.stack.below);
      assert Depth(Push(ReturnTo(ValueReturn(m.state)), Counted(m))) == 1 + Depth(Counted(m));
    } else {
      assert Depth(m.stack) == 1 + Depth(m.stack.below);
    }
  }

  /** A step raises the stack by at most two frames for each octet it consumes. */
  lemma StepHeight(p: Protocol, m: Machine, b: Octets)
    requires Lawful(p) && Ready(m) && m.state != Done && Step(p, m, b).Moved?
    ensures
      var r := Step(p, m, b);
      Height(r.m) + 2 * |r.rest| <= Height(m) + 2 * |b|
  {
    match DemandOf(m)
    case Silent =>
      GlideHeight(m);
      assert Step(p, m, b) == Moved(Glide(m), b);
    case Reads(slot) => AcceptHeight(p, m, p.read(slot, b).tok);
  }

  /** More input behind the octets a step looked at changes nothing but the rest. */
  lemma StepIsStable(p: Protocol, m: Machine, b: Octets, s: Octets)
    requires Lawful(p) && Ready(m) && m.state != Done && !Step(p, m, b).Waits?
    ensures
      var r := Step(p, m, b);
      Step(p, m, b + s) == if r.Moved? then Moved(r.m, r.rest + s) else Fails
  {
    match DemandOf(m)
    case Reads(slot) =>
      assert p.read(slot, b + s) == p.read(slot, b);
      if p.read(slot, b).Got? {
        var used := p.read(slot, b).used;
        assert (b + s)[used..] == b[used..] + s;
        assert Step(p, m, b + s) == Moved(Accept(p, m, p.read(slot, b).tok), (b + s)[used..]);
      }
    case Silent => assert Step(p, m, b + s) == Moved(Glide(m), b + s);
    case Throws =>
  }
}
