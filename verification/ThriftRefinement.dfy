/** The Thrift automaton refines the recursive-descent parser followed by the encoder: its stack,
    read as a continuation, says what is still to be parsed and what is still to be written. */
module ThriftRefinement {
  import opened Bytes
  import opened ThriftProtocol
  import opened ThriftTree
  import opened ThriftMachine
  import opened ThriftRun

  /** Writing `out` ahead of everything a parse still has to write. */
  function After(out: Octets, r: Parsed<Octets>): Parsed<Octets> {
    if r.Ok? then Ok(out + r.value, r.rest) else r
  }

  lemma AfterAfter(a: Octets, b: Octets, r: Parsed<Octets>)
    ensures After(a, After(b, r)) == After(a + b, r)
  {
    if r.Ok? {
      Regroup2(a, b, r.value);
    }
  }

  lemma AfterNothing(r: Parsed<Octets>)
    ensures After([], r) == r
  {
    if r.Ok? {
      assert [] + r.value == r.value;
    }
  }

  /** What a state with `top` on the stack parses and writes until `top` is gone. */
  function Block(p: Protocol, state: ProtocolState, top: Frame, b: Octets): Parsed<Octets>
    requires Lawful(p)
  {
    match state
    case StructBegin => Encoded(p, ParseStruct(p, b))
    case ListBegin => Encoded(p, ParseList(p, b))
    case SetBegin => Encoded(p, ParseSet(p, b))
    case MapBegin => Encoded(p, ParseMap(p, b))
    case FieldBegin => Fielded(p, ParseFields(p, b))
    case StructEnd => After(p.write(STOP_FIELD), Tail(p, StructTail, b))
    case FieldValue =>
      var (out, b0) :- Encoded(p, ParseTree(p, top.elem, b));
      After(out, Tail(p, FieldTail, b0))
    case FieldEnd => Tail(p, FieldTail, b)
    case ListValue | SetValue => Several(p, top.elem, top.remaining, b)
    case ListEnd => Tail(p, ListTail, b)
    case SetEnd => Tail(p, SetTail, b)
    case MapKey => Pairs(p, top.elem, top.value, top.remaining, b)
    case MapValue =>
      var (out, b0) :- Encoded(p, ParseTree(p, top.value, b));
      After(out, if top.remaining == 0 then Wrong else Pairs(p, top.elem, top.value, top.remaining - 1, b0))
    case MapEnd => Tail(p, MapTail, b)
    case _ => Wrong
  }

  function Encoded(p: Protocol, r: Parsed<Tree>): Parsed<Octets> {
    var (tree, rest) :- r;
    Ok(Encode(p, tree), rest)
  }

  /** Parsed fields, and the stop field and struct end behind them. */
  function Fielded(p: Protocol, r: Parsed<Fields>): Parsed<Octets>
    requires Lawful(p)
  {
    var (fields, b) :- r;
    After(EncodeFields(p, fields) + p.write(STOP_FIELD), Tail(p, StructTail, b))
  }

  function Tail(p: Protocol, slot: Slot, b: Octets): Parsed<Octets>
    requires Lawful(p)
  {
    var (tail, rest) :- ReadToken(p, slot, b);
    Ok(p.write(tail), rest)
  }

  function Several(p: Protocol, elem: FieldType, n: nat, b: Octets): Parsed<Octets>
    requires Lawful(p)
  {
    var (items, rest) :- ParseItems(p, elem, n, b);
    Ok(EncodeItems(p, items), rest)
  }

  function Pairs(p: Protocol, key: FieldType, value: FieldType, n: nat, b: Octets): Parsed<Octets>
    requires Lawful(p)
  {
    var (entries, rest) :- ParseEntries(p, key, value, n, b);
    Ok(EncodeEntries(p, entries), rest)
  }

  /** The meaning of a state and a stack: parse what they expect, and collect what that writes. */
  function Denote(p: Protocol, state: ProtocolState, stack: Stack, b: Octets): Parsed<Octets>
    requires Lawful(p)
    decreases stack
  {
    match stack
    case Empty => Outermost(p, state, b)
    case Push(top, below) =>
      var (out, rest) :- Block(p, state, top, b);
      After(out, Denote(p, Beneath(state, top), below, rest))
  }

  function Outermost(p: Protocol, state: ProtocolState, b: Octets): Parsed<Octets>
    requires Lawful(p)
  {
    match state
    case MessageBegin =>
      var (message, b0) :- ParseMessage(p, b);
      Ok(EncodeMessage(p, message), b0)
    case MessageEnd => Tail(p, MessageTail, b)
    case Done => Ok([], b)
    case _ => Wrong
  }

  /** Everything the machine will have written when the message is done, and what it will leave. */
  function Meaning(p: Protocol, m: Machine, b: Octets): Parsed<Octets>
    requires Lawful(p)
  {
    After(m.origin, Denote(p, m.state, m.stack, b))
  }

  /** A value of type `t` and then the state and stack it returns to. */
  function Expect(p: Protocol, t: FieldType, state: ProtocolState, stack: Stack, b: Octets): Parsed<Octets>
    requires Lawful(p)
  {
    var (out, rest) :- Encoded(p, ParseTree(p, t, b));
    After(out, Denote(p, state, stack, rest))
  }

  // States in which handleValue runs.

  lemma ElementDenotes(p: Protocol, state: ProtocolState, stack: Stack, b: Octets)
    requires Lawful(p) && stack.Push? && stack.top.remaining > 0 && (state.ListValue? || state.SetValue?)
    ensures Denote(p, state, stack, b) == Expect(p, stack.top.elem, state, CountDown(stack), b)
  {
    var t, n := stack.top.elem, stack.top.remaining;
    var first := ParseTree(p, t, b);
    if first.Ok? {
      var rest := ParseItems(p, t, n - 1, first.rest);
      if rest.Ok? {
        AfterAfter(Encode(p, first.value), EncodeItems(p, rest.value),
                   Denote(p, stack.top.returnState, stack.below, rest.rest));
      }
    }
  }

  lemma KeyDenotes(p: Protocol, stack: Stack, b: Octets)
    requires Lawful(p) && stack.Push? && stack.top.remaining > 0
    ensures Denote(p, MapKey, stack, b) == Expect(p, stack.top.elem, MapValue, stack, b)
  {
    var k, v, n := stack.top.elem, stack.top.value, stack.top.remaining;
    var key := ParseTree(p, k, b);
    if key.Ok? {
      var value := ParseTree(p, v, key.rest);
      if value.Ok? {
        var rest := ParseEntries(p, k, v, n - 1, value.rest);
        if rest.Ok? {
          Regroup2(Encode(p, key.value), Encode(p, value.value), EncodeEntries(p, rest.value));
          AfterAfter(Encode(p, key.value), Encode(p, value.value) + EncodeEntries(p, rest.value),
                     Denote(p, stack.top.returnState, stack.below, rest.rest));
        }
      }
    }
  }

  lemma MappedDenotes(p: Protocol, stack: Stack, b: Octets)
    requires Lawful(p) && stack.Push? && stack.top.remaining > 0
    ensures Denote(p, MapValue, stack, b) == Expect(p, stack.top.value, MapKey, CountDown(stack), b)
  {
    var k, v, n := stack.top.elem, stack.top.value, stack.top.remaining;
    var value := ParseTree(p, v, b);
    if value.Ok? {
      var rest := Pairs(p, k, v, n - 1, value.rest);
      if rest.Ok? {
        AfterAfter(Encode(p, value.value), rest.value, Denote(p, stack.top.returnState, stack.below, rest.rest));
      }
    }
  }

  lemma FieldValueDenotes(p: Protocol, stack: Stack, b: Octets)
    requires Lawful(p) && stack.Push?
    ensures Denote(p, FieldValue, stack, b) == Expect(p, stack.top.elem, FieldEnd, stack, b)
  {
    var value := ParseTree(p, stack.top.elem, b);
    if value.Ok? {
      var tail := Tail(p, FieldTail, value.rest);
      if tail.Ok? {
        AfterAfter(Encode(p, value.value), tail.value, Denote(p, FieldBegin, stack.below, tail.rest));
      }
    }
  }

  /** In every state where handleValue runs, the machine expects a value and then the return state. */
  lemma ValueDenotes(p: Protocol, m: Machine, b: Octets)
    requires Lawful(p) && Ready(m) && AtValue(m)
    ensures Denote(p, m.state, m.stack, b) == Expect(p, ValueType(m), ValueReturn(m.state), Counted(m), b)
  {
    if m.state.FieldValue? {
      FieldValueDenotes(p, m.stack, b);
    } else if m.state.MapKey? {
      KeyDenotes(p, m.stack, b);
    } else if m.state.MapValue? {
      MappedDenotes(p, m.stack, b);
    } else {
      ElementDenotes(p, m.state, m.stack, b);
    }
  }

  /** Opening a container with a return frame expects that container and then the return state. */
  lemma ContainerDenotes(p: Protocol, t: FieldType, ret: ProtocolState, stack: Stack, b: Octets)
    requires Lawful(p) && IsContainer(t)
    ensures Denote(p, ContainerStart(t), Push(ReturnTo(ret), stack), b) == Expect(p, t, ret, stack, b)
  {
  }

  // Steps keep the meaning.

  lemma GlideKeepsMeaning(p: Protocol, m: Machine, b: Octets)
    requires Lawful(p) && Ready(m) && m.state != Done && DemandOf(m) == Silent
    ensures Meaning(p, Glide(m), b) == Meaning(p, m, b)
  {
    if AtValue(m) {
      ValueDenotes(p, m, b);
      ContainerDenotes(p, ValueType(m), ValueReturn(m.state), Counted(m), b);
    } else {
      AfterNothing(Denote(p, m.stack.top.returnState, m.stack.below, b));
    }
  }

  function LeafOf(r: Parsed<Token>): Parsed<Tree>
    requires r.Ok? ==> r.value.Atom?
  {
    var (atom, b) :- r;
    Ok(Leaf(atom.scalar), b)
  }

  lemma LeafParses(p: Protocol, kind: BasicKind, b: Octets)
    requires Lawful(p)
    ensures
      var atom := ReadToken(p, ScalarSlot(kind), b);
      (atom.Ok? ==> atom.value.Atom?) && ParseTree(p, Basic(kind), b) == LeafOf(atom)
  {
  }

  lemma LeafIsWritten(p: Protocol, kind: BasicKind, b: Octets)
    requires Lawful(p)
    ensures
      var atom := ReadToken(p, ScalarSlot(kind), b);
      Encoded(p, ParseTree(p, Basic(kind), b)) ==
      if atom.Ok? then Ok(p.write(atom.value), atom.rest) else if atom.Short? then Short else Wrong
  {
    LeafParses(p, kind, b);
  }

  lemma AtomKeepsMeaning(p: Protocol, m: Machine, b: Octets)
    requires Lawful(p) && Ready(m) && AtValue(m) && ValueType(m).Basic?
    ensures
      var r := Step(p, m, b);
      Meaning(p, m, b) == if r.Moved? then Meaning(p, r.m, r.rest) else if r.Waits? then Short else Wrong
  {
    ValueDenotes(p, m, b);
    ValueStep(p, m, b);
    LeafIsWritten(p, ValueType(m).kind, b);
    var atom := ReadToken(p, ScalarSlot(ValueType(m).kind), b);
    if atom.Ok? {
      AfterAfter(m.origin, p.write(atom.value), Denote(p, ValueReturn(m.state), Counted(m), atom.rest));
    }
  }

  /** What a read step makes of the meaning. */
  predicate Keeps(p: Protocol, m: Machine, b: Octets)
    requires Lawful(p) && Ready(m) && m.state != Done
  {
    match Step(p, m, b)
    case Moved(m1, b1) => Meaning(p, m1, b1) == Meaning(p, m, b)
    case Waits => Meaning(p, m, b) == Short
    case Fails => Meaning(p, m, b) == Wrong
  }

  lemma MessageHeadDenotes(p: Protocol, b: Octets)
    requires Lawful(p) && ReadToken(p, MessageHead, b).Ok?
    ensures
      var head := ReadToken(p, MessageHead, b);
      Denote(p, MessageBegin, Empty, b) ==
      After(p.write(head.value), Denote(p, StructBegin, Push(ReturnTo(MessageEnd), Empty), head.rest))
  {
    var head := ReadToken(p, MessageHead, b);
    MessageParses(p, b);
    BodyInFront(p, head.value, ParseStruct(p, head.rest));
    StructReturns(p, head.rest);
  }

  /** A message as its header, its body and its end. */
  function Messaged(p: Protocol, head: Token, r: Parsed<Tree>): Parsed<Message>
    requires Lawful(p) && head.OpenMessage?
  {
    var (body, b) :- r;
    var (tail, rest) :- ReadToken(p, MessageTail, b);
    Ok(Message(head.header, body), rest)
  }

  /** What the body and the end of a message write. */
  function Closed(p: Protocol, r: Parsed<Tree>): Parsed<Octets>
    requires Lawful(p)
  {
    var (body, b) :- r;
    After(Encode(p, body), Tail(p, MessageTail, b))
  }

  lemma MessageParses(p: Protocol, b: Octets)
    requires Lawful(p) && ReadToken(p, MessageHead, b).Ok?
    ensures
      var head := ReadToken(p, MessageHead, b);
      && head.value.OpenMessage?
      && ParseMessage(p, b) == Messaged(p, head.value, ParseStruct(p, head.rest))
  {
    var head := ReadToken(p, MessageHead, b);
    assert ParseTree(p, Struct, head.rest) == ParseStruct(p, head.rest);
  }

  lemma BodyInFront(p: Protocol, head: Token, r: Parsed<Tree>)
    requires Lawful(p) && head.OpenMessage?
    ensures
      var m := Messaged(p, head, r);
      (if m.Ok? then Ok(EncodeMessage(p, m.value), m.rest) else if m.Short? then Short else Wrong) ==
      After(p.write(head), Closed(p, r))
  {
    if r.Ok? {
      var tail := Tail(p, MessageTail, r.rest);
      if tail.Ok? {
        assert ReadToken(p, MessageTail, r.rest).value == CloseMessage;
        Regroup2(p.write(head), Encode(p, r.value), tail.value);
      }
    }
  }

  /** The body of a message returns to the end of it. */
  lemma StructReturns(p: Protocol, b: Octets)
    requires Lawful(p)
    ensures Denote(p, StructBegin, Push(ReturnTo(MessageEnd), Empty), b) == Closed(p, ParseStruct(p, b))
  {
    var body := ParseStruct(p, b);
    if body.Ok? {
      assert Denote(p, MessageEnd, Empty, body.rest) == Tail(p, MessageTail, body.rest);
    }
  }

  lemma MessageHeadKeeps(p: Protocol, m: Machine, b: Octets)
    requires Lawful(p) && Ready(m) && m.state == MessageBegin
    ensures Keeps(p, m, b)
  {
    var head := ReadToken(p, MessageHead, b);
    if head.Ok? {
      MessageHeadDenotes(p, b);
      AfterAfter(m.origin, p.write(head.value),
                 Denote(p, StructBegin, Push(ReturnTo(MessageEnd), Empty), head.rest));
    }
  }

  lemma MessageTailKeeps(p: Protocol, m: Machine, b: Octets)
    requires Lawful(p) && Ready(m) && m.state == MessageEnd
    ensures Keeps(p, m, b)
  {
    var tail := Tail(p, MessageTail, b);
    if tail.Ok? {
      assert m.origin + tail.value + [] == m.origin + tail.value;
    }
  }

  /** A struct as its head, and the fields and struct end behind it. */
  function Structured(p: Protocol, head: Token, r: Parsed<Fields>): Parsed<Tree>
    requires Lawful(p) && head.OpenStruct?
  {
    var (fields, b) :- r;
    var (tail, rest) :- ReadToken(p, StructTail, b);
    Ok(StructNode(head.name, fields), rest)
  }

  lemma StructParses(p: Protocol, b: Octets)
    requires Lawful(p) && ReadToken(p, StructHead, b).Ok?
    ensures
      var head := ReadToken(p, StructHead, b);
      head.value.OpenStruct? && ParseStruct(p, b) == Structured(p, head.value, ParseFields(p, head.rest))
  {
  }

  lemma StructInFront(p: Protocol, head: Token, r: Parsed<Fields>)
    requires Lawful(p) && head.OpenStruct?
    ensures Encoded(p, Structured(p, head, r)) == After(p.write(head), Fielded(p, r))
  {
    if r.Ok? {
      var tail := Tail(p, StructTail, r.rest);
      var f, s := EncodeFields(p, r.value), p.write(STOP_FIELD);
      if tail.Ok? {
        assert ReadToken(p, StructTail, r.rest).value == CloseStruct;
        Regroup3(p.write(head), f, s, tail.value);
        Regroup2(f, s, tail.value);
      }
    }
  }

  lemma StructHeadDenotes(p: Protocol, stack: Stack, b: Octets)
    requires Lawful(p) && stack.Push? && ReadToken(p, StructHead, b).Ok?
    ensures
      var head := ReadToken(p, StructHead, b);
      Denote(p, StructBegin, stack, b) == After(p.write(head.value), Denote(p, FieldBegin, stack, head.rest))
  {
    var head := ReadToken(p, StructHead, b);
    StructParses(p, b);
    StructInFront(p, head.value, ParseFields(p, head.rest));
    BlockInFront(p, StructBegin, p.write(head.value), stack, b, head.rest);
  }

  /** What is written ahead of a block of fields is written ahead of all it denotes. */
  lemma BlockInFront(p: Protocol, state: ProtocolState, out: Octets, stack: Stack, b: Octets, b1: Octets)
    requires Lawful(p) && stack.Push? && (state.StructBegin? || state.FieldBegin?)
    requires Block(p, state, stack.top, b) == After(out, Block(p, FieldBegin, stack.top, b1))
    ensures Denote(p, state, stack, b) == After(out, Denote(p, FieldBegin, stack, b1))
  {
    var block := Block(p, FieldBegin, stack.top, b1);
    if block.Ok? {
      AfterAfter(out, block.value, Denote(p, stack.top.returnState, stack.below, block.rest));
    }
  }

  /** The step of a struct head: it writes what it reads. */
  lemma StructHeadStep(p: Protocol, m: Machine, b: Octets)
    requires Lawful(p) && Ready(m) && m.state == StructBegin
    ensures
      var head := ReadToken(p, StructHead, b);
      match Step(p, m, b)
      case Moved(m1, b1) =>
        && head.Ok? && b1 == head.rest && m1.origin == m.origin + p.write(head.value)
        && m1.state == FieldBegin && m1.stack == m.stack
      case Waits => head.Short?
      case Fails => head.Wrong?
  {
  }

  lemma StructHeadKeeps(p: Protocol, m: Machine, b: Octets)
    requires Lawful(p) && Ready(m) && m.state == StructBegin
    ensures Keeps(p, m, b)
  {
    StructHeadStep(p, m, b);
    var head := ReadToken(p, StructHead, b);
    if head.Ok? {
      StructHeadDenotes(p, m.stack, b);
      AfterAfter(m.origin, p.write(head.value), Denote(p, FieldBegin, m.stack, head.rest));
    }
  }

  lemma StructTailKeeps(p: Protocol, m: Machine, b: Octets)
    requires Lawful(p) && Ready(m) && m.state == StructEnd
    ensures Keeps(p, m, b)
  {
    var tail := Tail(p, StructTail, b);
    if tail.Ok? {
      Regroup2(m.origin, p.write(STOP_FIELD), tail.value);
      AfterAfter(m.origin, p.write(STOP_FIELD) + tail.value,
                 Denote(p, m.stack.top.returnState, m.stack.below, tail.rest));
    }
  }

  lemma StopFieldKeeps(p: Protocol, stack: Stack, b: Octets)
    requires Lawful(p) && stack.Push?
    requires ReadToken(p, FieldHead, b).Ok? && ReadToken(p, FieldHead, b).value.fieldType == Stop
    ensures Denote(p, FieldBegin, stack, b) == Denote(p, StructEnd, stack, ReadToken(p, FieldHead, b).rest)
  {
    assert [] + p.write(STOP_FIELD) == p.write(STOP_FIELD);
  }

  lemma NextFieldKeeps(p: Protocol, stack: Stack, b: Octets)
    requires Lawful(p) && stack.Push?
    requires ReadToken(p, FieldHead, b).Ok? && ReadToken(p, FieldHead, b).value.fieldType != Stop
    ensures
      var head := ReadToken(p, FieldHead, b);
      var inner := Push(FrameOf(head.value), stack);
      Denote(p, FieldBegin, stack, b) == After(p.write(head.value), Denote(p, FieldValue, inner, head.rest))
  {
    var head := ReadToken(p, FieldHead, b);
    var tree := ParseTree(p, head.value.fieldType, head.rest);
    if tree.Ok? && ReadToken(p, FieldTail, tree.rest).Ok? {
      WholeFieldKeeps(p, stack, b);
    }
  }

  lemma WholeFieldKeeps(p: Protocol, stack: Stack, b: Octets)
    requires Lawful(p) && stack.Push?
    requires ReadToken(p, FieldHead, b).Ok? && ReadToken(p, FieldHead, b).value.fieldType != Stop
    requires
      var head := ReadToken(p, FieldHead, b);
      var tree := ParseTree(p, head.value.fieldType, head.rest);
      tree.Ok? && ReadToken(p, FieldTail, tree.rest).Ok?
    ensures
      var head := ReadToken(p, FieldHead, b);
      var inner := Push(FrameOf(head.value), stack);
      Denote(p, FieldBegin, stack, b) == After(p.write(head.value), Denote(p, FieldValue, inner, head.rest))
  {
    var head := ReadToken(p, FieldHead, b);
    var tree := ParseTree(p, head.value.fieldType, head.rest);
    var tail := ReadToken(p, FieldTail, tree.rest);
    var h, t, c := p.write(head.value), Encode(p, tree.value), p.write(tail.value);
    var after := Denote(p, FieldBegin, stack, tail.rest);
    FieldsAreFramed(p, stack.top, b);
    BlockInFront(p, FieldBegin, h + t + c, stack, b, tail.rest);
    FieldInside(p, FrameOf(head.value), stack, head.rest);
    AfterAfter(h, t + c, after);
    Regroup2(h, t, c);
  }

  /** Fields are one field in front of fields. */
  lemma FieldsAreFramed(p: Protocol, top: Frame, b: Octets)
    requires Lawful(p)
    requires ReadToken(p, FieldHead, b).Ok? && ReadToken(p, FieldHead, b).value.fieldType != Stop
    requires
      var head := ReadToken(p, FieldHead, b);
      var tree := ParseTree(p, head.value.fieldType, head.rest);
      tree.Ok? && ReadToken(p, FieldTail, tree.rest).Ok?
    ensures
      var head := ReadToken(p, FieldHead, b);
      var tree := ParseTree(p, head.value.fieldType, head.rest);
      var tail := ReadToken(p, FieldTail, tree.rest);
      Block(p, FieldBegin, top, b) ==
      After(p.write(head.value) + Encode(p, tree.value) + p.write(tail.value), Block(p, FieldBegin, top, tail.rest))
  {
    var head := ReadToken(p, FieldHead, b);
    var tree := ParseTree(p, head.value.fieldType, head.rest);
    var tail := ReadToken(p, FieldTail, tree.rest);
    FieldsParse(p, b);
    FieldInFront(p, head.value, tree.value, tail.value, ParseFields(p, tail.rest));
  }

  lemma FieldInFront(p: Protocol, head: Token, tree: Tree, tail: Token, fields: Parsed<Fields>)
    requires Lawful(p) && head.OpenField? && tail == CloseField
    requires head == OpenField(head.fieldName, TypeOf(tree), head.id)
    ensures
      Fielded(p, Prepended(head, tree, fields)) ==
      After(p.write(head) + Encode(p, tree) + p.write(tail), Fielded(p, fields))
  {
    if fields.Ok? {
      var out, f := p.write(head) + Encode(p, tree) + p.write(tail), EncodeFields(p, fields.value);
      AfterAfter(out, f + p.write(STOP_FIELD), Tail(p, StructTail, fields.rest));
      Regroup2(out, f, p.write(STOP_FIELD));
    }
  }

  /** What the frame of a field denotes when its value and its tail are there. */
  lemma FieldInside(p: Protocol, f: Frame, stack: Stack, b: Octets)
    requires Lawful(p)
    requires ParseTree(p, f.elem, b).Ok? && ReadToken(p, FieldTail, ParseTree(p, f.elem, b).rest).Ok?
    ensures
      var tree := ParseTree(p, f.elem, b);
      var tail := ReadToken(p, FieldTail, tree.rest);
      Denote(p, FieldValue, Push(f, stack), b) ==
      After(Encode(p, tree.value) + p.write(tail.value), Denote(p, Beneath(FieldValue, f), stack, tail.rest))
  {
  }

  lemma FieldHeadKeeps(p: Protocol, m: Machine, b: Octets)
    requires Lawful(p) && Ready(m) && m.state == FieldBegin
    ensures Keeps(p, m, b)
  {
    var head := ReadToken(p, FieldHead, b);
    if head.Ok? {
      if head.value.fieldType == Stop {
        StopFieldKeeps(p, m.stack, b);
      } else {
        NextFieldKeeps(p, m.stack, b);
        AfterAfter(m.origin, p.write(head.value),
                   Denote(p, FieldValue, Push(FrameOf(head.value), m.stack), head.rest));
      }
    }
  }

  /** The tails of fields, lists, sets and maps. */
  lemma TailKeeps(p: Protocol, m: Machine, slot: Slot, b: Octets)
    requires Lawful(p) && Ready(m)
    requires
      || (m.state.FieldEnd? && slot == FieldTail) || (m.state.ListEnd? && slot == ListTail)
      || (m.state.SetEnd? && slot == SetTail) || (m.state.MapEnd? && slot == MapTail)
    ensures Keeps(p, m, b)
  {
    TailStep(p, m, slot, b);
    var tail := Tail(p, slot, b);
    assert Block(p, m.state, m.stack.top, b) == tail;
    if tail.Ok? {
      AfterAfter(m.origin, tail.value, Denote(p, Beneath(m.state, m.stack.top), m.stack.below, tail.rest));
    }
  }

  /** A container as its head, its content and its tail. */
  function Framed(h: Octets, content: Parsed<Octets>, tail: Parsed<Octets>): Parsed<Octets> {
    if !content.Ok? then content
    else if !tail.Ok? then tail
    else Ok(h + content.value + tail.value, tail.rest)
  }

  /** The head of a container in front of what its frame denotes. */
  lemma HeadInFront(
      p: Protocol, begin: ProtocolState, end: ProtocolState, h: Octets, content: Parsed<Octets>, tail: Parsed<Octets>,
      inside: Parsed<Octets>, stack: Stack, b: Octets)
    requires Lawful(p) && stack.Push?
    requires begin.ListBegin? || begin.SetBegin? || begin.MapBegin?
    requires end.ListEnd? || end.SetEnd? || end.MapEnd?
    requires Block(p, begin, stack.top, b) == Framed(h, content, tail)
    requires content.Ok? ==> tail == Block(p, end, stack.top, content.rest)
    requires inside == if content.Ok? then After(content.value, Denote(p, end, stack, content.rest)) else content
    ensures Denote(p, begin, stack, b) == After(h, inside)
  {
    if content.Ok? {
      AfterAfter(h, content.value, Denote(p, end, stack, content.rest));
      if tail.Ok? {
        AfterAfter(h + content.value, tail.value, Denote(p, stack.top.returnState, stack.below, tail.rest));
      }
    }
  }

  lemma ListIsFramed(p: Protocol, top: Frame, b: Octets)
    requires Lawful(p) && ReadToken(p, ListHead, b).Ok?
    ensures
      var head := ReadToken(p, ListHead, b);
      var content := Several(p, head.value.elem, head.value.size, head.rest);
      Block(p, ListBegin, top, b) ==
      Framed(p.write(head.value), content, if content.Ok? then Tail(p, ListTail, content.rest) else Wrong)
  {
  }

  lemma SetIsFramed(p: Protocol, top: Frame, b: Octets)
    requires Lawful(p) && ReadToken(p, SetHead, b).Ok?
    ensures
      var head := ReadToken(p, SetHead, b);
      var content := Several(p, head.value.elem, head.value.size, head.rest);
      Block(p, SetBegin, top, b) ==
      Framed(p.write(head.value), content, if content.Ok? then Tail(p, SetTail, content.rest) else Wrong)
  {
  }

  lemma MapIsFramed(p: Protocol, top: Frame, b: Octets)
    requires Lawful(p) && ReadToken(p, MapHead, b).Ok?
    ensures
      var head := ReadToken(p, MapHead, b);
      var content := Pairs(p, head.value.key, head.value.value, head.value.size, head.rest);
      Block(p, MapBegin, top, b) ==
      Framed(p.write(head.value), content, if content.Ok? then Tail(p, MapTail, content.rest) else Wrong)
  {
  }

  /** What a frame of elements denotes. */
  lemma ItemsInside(p: Protocol, state: ProtocolState, f: Frame, stack: Stack, b: Octets)
    requires Lawful(p) && (state.ListValue? || state.SetValue?)
    ensures
      var content := Several(p, f.elem, f.remaining, b);
      Denote(p, state, Push(f, stack), b) ==
      if content.Ok? then After(content.value, Denote(p, Beneath(state, f), stack, content.rest)) else content
  {
  }

  lemma EntriesInside(p: Protocol, f: Frame, stack: Stack, b: Octets)
    requires Lawful(p)
    ensures
      var content := Pairs(p, f.elem, f.value, f.remaining, b);
      Denote(p, MapKey, Push(f, stack), b) ==
      if content.Ok? then After(content.value, Denote(p, Beneath(MapKey, f), stack, content.rest)) else content
  {
  }

  lemma ListHeadDenotes(p: Protocol, stack: Stack, b: Octets)
    requires Lawful(p) && stack.Push? && ReadToken(p, ListHead, b).Ok?
    ensures
      var head := ReadToken(p, ListHead, b);
      Denote(p, ListBegin, stack, b) ==
      After(p.write(head.value), Denote(p, ListValue, Push(FrameOf(head.value), stack), head.rest))
  {
    var head := ReadToken(p, ListHead, b);
    var f := FrameOf(head.value);
    var content := Several(p, f.elem, f.remaining, head.rest);
    ListIsFramed(p, stack.top, b);
    ItemsInside(p, ListValue, f, stack, head.rest);
    HeadInFront(p, ListBegin, ListEnd, p.write(head.value), content,
                if content.Ok? then Tail(p, ListTail, content.rest) else Wrong,
                Denote(p, ListValue, Push(f, stack), head.rest), stack, b);
  }

  lemma SetHeadDenotes(p: Protocol, stack: Stack, b: Octets)
    requires Lawful(p) && stack.Push? && ReadToken(p, SetHead, b).Ok?
    ensures
      var head := ReadToken(p, SetHead, b);
      Denote(p, SetBegin, stack, b) ==
      After(p.write(head.value), Denote(p, SetValue, Push(FrameOf(head.value), stack), head.rest))
  {
    var head := ReadToken(p, SetHead, b);
    var f := FrameOf(head.value);
    var content := Several(p, f.elem, f.remaining, head.rest);
    SetIsFramed(p, stack.top, b);
    ItemsInside(p, SetValue, f, stack, head.rest);
    HeadInFront(p, SetBegin, SetEnd, p.write(head.value), content,
                if content.Ok? then Tail(p, SetTail, content.rest) else Wrong,
                Denote(p, SetValue, Push(f, stack), head.rest), stack, b);
  }

  lemma MapHeadDenotes(p: Protocol, stack: Stack, b: Octets)
    requires Lawful(p) && stack.Push? && ReadToken(p, MapHead, b).Ok?
    ensures
      var head := ReadToken(p, MapHead, b);
      Denote(p, MapBegin, stack, b) ==
      After(p.write(head.value), Denote(p, MapKey, Push(FrameOf(head.value), stack), head.rest))
  {
    var head := ReadToken(p, MapHead, b);
    var f := FrameOf(head.value);
    var content := Pairs(p, f.elem, f.value, f.remaining, head.rest);
    MapIsFramed(p, stack.top, b);
    EntriesInside(p, f, stack, head.rest);
    assert Beneath(MapKey, f) == MapEnd;
    HeadInFront(p, MapBegin, MapEnd, p.write(head.value), content,
                if content.Ok? then Tail(p, MapTail, content.rest) else Wrong,
                Denote(p, MapKey, Push(f, stack), head.rest), stack, b);
  }

  /** A head that goes inside keeps the meaning if what it denotes is its own write in front of what
      its frame denotes. */
  lemma InsideKeeps(p: Protocol, m: Machine, slot: Slot, b: Octets)
    requires Lawful(p) && Ready(m)
    requires
      || (m.state.ListBegin? && slot == ListHead) || (m.state.SetBegin? && slot == SetHead)
      || (m.state.MapBegin? && slot == MapHead)
    requires
      var head := ReadToken(p, slot, b);
      Denote(p, m.state, m.stack, b) ==
      if head.Short? then Short else if head.Wrong? then Wrong
      else After(p.write(head.value), Denote(p, Inside(head.value), Push(FrameOf(head.value), m.stack), head.rest))
    ensures Keeps(p, m, b)
  {
    HeadStep(p, m, slot, b);
    var head := ReadToken(p, slot, b);
    if head.Ok? {
      AfterAfter(m.origin, p.write(head.value),
                 Denote(p, Inside(head.value), Push(FrameOf(head.value), m.stack), head.rest));
    }
  }

  lemma ListHeadKeeps(p: Protocol, m: Machine, b: Octets)
    requires Lawful(p) && Ready(m) && m.state.ListBegin?
    ensures Keeps(p, m, b)
  {
    if ReadToken(p, ListHead, b).Ok? {
      ListHeadDenotes(p, m.stack, b);
    }
    InsideKeeps(p, m, ListHead, b);
  }

  lemma SetHeadKeeps(p: Protocol, m: Machine, b: Octets)
    requires Lawful(p) && Ready(m) && m.state.SetBegin?
    ensures Keeps(p, m, b)
  {
    if ReadToken(p, SetHead, b).Ok? {
      SetHeadDenotes(p, m.stack, b);
    }
    InsideKeeps(p, m, SetHead, b);
  }

  lemma MapHeadKeeps(p: Protocol, m: Machine, b: Octets)
    requires Lawful(p) && Ready(m) && m.state.MapBegin?
    ensures Keeps(p, m, b)
  {
    if ReadToken(p, MapHead, b).Ok? {
      MapHeadDenotes(p, m.stack, b);
    }
    InsideKeeps(p, m, MapHead, b);
  }

  /** No step changes what the machine will have written in the end, and a step that waits or
      fails does so exactly when the parser runs short or rejects. */
  lemma StepKeepsMeaning(p: Protocol, m: Machine, b: Octets)
    requires Lawful(p) && Ready(m) && m.state != Done
    ensures Keeps(p, m, b)
  {
    match DemandOf(m)
    case Silent => GlideKeepsMeaning(p, m, b);
    case Throws => ValueDenotes(p, m, b);
    case Reads(slot) =>
      SlotFixesState(m, slot);
      match slot
      case ScalarSlot(_) => AtomKeepsMeaning(p, m, b);
      case MessageHead => MessageHeadKeeps(p, m, b);
      case MessageTail => MessageTailKeeps(p, m, b);
      case StructHead => StructHeadKeeps(p, m, b);
      case StructTail => StructTailKeeps(p, m, b);
      case FieldHead => FieldHeadKeeps(p, m, b);
      case ListHead => ListHeadKeeps(p, m, b);
      case SetHead => SetHeadKeeps(p, m, b);
      case MapHead => MapHeadKeeps(p, m, b);
      case FieldTail | ListTail | SetTail | MapTail => TailKeeps(p, m, slot, b);
  }
}
