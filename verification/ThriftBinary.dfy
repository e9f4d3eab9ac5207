/** The strict binary protocol (Apache Thrift specification thrift-binary-protocol.md, sections
    "Message", "Struct", "List and Set", "Map" and "Base types encoding"). */
module ThriftBinary {
  import opened Bytes
  import opened ThriftProtocol

  const VERSION: int16 := -0x7fff // 0x8001

  function TypeOf(code: byte): FieldType {
    match code
    case 0 => Stop
    case 1 => Void
    case 2 => Basic(Bool)
    case 3 => Basic(Byte)
    case 4 => Basic(Double)
    case 6 => Basic(I16)
    case 8 => Basic(I32)
    case 10 => Basic(I64)
    case 11 => Basic(String)
    case 12 => Struct
    case 13 => Map
    case 14 => Set
    case 15 => List
    case _ => Unknown(code)
  }

  function BasicCode(kind: BasicKind): byte {
    match kind
    case Bool => 2
    case Byte => 3
    case Double => 4
    case I16 => 6
    case I32 => 8
    case I64 => 10
    case String => 11
  }

  function CodeOf(t: FieldType): byte {
    match t
    case Stop => 0
    case Void => 1
    case Basic(kind) => BasicCode(kind)
    case Struct => 12
    case Map => 13
    case Set => 14
    case List => 15
    case Unknown(code) => code
  }

  predicate Known(t: FieldType) {
    TypeOf(CodeOf(t)) == t
  }

  function MessageTypeOf(code: byte): (r: seq<MessageType>) {
    match code
    case 1 => [Call]
    case 2 => [Reply]
    case 3 => [Exception]
    case 4 => [Oneway]
    case _ => []
  }

  function MessageTypeCode(kind: MessageType): byte {
    match kind
    case Call => 1
    case Reply => 2
    case Exception => 3
    case Oneway => 4
  }

  function ReadMessageHead(b: Octets): ReadResult {
    if |b| < 12 then More
    else if ReadInt16(b[0..2]) != VERSION then Bad
    else
      var kind := MessageTypeOf(b[3]);
      if kind == [] then Bad
      else
        var n := ReadInt32(b[4..8]);
        if n < 0 then Bad
        else if |b| < n + 12 then More
        else Got(OpenMessage(MessageHeader(b[8..8 + n], kind[0], ReadInt32(b[8 + n..12 + n]))), 12 + n)
  }

  function ReadFieldHead(b: Octets): ReadResult {
    if |b| < 1 then More
    else if TypeOf(b[0]) == Stop then Got(STOP_FIELD, 1)
    else if |b| < 3 then More
    else Got(OpenField([], TypeOf(b[0]), ReadInt16(b[1..3])), 3)
  }

  /** An element type and a signed count, shared by lists and sets. */
  function ReadSequenceHead(b: Octets, make: (FieldType, nat) -> Token): ReadResult {
    if |b| < 5 then More
    else if ReadInt32(b[1..5]) < 0 then Bad
    else Got(make(TypeOf(b[0]), ReadInt32(b[1..5])), 5)
  }

  function ReadMapHead(b: Octets): ReadResult {
    if |b| < 6 then More
    else if ReadInt32(b[2..6]) < 0 then Bad
    else Got(OpenMap(TypeOf(b[0]), TypeOf(b[1]), ReadInt32(b[2..6])), 6)
  }

  function ReadScalar(kind: BasicKind, b: Octets): ReadResult {
    match kind
    case Bool => if |b| < 1 then More else Got(Atom(BoolScalar(b[0] != 0)), 1)
    case Byte => if |b| < 1 then More else Got(Atom(ByteScalar(b[0])), 1)
    case I16 => if |b| < 2 then More else Got(Atom(I16Scalar(ReadInt16(b[0..2]))), 2)
    case I32 => if |b| < 4 then More else Got(Atom(I32Scalar(ReadInt32(b[0..4]))), 4)
    case I64 => if |b| < 8 then More else Got(Atom(I64Scalar(ReadInt64(b[0..8]))), 8)
    case Double => if |b| < 8 then More else Got(Atom(DoubleScalar(b[0..8])), 8)
    case String =>
      if |b| < 4 then More
      else
        var n := ReadInt32(b[0..4]);
        if n < 0 then Bad
        else if |b| < n + 4 then More
        else Got(Atom(StringScalar(b[4..4 + n])), 4 + n)
  }

  function Read(slot: Slot, b: Octets): ReadResult {
    match slot
    case MessageHead => ReadMessageHead(b)
    case MessageTail => Got(CloseMessage, 0)
    case StructHead => Got(OpenStruct([]), 0)
    case StructTail => Got(CloseStruct, 0)
    case FieldHead => ReadFieldHead(b)
    case FieldTail => Got(CloseField, 0)
    case ListHead => ReadSequenceHead(b, (t: FieldType, n: nat) => OpenList(t, n))
    case ListTail => Got(CloseList, 0)
    case SetHead => ReadSequenceHead(b, (t: FieldType, n: nat) => OpenSet(t, n))
    case SetTail => Got(CloseSet, 0)
    case MapHead => ReadMapHead(b)
    case MapTail => Got(CloseMap, 0)
    case ScalarSlot(kind) => ReadScalar(kind, b)
  }

  function WriteScalar(v: Scalar): Octets {
    match v
    case BoolScalar(b) => if b then [1] else [0]
    case ByteScalar(n) => [n]
    case I16Scalar(i) => WriteInt16(i)
    case I32Scalar(i) => WriteInt32(i)
    case I64Scalar(i) => WriteInt64(i)
    case DoubleScalar(bits) => bits
    case StringScalar(s) => Count(|s|) + s
  }

  /** A length or size field; one that does not fit in 31 bits is cut to 32 as the cast would. */
  function Count(n: nat): (s: Octets)
    ensures |s| == 4
    ensures n < 0x8000_0000 ==> s == WriteInt32(n)
  {
    RangeValues();
    ToOctets(n, 4)
  }

  function Write(tok: Token): Octets {
    match tok
    case OpenMessage(h) =>
      WriteInt16(VERSION) + [0, MessageTypeCode(h.kind)] + Count(|h.name|) + h.name + WriteInt32(h.sequenceId)
    case OpenField(_, t, id) => if t == Stop then [0] else [CodeOf(t)] + WriteInt16(id)
    case OpenList(t, n) => [CodeOf(t)] + Count(n)
    case OpenSet(t, n) => [CodeOf(t)] + Count(n)
    case OpenMap(k, v, n) => [CodeOf(k), CodeOf(v)] + Count(n)
    case Atom(v) => WriteScalar(v)
    case _ => []
  }

  /** The wire carries no struct or field names, no field identifier on a stop field, only
      non-negative 31-bit sizes, and eight octets for a double. */
  predicate Carries(tok: Token) {
    match tok
    case OpenMessage(h) => |h.name| < 0x8000_0000
    case OpenStruct(name) => name == []
    case OpenField(name, t, id) => name == [] && Known(t) && (t == Stop ==> id == 0)
    case OpenList(t, n) => Known(t) && n < 0x8000_0000
    case OpenSet(t, n) => Known(t) && n < 0x8000_0000
    case OpenMap(k, v, n) => Known(k) && Known(v) && n < 0x8000_0000
    case Atom(DoubleScalar(bits)) => |bits| == 8
    case Atom(StringScalar(s)) => |s| < 0x8000_0000
    case _ => true
  }

  function Strict(): Protocol {
    Protocol((slot, b) => Read(slot, b), tok => Write(tok), tok => Carries(tok))
  }

  lemma TypesAreKnown(code: byte)
    ensures Known(TypeOf(code))
  {
  }

  lemma ReadsPrefix(slot: Slot, b: Octets)
    requires Read(slot, b).Got?
    ensures Read(slot, b).used <= |b|
    ensures SlotOf(Read(slot, b).tok) == slot
    ensures Carries(Read(slot, b).tok)
    ensures FitsCounter(Read(slot, b).tok)
    ensures Solid(slot) ==> Read(slot, b).used > 0
  {
    if |b| > 0 {
      TypesAreKnown(b[0]);
    }
    if |b| > 1 {
      TypesAreKnown(b[1]);
    }
  }

  lemma ReadIsStable(slot: Slot, b: Octets, s: Octets)
    requires !Read(slot, b).More?
    ensures Read(slot, b + s) == Read(slot, b)
  {
    match slot
    case MessageHead =>
      assert (b + s)[0..2] == b[0..2];
      assert (b + s)[4..8] == b[4..8];
      var n := ReadInt32(b[4..8]);
      if 0 <= n && n + 12 <= |b| {
        SliceOfPrefix(b, s, 8, 8 + n);
        SliceOfPrefix(b, s, 8 + n, 12 + n);
      }
    case FieldHead =>
      if |b| >= 3 {
        SliceOfPrefix(b, s, 1, 3);
      }
    case ListHead => SliceOfPrefix(b, s, 1, 5);
    case SetHead => SliceOfPrefix(b, s, 1, 5);
    case MapHead => SliceOfPrefix(b, s, 2, 6);
    case ScalarSlot(kind) => ScalarReadIsStable(kind, b, s);
    case _ =>
  }

  lemma ScalarReadIsStable(kind: BasicKind, b: Octets, s: Octets)
    requires !ReadScalar(kind, b).More?
    ensures ReadScalar(kind, b + s) == ReadScalar(kind, b)
  {
    match kind
    case I16 => SliceOfPrefix(b, s, 0, 2);
    case I32 => SliceOfPrefix(b, s, 0, 4);
    case I64 => SliceOfPrefix(b, s, 0, 8);
    case Double => SliceOfPrefix(b, s, 0, 8);
    case String =>
      SliceOfPrefix(b, s, 0, 4);
      var n := ReadInt32(b[0..4]);
      if 0 <= n && n + 4 <= |b| {
        SliceOfPrefix(b, s, 4, 4 + n);
      }
    case _ =>
  }

  /** Where the parts of a message head stand. */
  lemma HeadSlices(version: Octets, kind: byte, size: Octets, name: Octets, id: Octets, s: Octets)
    requires |version| == 2 && |size| == 4 && |id| == 4
    ensures
      var b, n := version + [0, kind] + size + name + id + s, |name|;
      && |b| >= n + 12 && b[0..2] == version && b[3] == kind && b[4..8] == size
      && b[8..8 + n] == name && b[8 + n..12 + n] == id
  {
  }

  lemma UndoMessageHead(h: MessageHeader, s: Octets)
    requires |h.name| < 0x8000_0000
    ensures Read(MessageHead, Write(OpenMessage(h)) + s) == Got(OpenMessage(h), |Write(OpenMessage(h))|)
  {
    var n := |h.name|;
    HeadSlices(WriteInt16(VERSION), MessageTypeCode(h.kind), Count(n), h.name, WriteInt32(h.sequenceId), s);
    Int16RoundTrip(VERSION);
    Int32RoundTrip(n);
    Int32RoundTrip(h.sequenceId);
  }

  lemma UndoScalar(v: Scalar, s: Octets)
    requires Carries(Atom(v))
    ensures ReadScalar(KindOf(v), WriteScalar(v) + s) == Got(Atom(v), |WriteScalar(v)|)
  {
    var b := WriteScalar(v) + s;
    match v
    case I16Scalar(i) =>
      Int16RoundTrip(i);
      assert b[0..2] == WriteInt16(i);
    case I32Scalar(i) =>
      Int32RoundTrip(i);
      assert b[0..4] == WriteInt32(i);
    case I64Scalar(i) =>
      Int64RoundTrip(i);
      assert b[0..8] == WriteInt64(i);
    case DoubleScalar(bits) =>
      assert b[0..8] == bits;
    case StringScalar(text) =>
      Int32RoundTrip(|text|);
      assert b[0..4] == Count(|text|);
      assert b[4..4 + |text|] == text;
    case _ =>
  }

  lemma UndoWrite(tok: Token, s: Octets)
    requires Carries(tok)
    ensures Read(SlotOf(tok), Write(tok) + s) == Got(tok, |Write(tok)|)
  {
    var b := Write(tok) + s;
    match tok
    case OpenMessage(h) => UndoMessageHead(h, s);
    case OpenField(_, t, id) =>
      if t != Stop {
        Int16RoundTrip(id);
        assert b[1..3] == WriteInt16(id);
      }
    case OpenList(t, n) =>
      Int32RoundTrip(n);
      assert b[1..5] == Count(n);
    case OpenSet(t, n) =>
      Int32RoundTrip(n);
      assert b[1..5] == Count(n);
    case OpenMap(k, v, n) =>
      Int32RoundTrip(n);
      assert b[2..6] == Count(n);
    case Atom(v) => UndoScalar(v, s);
    case _ =>
  }

  /** The strict binary protocol satisfies every law the decoder relies on. */
  lemma StrictIsLawful()
    ensures Lawful(Strict())
  {
    var p := Strict();
    forall slot, b | p.read(slot, b).Got?
      ensures p.read(slot, b).used <= |b|
      ensures SlotOf(p.read(slot, b).tok) == slot
      ensures p.carries(p.read(slot, b).tok)
      ensures FitsCounter(p.read(slot, b).tok)
      ensures Solid(slot) ==> p.read(slot, b).used > 0
    {
      ReadsPrefix(slot, b);
    }
    forall slot, b, s | !p.read(slot, b).More?
      ensures p.read(slot, b + s) == p.read(slot, b)
    {
      ReadIsStable(slot, b, s);
    }
    forall tok, s | p.carries(tok)
      ensures p.read(SlotOf(tok), p.write(tok) + s) == Got(tok, |p.write(tok)|)
    {
      UndoWrite(tok, s);
    }
  }
}
