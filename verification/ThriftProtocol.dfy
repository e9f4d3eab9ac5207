/** The Thrift protocol interface of src/application_protocols/thrift/protocol.h: what a
    protocol can be asked to read, what it reads and writes, and the laws it obeys. */
module ThriftProtocol {
  import opened Bytes

  /** Field types; `Unknown` is any other type octet, which readers cast without a check. */
  datatype FieldType = Stop | Void | Basic(kind: BasicKind) | Struct | Map | Set | List | Unknown(code: byte)

  datatype BasicKind = Bool | Byte | Double | I16 | I32 | I64 | String

  predicate IsContainer(t: FieldType) {
    t.Struct? || t.Map? || t.Set? || t.List?
  }

  datatype Scalar =
    | BoolScalar(b: bool)
    | ByteScalar(n: byte)
    | DoubleScalar(bits: Octets)
    | I16Scalar(i16: int16)
    | I32Scalar(i32: int32)
    | I64Scalar(i64: int64)
    | StringScalar(text: Octets)

  function KindOf(v: Scalar): BasicKind {
    match v
    case BoolScalar(_) => Bool
    case ByteScalar(_) => Byte
    case DoubleScalar(_) => Double
    case I16Scalar(_) => I16
    case I32Scalar(_) => I32
    case I64Scalar(_) => I64
    case StringScalar(_) => String
  }

  datatype MessageType = Call | Reply | Exception | Oneway

  datatype MessageHeader = MessageHeader(name: Octets, kind: MessageType, sequenceId: int32)

  /** What one read method delivers, and what the matching write method takes. */
  datatype Token =
    | OpenMessage(header: MessageHeader) | CloseMessage
    | OpenStruct(name: Octets) | CloseStruct
    | OpenField(fieldName: Octets, fieldType: FieldType, id: int16) | CloseField
    | OpenList(elem: FieldType, size: nat) | CloseList
    | OpenSet(elem: FieldType, size: nat) | CloseSet
    | OpenMap(key: FieldType, value: FieldType, size: nat) | CloseMap
    | Atom(scalar: Scalar)

  const STOP_FIELD := OpenField([], Stop, 0)

  /** The read methods of the interface. */
  datatype Slot =
    | MessageHead | MessageTail | StructHead | StructTail | FieldHead | FieldTail
    | ListHead | ListTail | SetHead | SetTail | MapHead | MapTail
    | ScalarSlot(kind: BasicKind)

  function SlotOf(tok: Token): Slot {
    match tok
    case OpenMessage(_) => MessageHead
    case CloseMessage => MessageTail
    case OpenStruct(_) => StructHead
    case CloseStruct => StructTail
    case OpenField(_, _, _) => FieldHead
    case CloseField => FieldTail
    case OpenList(_, _) => ListHead
    case CloseList => ListTail
    case OpenSet(_, _) => SetHead
    case CloseSet => SetTail
    case OpenMap(_, _, _) => MapHead
    case CloseMap => MapTail
    case Atom(v) => ScalarSlot(KindOf(v))
  }

  /** Slots that occupy at least one octet on the wire. */
  predicate Solid(slot: Slot) {
    slot.MessageHead? || slot.FieldHead? || slot.ListHead? || slot.SetHead? || slot.MapHead? || slot.ScalarSlot?
  }

  /** `More`: the method returns false and leaves the buffer alone. `Bad`: it throws.
      `Got`: it returns true and removes `used` octets. */
  datatype ReadResult = More | Bad | Got(tok: Token, used: nat)

  datatype Protocol = Protocol(
    read: (Slot, Octets) -> ReadResult,
    write: Token -> Octets,
    carries: Token -> bool)

  /** Sizes are delivered in 32-bit counters. */
  predicate FitsCounter(tok: Token) {
    tok.OpenList? || tok.OpenSet? || tok.OpenMap? ==> tok.size < 0x1_0000_0000
  }

  /** A read delivers a token of the kind that was asked for and removes a prefix. */
  ghost predicate ReadsPrefixes(p: Protocol) {
    forall slot, b :: p.read(slot, b).Got? ==>
      && p.read(slot, b).used <= |b|
      && SlotOf(p.read(slot, b).tok) == slot
      && p.carries(p.read(slot, b).tok)
      && FitsCounter(p.read(slot, b).tok)
      && (Solid(slot) ==> p.read(slot, b).used > 0)
  }

  /** A verdict, good or bad, does not change when more octets arrive behind it. */
  ghost predicate ReadsAreStable(p: Protocol) {
    forall slot, b, s {:trigger p.read(slot, b + s)} ::
      !p.read(slot, b).More? ==> p.read(slot, b + s) == p.read(slot, b)
  }

  /** A read undoes a write of every token the wire format can carry. */
  ghost predicate ReadUndoesWrite(p: Protocol) {
    forall tok, s {:trigger p.read(SlotOf(tok), p.write(tok) + s)} :: p.carries(tok) ==>
      p.read(SlotOf(tok), p.write(tok) + s) == Got(tok, |p.write(tok)|)
  }

  ghost predicate Lawful(p: Protocol) {
    && ReadsPrefixes(p)
    && ReadsAreStable(p)
    && ReadUndoesWrite(p)
    && p.carries(STOP_FIELD)
  }
}
