/** Messages of the strict binary protocol octet by octet, as the Apache Thrift specification
    ("Thrift Binary protocol encoding") lays them out. */
module ThriftWire {
  import opened Bytes
  import opened ThriftProtocol
  import opened ThriftBinary
  import opened ThriftTree

  /** Numbers are big-endian in two's complement. */
  lemma NumbersOnTheWire(n: byte)
    ensures WriteInt16(n) == [0, n] && WriteInt32(n) == [0, 0, 0, n] && WriteInt16(-2) == [0xff, 0xfe]
    ensures WriteInt16(VERSION) == [0x80, 0x01] && WriteInt64(n) == [0, 0, 0, 0, 0, 0, 0, n]
  {
    RangeValues();
    OneOctet(n);
    assert ToOctets(n, 2) == ToOctets(0, 1) + [n];
    assert ToOctets(n, 4) == ToOctets(0, 3) + [n] && ToOctets(0, 3) == [0, 0, 0] by { Zeros(); }
    assert ToOctets(n, 8) == ToOctets(0, 7) + [n] && ToOctets(0, 7) == [0, 0, 0, 0, 0, 0, 0] by { Zeros(); }
    OneOctet(0xff);
    assert ToOctets(0xfffe, 2) == ToOctets(0xff, 1) + [0xfe];
    OneOctet(0x80);
    assert ToOctets(0x8001, 2) == ToOctets(0x80, 1) + [0x01];
    Zeros();
  }

  lemma OneOctet(n: byte)
    ensures ToOctets(n, 1) == [n]
  {
    assert ToOctets(n / 0x100, 0) + [n % 0x100] == [n];
  }

  lemma Zeros()
    ensures ToOctets(0, 1) == [0] && ToOctets(0, 3) == [0, 0, 0] && ToOctets(0, 7) == [0, 0, 0, 0, 0, 0, 0]
  {
    OneOctet(0);
    assert ToOctets(0, 2) == ToOctets(0, 1) + [0];
    assert ToOctets(0, 3) == ToOctets(0, 2) + [0];
    assert ToOctets(0, 4) == ToOctets(0, 3) + [0];
    assert ToOctets(0, 5) == ToOctets(0, 4) + [0];
    assert ToOctets(0, 6) == ToOctets(0, 5) + [0];
    assert ToOctets(0, 7) == ToOctets(0, 6) + [0];
  }

  /** The header of a message with a short name. */
  lemma HeaderOnTheWire(kind: MessageType, name: Octets, id: byte)
    requires |name| < 0x100
    ensures
      var code := if kind.Call? then 1 else if kind.Reply? then 2 else if kind.Exception? then 3 else 4;
      Write(OpenMessage(MessageHeader(name, kind, id))) ==
      [0x80, 0x01, 0, code] + [0, 0, 0, |name|] + name + [0, 0, 0, id]
  {
    NumbersOnTheWire(|name|);
    NumbersOnTheWire(id);
    assert [0x80, 0x01] + [0, MessageTypeCode(kind)] == [0x80, 0x01, 0, MessageTypeCode(kind)];
  }

  /** The type codes of the specification. */
  lemma CodesOnTheWire()
    ensures CodeOf(Basic(Bool)) == 2 && CodeOf(Basic(Byte)) == 3 && CodeOf(Basic(Double)) == 4
    ensures CodeOf(Basic(I16)) == 6 && CodeOf(Basic(I32)) == 8 && CodeOf(Basic(I64)) == 10
    ensures CodeOf(Basic(String)) == 11
    ensures CodeOf(Struct) == 12 && CodeOf(Map) == 13 && CodeOf(Set) == 14 && CodeOf(List) == 15
  {
  }

  /** A field head is a type and an id, a list or set head a type and a count, and a map head two
      types and a count. */
  lemma HeadsOnTheWire(t: FieldType, u: FieldType, n: byte)
    requires t != Stop
    ensures Write(OpenField([], t, n)) == [CodeOf(t), 0, n] && Write(STOP_FIELD) == [0]
    ensures Write(OpenList(t, n)) == [CodeOf(t), 0, 0, 0, n] && Write(OpenSet(t, n)) == [CodeOf(t), 0, 0, 0, n]
    ensures Write(OpenMap(t, u, n)) == [CodeOf(t), CodeOf(u), 0, 0, 0, n]
  {
    NumbersOnTheWire(n);
  }

  /** Scalars: one octet, two, four or eight, and a string behind its length. */
  lemma ScalarsOnTheWire(n: byte, text: Octets)
    requires |text| < 0x100
    ensures Write(Atom(BoolScalar(true))) == [1] && Write(Atom(BoolScalar(false))) == [0]
    ensures Write(Atom(ByteScalar(n))) == [n] && Write(Atom(I16Scalar(n))) == [0, n]
    ensures Write(Atom(I16Scalar(-2))) == [0xff, 0xfe] && Write(Atom(I32Scalar(n))) == [0, 0, 0, n]
    ensures Write(Atom(I64Scalar(n))) == [0, 0, 0, 0, 0, 0, 0, n]
    ensures Write(Atom(StringScalar(text))) == [0, 0, 0, |text|] + text
  {
    NumbersOnTheWire(n);
    NumbersOnTheWire(|text|);
  }

  /** A struct with one number in it, up to its stop field. */
  lemma StructOnTheWire(n: byte)
    ensures
      Encode(Strict(), StructNode([], Field([], 1, Leaf(I32Scalar(n)), NoFields))) == [8, 0, 1, 0, 0, 0, n, 0]
  {
    var field := Field([], 1, Leaf(I32Scalar(n)), NoFields);
    HeadsOnTheWire(Basic(I32), Struct, 1);
    NumbersOnTheWire(n);
    assert EncodeFields(Strict(), NoFields) == [];
    assert EncodeFields(Strict(), field) == [8, 0, 1] + [0, 0, 0, n] + [] + [];
  }
}
