/** The Hessian serializer of dubbo_hessian2_serializer_impl.cc in its own form: a decoder that
    advances an offset over the whole request buffer, checked against the body size afterwards. */
module DubboSerializer {
  import opened Bytes
  import opened DubboProtocol

  class Decoder {
    const hessian: Hessian
    const data: Octets
    var offset: nat

    ghost predicate Valid()
      reads this
    {
      LawfulHessian(hessian) && offset <= |data|
    }

    constructor (hessian: Hessian, data: Octets)
      requires LawfulHessian(hessian)
      ensures Valid() && offset == 0 && this.hessian == hessian && this.data == data
    {
      this.hessian, this.data, offset := hessian, data, 0;
    }

    /** A null result leaves the offset where it was. */
    method DecodeString() returns (r: Read<Octets>)
      requires Valid()
      modifies this
      ensures Valid() && r == hessian.readString(data[old(offset)..])
      ensures offset == old(offset) + if r.Value? then r.used else 0
    {
      var rest := data[offset..];
      r := hessian.readString(rest);
      assert rest + [] == rest && hessian.readString(rest + []) == r;
      if r.Value? {
        offset := offset + r.used;
      }
    }

    method DecodeInt() returns (r: Read<int32>)
      requires Valid()
      modifies this
      ensures Valid() && r == hessian.readInt(data[old(offset)..])
      ensures offset == old(offset) + if r.Value? then r.used else 0
    {
      var rest := data[offset..];
      r := hessian.readInt(rest);
      assert rest + [] == rest && hessian.readInt(rest + []) == r;
      if r.Value? {
        offset := offset + r.used;
      }
    }
  }

  /** What reading makes of `read`, with `used` octets behind it, and the rest still to come. */
  function Behind(read: seq<Octets>, used: nat, rest: Read<seq<Octets>>): Read<seq<Octets>> {
    if rest.Null? then Null else Value(read + rest.v, used + rest.used)
  }

  lemma OneMoreString(h: Hessian, n: nat, b: Octets, o: nat, read: seq<Octets>)
    requires LawfulHessian(h) && n > 0 && o <= |b|
    ensures
      var first := h.readString(b[o..]);
      Behind(read, o, ReadStrings(h, n, b[o..])) ==
      if first.Null? || |b| < o + first.used then Null
      else Behind(read + [first.v], o + first.used, ReadStrings(h, n - 1, b[o + first.used..]))
  {
    var first := h.readString(b[o..]);
    assert b[o..] + [] == b[o..] && h.readString(b[o..] + []) == first;
    if first.Value? {
      assert b[o..][first.used..] == b[o + first.used..];
      var rest := ReadStrings(h, n - 1, b[o + first.used..]);
      if rest.Value? {
        assert read + ([first.v] + rest.v) == read + [first.v] + rest.v;
      }
    }
  }

  lemma LastString(h: Hessian, b: Octets, o: nat, read: seq<Octets>)
    requires LawfulHessian(h) && o <= |b|
    ensures
      var last := h.readString(b[o..]);
      Behind(read, o, ReadStrings(h, 1, b[o..])) == if last.Null? then Null else Value(read + [last.v], o + last.used)
  {
    var last := h.readString(b[o..]);
    assert b[o..] + [] == b[o..] && h.readString(b[o..] + []) == last;
    OneMoreString(h, 1, b, o, read);
    assert last.Value? ==> read + [last.v] + [] == read + [last.v];
  }

  lemma LastTwoStrings(h: Hessian, b: Octets, j: nat, k: nat, read: seq<Octets>)
    requires LawfulHessian(h) && j <= k <= |b|
    requires var r := h.readString(b[j..]); k == j + if r.Value? then r.used else 0
    ensures
      var r2, r3 := h.readString(b[j..]), h.readString(b[k..]);
      Behind(read, j, ReadStrings(h, 2, b[j..])) ==
      if r2.Null? || r3.Null? then Null else Value(read + [r2.v] + [r3.v], k + r3.used)
  {
    var r2 := h.readString(b[j..]);
    OneMoreString(h, 2, b, j, read);
    if r2.Value? {
      LastString(h, b, k, read + [r2.v]);
    }
  }

  /** Four reads at the offsets where the one before stopped are one read of four strings. */
  lemma FourStrings(h: Hessian, b: Octets, i: nat, j: nat, k: nat)
    requires LawfulHessian(h) && i <= j <= k <= |b|
    requires var r := h.readString(b); i == if r.Value? then r.used else 0
    requires var r := h.readString(b[i..]); j == i + if r.Value? then r.used else 0
    requires var r := h.readString(b[j..]); k == j + if r.Value? then r.used else 0
    ensures
      var r0, r1, r2, r3 := h.readString(b), h.readString(b[i..]), h.readString(b[j..]), h.readString(b[k..]);
      Behind([], 0, ReadStrings(h, 4, b)) ==
      if r0.Null? || r1.Null? || r2.Null? || r3.Null? then Null
      else Value([] + [r0.v] + [r1.v] + [r2.v] + [r3.v], k + r3.used)
  {
    var r0, r1 := h.readString(b), h.readString(b[i..]);
    assert b[0..] == b;
    OneMoreString(h, 4, b, 0, []);
    if r0.Value? {
      OneMoreString(h, 3, b, i, [] + [r0.v]);
      if r1.Value? {
        LastTwoStrings(h, b, j, k, [] + [r0.v] + [r1.v]);
      }
    }
  }

  /** Four strings, read one after the other, then the check against the body size. */
  method DeserializeRpcInvocation(h: Hessian, buffer: Octets, bodySize: nat) returns (r: MaybeInvocation)
    requires LawfulHessian(h)
    ensures r == DeserializeInvocation(h, buffer, bodySize)
  {
    var decoder := new Decoder(h, buffer);
    assert buffer[0..] == buffer;
    var dubboVersion := decoder.DecodeString();
    ghost var i := decoder.offset;
    var serviceName := decoder.DecodeString();
    ghost var j := decoder.offset;
    var serviceVersion := decoder.DecodeString();
    ghost var k := decoder.offset;
    var methodName := decoder.DecodeString();

    FourStrings(h, buffer, i, j, k);
    ghost var strings := ReadStrings(h, 4, buffer);
    assert strings.Value? ==> [] + strings.v == strings.v;
    if bodySize < decoder.offset {
      return NoInvocation;
    }
    if dubboVersion.Null? || serviceName.Null? || serviceVersion.Null? || methodName.Null? {
      return NoInvocation;
    }
    return Invoked(Invocation(serviceName.v, serviceVersion.v, methodName.v));
  }

  /** The type of a result, then the checks on what it leaves of the body. */
  method DeserializeRpcResult(h: Hessian, buffer: Octets, bodySize: nat) returns (r: ResultKind)
    requires LawfulHessian(h) && bodySize <= |buffer|
    ensures r == DeserializeResult(h, buffer, bodySize)
  {
    var decoder := new Decoder(h, buffer);
    assert buffer[0..] == buffer;
    var typeValue := decoder.DecodeInt();
    if typeValue.Null? {
      return Unsupported;
    }
    r := ResultKindOf(typeValue.v);
    if r == Unsupported {
      return;
    }
    if bodySize < decoder.offset {
      return Unsupported;
    }
    if r == WithoutValue && bodySize != decoder.offset {
      return Unsupported;
    }
  }
}
