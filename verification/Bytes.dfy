/** Bytes, fixed-width integers and their big-endian wire form. */
module Bytes {
  type byte = x: int | 0 <= x < 0x100
  type int16 = x: int | -0x8000 <= x < 0x8000
  type int32 = x: int | -0x8000_0000 <= x < 0x8000_0000
  type int64 = x: int | -0x8000_0000_0000_0000 <= x < 0x8000_0000_0000_0000
  type uint32 = x: int | 0 <= x < 0x1_0000_0000
  type uint64 = x: int | 0 <= x < 0x1_0000_0000_0000_0000

  type Octets = seq<byte>

  /** 256 to the power `width`: how many values fit in `width` octets. */
  function Range(width: nat): (n: nat)
    ensures n > 0
  {
    if width == 0 then 1 else 0x100 * Range(width - 1)
  }

  lemma RangeValues()
    ensures Range(1) == 0x100
    ensures Range(2) == 0x1_0000
    ensures Range(4) == 0x1_0000_0000
    ensures Range(8) == 0x1_0000_0000_0000_0000
  {
    assert Range(3) == 0x100 * Range(2);
    assert Range(4) == 0x100 * Range(3);
    assert Range(5) == 0x100 * Range(4);
    assert Range(6) == 0x100 * Range(5);
    assert Range(7) == 0x100 * Range(6);
    assert Range(8) == 0x100 * Range(7);
  }

  /** The `width` low octets of `n`, most significant first. */
  function ToOctets(n: nat, width: nat): (s: Octets)
    ensures |s| == width
  {
    if width == 0 then [] else ToOctets(n / 0x100, width - 1) + [n % 0x100]
  }

  function FromOctets(s: Octets): nat {
    if s == [] then 0 else FromOctets(s[..|s| - 1]) * 0x100 + s[|s| - 1]
  }

  lemma {:induction false} FromOctetsBound(s: Octets)
    ensures FromOctets(s) < Range(|s|)
  {
    if s != [] {
      FromOctetsBound(s[..|s| - 1]);
    }
  }

  /** Reading undoes writing for every number that fits. */
  lemma {:induction false} OctetsRoundTrip(n: nat, width: nat)
    requires n < Range(width)
    ensures FromOctets(ToOctets(n, width)) == n
  {
    if width > 0 {
      OctetsRoundTrip(n / 0x100, width - 1);
      var s := ToOctets(n, width);
      assert s[..|s| - 1] == ToOctets(n / 0x100, width - 1);
    }
  }

  /** Two's complement: the signed reading of an unsigned number of `width` octets, and back. */
  function Signed(n: nat, width: nat): int {
    if 2 * n < Range(width) then n else n - Range(width)
  }

  function Unsigned(i: int, width: nat): nat
    requires 0 <= i + Range(width)
  {
    if i < 0 then i + Range(width) else i
  }

  lemma SignedRoundTrip(i: int, width: nat)
    requires 0 <= 2 * i + Range(width) && 2 * i < Range(width)
    ensures Unsigned(i, width) < Range(width)
    ensures Signed(Unsigned(i, width), width) == i
  {
  }

  function ReadInt16(s: Octets): int16
    requires |s| == 2
  {
    RangeValues();
    FromOctetsBound(s);
    Signed(FromOctets(s), 2)
  }

  function ReadInt32(s: Octets): int32
    requires |s| == 4
  {
    RangeValues();
    FromOctetsBound(s);
    Signed(FromOctets(s), 4)
  }

  function ReadInt64(s: Octets): int64
    requires |s| == 8
  {
    RangeValues();
    FromOctetsBound(s);
    Signed(FromOctets(s), 8)
  }

  function WriteInt16(i: int16): (s: Octets)
    ensures |s| == 2
  {
    RangeValues();
    ToOctets(Unsigned(i, 2), 2)
  }

  function WriteInt32(i: int32): (s: Octets)
    ensures |s| == 4
  {
    RangeValues();
    ToOctets(Unsigned(i, 4), 4)
  }

  function WriteInt64(i: int64): (s: Octets)
    ensures |s| == 8
  {
    RangeValues();
    ToOctets(Unsigned(i, 8), 8)
  }

  lemma Int16RoundTrip(i: int16)
    ensures ReadInt16(WriteInt16(i)) == i
  {
    RangeValues();
    SignedRoundTrip(i, 2);
    OctetsRoundTrip(Unsigned(i, 2), 2);
  }

  lemma Int32RoundTrip(i: int32)
    ensures ReadInt32(WriteInt32(i)) == i
  {
    RangeValues();
    SignedRoundTrip(i, 4);
    OctetsRoundTrip(Unsigned(i, 4), 4);
  }

  lemma Int64RoundTrip(i: int64)
    ensures ReadInt64(WriteInt64(i)) == i
  {
    RangeValues();
    SignedRoundTrip(i, 8);
    OctetsRoundTrip(Unsigned(i, 8), 8);
  }

  /** Looking at octets that are already there does not depend on what follows them. */
  lemma SliceOfPrefix(a: Octets, b: Octets, lo: nat, hi: nat)
    requires lo <= hi <= |a|
    ensures (a + b)[lo..hi] == a[lo..hi]
  {
  }

  /** The stream that a list of chunks makes up. */
  function Join(chunks: seq<Octets>): Octets {
    if chunks == [] then [] else chunks[0] + Join(chunks[1..])
  }

  /** Regrouping a concatenation around what follows it. */
  lemma Regroup2(a: Octets, b: Octets, s: Octets)
    ensures a + b + s == a + (b + s)
  {
  }

  lemma Regroup3(a: Octets, b: Octets, c: Octets, s: Octets)
    ensures a + b + c + s == a + (b + (c + s))
  {
  }

  lemma Regroup4(a: Octets, b: Octets, c: Octets, d: Octets, s: Octets)
    ensures a + b + c + d + s == a + (b + (c + (d + s)))
  {
  }
}
