/** HessianUtils::getParametersNumber of hessian_utils.cc and the descriptor grammar of section 4.3.2
    of the Java Virtual Machine Specification. */
module Descriptors {
  import opened Bytes

  datatype Descriptor =
    | Base(letter: char)
    | Object(name: string)
    | Array(element: Descriptor)

  predicate IsBase(c: char) {
    c == 'V' || c == 'Z' || c == 'B' || c == 'C' || c == 'D' || c == 'F' || c == 'I' || c == 'J' || c == 'S'
  }

  /** A class name is anything that does not hold its terminator. */
  predicate WellFormed(d: Descriptor) {
    match d
    case Base(c) => IsBase(c)
    case Object(name) => ';' !in name
    case Array(element) => WellFormed(element)
  }

  predicate AllWellFormed(ds: seq<Descriptor>) {
    forall i :: 0 <= i < |ds| ==> WellFormed(ds[i])
  }

  function Text(d: Descriptor): string {
    match d
    case Base(c) => [c]
    case Object(name) => "L" + name + ";"
    case Array(element) => "[" + Text(element)
  }

  function TextOf(ds: seq<Descriptor>): string {
    if ds == [] then "" else Text(ds[0]) + TextOf(ds[1..])
  }

  /** What the loop adds to the count on reading `s`, when inside an object name if `next`. */
  function Scanned(s: string, next: bool): nat {
    if s == [] then 0
    else if s[0] == '[' then Scanned(s[1..], next)
    else if next && s[0] != ';' then Scanned(s[1..], next)
    else if s[0] == ';' then Scanned(s[1..], false)
    else if s[0] == 'L' then 1 + Scanned(s[1..], true)
    else (if IsBase(s[0]) then 1 else 0) + Scanned(s[1..], next)
  }

  lemma {:induction false} NameIsSkipped(name: string, rest: string)
    requires ';' !in name
    ensures Scanned(name + (";" + rest), true) == Scanned(rest, false)
  {
    if name == [] {
      assert name + (";" + rest) == ";" + rest;
      assert (";" + rest)[1..] == rest;
    } else {
      assert (name + (";" + rest))[1..] == name[1..] + (";" + rest);
      NameIsSkipped(name[1..], rest);
    }
  }

  /** A descriptor counts for one, however deep its array is nested. */
  lemma {:induction false} OneDescriptor(d: Descriptor, rest: string)
    requires WellFormed(d)
    ensures Scanned(Text(d) + rest, false) == 1 + Scanned(rest, false)
    decreases d
  {
    var s := Text(d) + rest;
    match d
    case Base(_) =>
      assert s[1..] == rest;
    case Object(name) =>
      assert s[1..] == name + (";" + rest);
      NameIsSkipped(name, rest);
    case Array(element) =>
      assert s[1..] == Text(element) + rest;
      OneDescriptor(element, rest);
  }

  /** The scanner counts the descriptors of every parameter list. */
  lemma {:induction false} CountsDescriptors(ds: seq<Descriptor>)
    requires AllWellFormed(ds)
    ensures Scanned(TextOf(ds), false) == |ds|
  {
    if ds != [] {
      OneDescriptor(ds[0], TextOf(ds[1..]));
      CountsDescriptors(ds[1..]);
    }
  }

  /** The scan of `s` counts the descriptors of whatever list it is the text of. */
  lemma CountsText(s: string)
    ensures forall ds {:trigger TextOf(ds)} :: AllWellFormed(ds) && TextOf(ds) == s ==> Scanned(s, false) == |ds|
  {
    forall ds | AllWellFormed(ds) && TextOf(ds) == s
      ensures Scanned(s, false) == |ds|
    {
      CountsDescriptors(ds);
    }
  }

  /** A character counts, or not. */
  function Weight(c: char, next: bool): nat {
    if next && c != ';' then 0 else if IsBase(c) || c == 'L' then 1 else 0
  }

  predicate Inside(c: char, next: bool) {
    if c == '[' then next else if next then c != ';' else c == 'L'
  }

  lemma ScansOne(s: string, i: nat, next: bool)
    requires i < |s|
    ensures Scanned(s[i..], next) == Weight(s[i], next) + Scanned(s[i + 1..], Inside(s[i], next))
  {
    assert s[i..][1..] == s[i + 1..];
  }

  /** One count more, on the counter of 32 bits. */
  lemma CountedOnce(count: uint32, total: nat)
    requires count == total % 0x1_0000_0000
    ensures (count + 1) % 0x1_0000_0000 == (total + 1) % 0x1_0000_0000
  {
  }

  /** The result on the text of any list of descriptors is the length of the list, up to the width
      of the counter. */
  method GetParametersNumber(parametersType: string) returns (count: uint32)
    ensures count == Scanned(parametersType, false) % 0x1_0000_0000
    ensures forall ds {:trigger TextOf(ds)} ::
      AllWellFormed(ds) && TextOf(ds) == parametersType ==> count == |ds| % 0x1_0000_0000
  {
    CountsText(parametersType);
    if |parametersType| == 0 {
      return 0;
    }
    count := 0;
    var next := false;
    var i := 0;
    ghost var total: nat := 0;
    while i < |parametersType|
      invariant 0 <= i <= |parametersType|
      invariant count == total % 0x1_0000_0000
      invariant total + Scanned(parametersType[i..], next) == Scanned(parametersType, false)
    {
      var c := parametersType[i];
      ScansOne(parametersType, i, next);
      i := i + 1;
      if c == '[' {
        continue;
      }
      if next && c != ';' {
        continue;
      }
      CountedOnce(count, total);
      if IsBase(c) {
        count, total := (count + 1) % 0x1_0000_0000, total + 1;
      } else if c == 'L' {
        count, total := (count + 1) % 0x1_0000_0000, total + 1;
        next := true;
      } else if c == ';' {
        next := false;
      }
    }
  }
}
