/** How high the stack grows under the strict binary protocol: one frame for each octet, since a
    field head takes three octets, a list or set head five, and a map head six. */
module ThriftBounds {
  import opened Bytes
  import opened ThriftProtocol
  import opened ThriftBinary
  import opened ThriftMachine
  import opened ThriftRun

  lemma StrictAcceptHeight(m: Machine, slot: Slot, b: Octets)
    requires Ready(m) && m.state != Done && DemandOf(m) == Reads(slot) && Read(slot, b).Got?
    requires SlotOf(Read(slot, b).tok) == slot && FitsCounter(Read(slot, b).tok)
    ensures Height(Accept(Strict(), m, Read(slot, b).tok)) <= Height(m) + Read(slot, b).used
  {
    SlotFixesState(m, slot);
  }

  /** A step raises the stack by at most one frame for each octet it consumes. */
  lemma StrictStepHeight(m: Machine, b: Octets)
    requires Lawful(Strict()) && Ready(m) && m.state != Done && Step(Strict(), m, b).Moved?
    ensures
      var r := Step(Strict(), m, b);
      Height(r.m) + |r.rest| <= Height(m) + |b|
  {
    match DemandOf(m)
    case Silent =>
      GlideHeight(m);
      assert Step(Strict(), m, b) == Moved(Glide(m), b);
    case Reads(slot) => StrictAcceptHeight(m, slot, b);
  }

  lemma {:induction false} StrictRunHeight(m: Machine, b: Octets)
    requires Lawful(Strict()) && Valid(m)
    ensures Peak(Strict(), m, b) <= Height(m) + Consumed(Strict(), m, b)
    decreases 4 * |b| + Potential(m)
  {
    var p := Strict();
    if m.state != Done && Step(p, m, b).Moved? {
      StepIsValid(p, m, b);
      StepCost(p, m, b);
      StrictStepHeight(m, b);
      StrictRunHeight(Step(p, m, b).m, Step(p, m, b).rest);
    }
  }

  /** How high the stack gets while a message is decoded from the start, and how much is read. */
  function DecodingPeak(b: Octets): nat {
    StrictIsLawful();
    Peak(Strict(), INITIAL, b)
  }

  function DecodingConsumes(b: Octets): nat {
    StrictIsLawful();
    Consumed(Strict(), INITIAL, b)
  }

  /** The stack is never higher than the number of octets consumed, on any input. */
  lemma StrictDecodingHeight(b: Octets)
    ensures DecodingPeak(b) <= DecodingConsumes(b) <= |b|
  {
    StrictIsLawful();
    StrictRunHeight(INITIAL, b);
  }
}
