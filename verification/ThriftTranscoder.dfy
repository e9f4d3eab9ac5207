/** What a whole run of the Thrift automaton amounts to. */
module ThriftTranscoder {
  import opened Bytes
  import opened ThriftProtocol
  import opened ThriftTree
  import opened ThriftMachine
  import opened ThriftRun
  import opened ThriftRefinement

  /** A run ends in what its first configuration meant. */
  lemma {:induction false} RunMeans(p: Protocol, m: Machine, b: Octets)
    requires Lawful(p) && Valid(m)
    ensures
      match Run(p, m, b)
      case Finished(m1, rest) => Meaning(p, m, b) == Ok(m1.origin, rest)
      case Suspended(_, _) => Meaning(p, m, b) == Short
      case Crashed => Meaning(p, m, b) == Wrong
    decreases 4 * |b| + Potential(m)
  {
    if m.state == Done {
      assert m.origin + [] == m.origin;
    } else {
      StepKeepsMeaning(p, m, b);
      if Step(p, m, b).Moved? {
        StepIsValid(p, m, b);
        StepCost(p, m, b);
        RunMeans(p, Step(p, m, b).m, Step(p, m, b).rest);
      }
    }
  }

  lemma StepKeepsHeader(p: Protocol, m: Machine, b: Octets)
    requires Lawful(p) && Valid(m) && m.state != Done && m.state != MessageBegin && Step(p, m, b).Moved?
    ensures Step(p, m, b).m.header == m.header && Step(p, m, b).m.state != MessageBegin
  {
    if DemandOf(m).Reads? {
      SlotFixesState(m, DemandOf(m).slot);
    }
  }

  lemma {:induction false} RunKeepsHeader(p: Protocol, m: Machine, b: Octets)
    requires Lawful(p) && Valid(m) && m.state != MessageBegin
    ensures !Run(p, m, b).Crashed? ==> Run(p, m, b).m.header == m.header
    decreases 4 * |b| + Potential(m)
  {
    if m.state != Done && Step(p, m, b).Moved? {
      StepKeepsHeader(p, m, b);
      StepIsValid(p, m, b);
      StepCost(p, m, b);
      RunKeepsHeader(p, Step(p, m, b).m, Step(p, m, b).rest);
    }
  }

  /** The first step of a run reads the header and keeps it to the end. */
  lemma FirstStepSetsHeader(p: Protocol, b: Octets)
    requires Lawful(p) && p.read(MessageHead, b).Got? && Run(p, INITIAL, b).Finished?
    ensures Run(p, INITIAL, b).m.header == Known(p.read(MessageHead, b).tok.header)
  {
    var head := p.read(MessageHead, b);
    var first, rest := Accept(p, INITIAL, head.tok), b[head.used..];
    assert Step(p, INITIAL, b) == Moved(first, rest);
    StepIsValid(p, INITIAL, b);
    RunKeepsHeader(p, first, rest);
  }

  lemma HeaderIsParsed(p: Protocol, b: Octets)
    requires Lawful(p) && ParseMessage(p, b).Ok? && Run(p, INITIAL, b).Finished?
    ensures Run(p, INITIAL, b).m.header == Known(ParseMessage(p, b).value.header)
  {
    FirstStepSetsHeader(p, b);
  }

  /** The automaton finishes exactly when the parser accepts, waits exactly when the parser runs
      short and throws exactly when it rejects; when it finishes it has written the encoding of the
      parsed message, kept its header and left what the parser left. */
  lemma RunRefinesParser(p: Protocol, b: Octets)
    requires Lawful(p)
    ensures
      var r := Run(p, INITIAL, b);
      match ParseMessage(p, b)
      case Ok(message, rest) =>
        r.Finished? && r.m.origin == EncodeMessage(p, message) && r.rest == rest && r.m.header == Known(message.header)
      case Short => r.Suspended?
      case Wrong => r.Crashed?
  {
    RunMeans(p, INITIAL, b);
    var parsed := ParseMessage(p, b);
    if parsed.Ok? {
      assert [] + EncodeMessage(p, parsed.value) == EncodeMessage(p, parsed.value);
      HeaderIsParsed(p, b);
    }
  }

  /** A finished run has read at least one octet. */
  lemma FinishedConsumes(p: Protocol, b: Octets)
    requires Lawful(p) && Run(p, INITIAL, b).Finished?
    ensures |Run(p, INITIAL, b).rest| < |b|
  {
    RunRefinesParser(p, b);
  }

  /** Every message of any nesting, with anything behind it: the run consumes exactly the encoding
      and reproduces it. */
  lemma TranscodesEveryMessage(p: Protocol, message: Message, s: Octets)
    requires Lawful(p) && SendableMessage(p, message)
    ensures
      var r := Run(p, INITIAL, EncodeMessage(p, message) + s);
      r.Finished? && r.rest == s && r.m.origin == EncodeMessage(p, message) && r.m.header == Known(message.header)
  {
    ParseEncodedMessage(p, message, s);
    RunRefinesParser(p, EncodeMessage(p, message) + s);
  }

  /** Conversely, whatever is consumed is a message, and what was written reads back as it: sending
      the output through a second proxy changes nothing. */
  lemma TranscodingIsIdempotent(p: Protocol, b: Octets, s: Octets)
    requires Lawful(p) && Run(p, INITIAL, b).Finished?
    ensures
      var out := Run(p, INITIAL, b).m.origin;
      && ParseMessage(p, b).Ok?
      && ParseMessage(p, out + s) == Ok(ParseMessage(p, b).value, s)
      && Run(p, INITIAL, out + s).Finished?
      && Run(p, INITIAL, out + s).m.origin == out
      && Run(p, INITIAL, out + s).rest == s
  {
    RunRefinesParser(p, b);
    ParsedMessageIsSendable(p, b);
    var message := ParseMessage(p, b).value;
    ParseEncodedMessage(p, message, s);
    TranscodesEveryMessage(p, message, s);
  }

  /** The same for input that arrives in any pieces. */
  lemma TranscodesInPieces(p: Protocol, message: Message, s: Octets, chunks: seq<Octets>)
    requires Lawful(p) && SendableMessage(p, message) && Join(chunks) == EncodeMessage(p, message) + s
    ensures
      var r := Feed(p, Run(p, INITIAL, []), chunks);
      r.Finished? && r.rest == s && r.m.origin == EncodeMessage(p, message)
  {
    ChunkingIsInvisible(p, chunks);
    TranscodesEveryMessage(p, message, s);
  }
}
