/** The codec of thrift_codec.cc around the automaton: transport frames, one machine per message,
    and the fields that survive between two calls of `decode`. */
module ThriftCodec {
  import opened Bytes
  import opened CodecInterface
  import opened ThriftProtocol
  import opened ThriftTree
  import opened ThriftMachine
  import opened ThriftRun
  import opened ThriftTranscoder

  /** The verdict of decodeFrameStart or decodeFrameEnd. */
  datatype Framing = Unfinished | Refused | Framed(used: nat)

  datatype Wrapping = TooLarge | Wrapped(head: Octets, tail: Octets)

  /** The transport interface of src/application_protocols/thrift/transport.h. */
  datatype Transport = Transport(
    frameStart: Octets -> Framing,
    frameEnd: Octets -> Framing,
    encodeFrame: Octets -> Wrapping)

  ghost predicate StableFraming(f: Octets -> Framing) {
    && (forall b :: f(b).Framed? ==> f(b).used <= |b|)
    && (forall b, s {:trigger f(b + s)} :: !f(b).Unfinished? ==> f(b + s) == f(b))
  }

  /** Reading a frame undoes writing it. */
  ghost predicate FramesUnwrap(t: Transport) {
    forall x, s :: t.encodeFrame(x).Wrapped? ==>
      var w := t.encodeFrame(x);
      && t.frameStart(w.head + (x + (w.tail + s))) == Framed(|w.head|)
      && t.frameEnd(w.tail + s) == Framed(|w.tail|)
  }

  ghost predicate LawfulTransport(t: Transport) {
    StableFraming(t.frameStart) && StableFraming(t.frameEnd) && FramesUnwrap(t)
  }

  function Unframed(): Transport {
    Transport(b => Framed(0), b => Framed(0), x => Wrapped([], []))
  }

  /** A signed 32-bit length in front of each message, positive and at most `limit`. */
  function LengthPrefixed(limit: int32): Transport {
    Transport(
      b =>
        if |b| < 4 then Unfinished
        else if ReadInt32(b[0..4]) <= 0 || ReadInt32(b[0..4]) > limit then Refused
        else Framed(4),
      b => Framed(0),
      x => if |x| == 0 || |x| > limit then TooLarge else Wrapped(WriteInt32(|x|), []))
  }

  lemma UnframedIsLawful()
    ensures LawfulTransport(Unframed())
  {
  }

  lemma LengthPrefixedIsLawful(limit: int32)
    ensures LawfulTransport(LengthPrefixed(limit))
  {
    var t := LengthPrefixed(limit);
    forall b, s | !t.frameStart(b).Unfinished?
      ensures t.frameStart(b + s) == t.frameStart(b)
    {
      SliceOfPrefix(b, s, 0, 4);
    }
    forall x, s | t.encodeFrame(x).Wrapped?
      ensures
        var w := t.encodeFrame(x);
        t.frameStart(w.head + (x + (w.tail + s))) == Framed(|w.head|)
    {
      Int32RoundTrip(|x|);
      SliceOfPrefix(WriteInt32(|x|), x + ([] + s), 0, 4);
    }
  }

  datatype MaybeMachine = NoMachine | Running(m: Machine)

  /** `frame_started_`, `frame_ended_`, whether `metadata_` is set, and `state_machine_`. */
  datatype CodecState = CodecState(frameStarted: bool, frameEnded: bool, hasMetadata: bool, machine: MaybeMachine)

  const IDLE := CodecState(false, false, false, NoMachine)

  function InFrame(m: Machine): CodecState {
    CodecState(true, false, true, Running(m))
  }

  /** The invariant between two calls. */
  predicate Live(s: CodecState) {
    && !s.frameEnded
    && (s.frameStarted <==> s.machine.Running?)
    && (s.frameStarted ==> s.hasMetadata)
    && (s.machine.Running? ==> ThriftMachine.Valid(s.machine.m))
  }

  function KindOf(t: MessageType): MessageKind {
    match t
    case Call => Request
    case Reply => Response
    case Oneway => MessageKind.Oneway
    case Exception => Error
  }

  /** `toMetadata`: the sequence id is widened to 64 bits with its sign. */
  function ToMetadata(h: MessageHeader, origin: Octets): Metadata {
    RangeValues();
    Metadata(KindOf(h.kind), Unsigned(h.sequenceId, 8), OkStatus, 0, 0, origin)
  }

  /** The part of `decode` after a finished run: close the frame and hand the message over. */
  function CloseFrame(t: Transport, m: Machine, b: Octets): (r: Decoded<CodecState>)
    requires LawfulTransport(t) && ThriftMachine.Valid(m) && m.state == Done
    ensures r.NeedsMore? ==> r.state == InFrame(m) && Live(r.state) && r.rest == b
    ensures r.Complete? ==> r.state == IDLE && |r.rest| <= |b|
  {
    match t.frameEnd(b)
    case Unfinished => NeedsMore(InFrame(m), b)
    case Refused => Rejected
    case Framed(used) =>
      match t.encodeFrame(m.origin)
      case TooLarge => Rejected
      case Wrapped(head, tail) =>
        Complete(IDLE, b[used..], ToMetadata(m.header.header, head + m.origin + tail))
  }

  /** The part of `decode` that runs the machine. */
  function DecodeBody(p: Protocol, t: Transport, m: Machine, b: Octets): (r: Decoded<CodecState>)
    requires Lawful(p) && LawfulTransport(t) && ThriftMachine.Valid(m)
    ensures r.NeedsMore? ==> Live(r.state) && r.state.machine.Running? && |r.rest| <= |b|
    ensures r.Complete? ==> r.state == IDLE && |r.rest| <= |b|
  {
    match Run(p, m, b)
    case Crashed => Rejected
    case Suspended(m1, rest) => NeedsMore(InFrame(m1), rest)
    case Finished(m1, rest) => CloseFrame(t, m1, rest)
  }

  /** `decode` on the states a codec can be in; on any other it has no meaning and rejects. */
  function Decode(p: Protocol, t: Transport, s: CodecState, b: Octets): (r: Decoded<CodecState>)
    requires Lawful(p) && LawfulTransport(t)
    ensures r.NeedsMore? ==> Live(r.state)
  {
    if !Live(s) then Rejected
    else if s.machine.Running? then DecodeBody(p, t, s.machine.m, b)
    else match t.frameStart(b)
      case Unfinished => NeedsMore(CodecState(false, false, true, NoMachine), b)
      case Refused => Rejected
      case Framed(used) => DecodeBody(p, t, INITIAL, b[used..])
  }

  function Thrift(p: Protocol, t: Transport): Codec<CodecState>
    requires Lawful(p) && LawfulTransport(t)
  {
    Codec(IDLE, (s, b) => Decode(p, t, s, b))
  }

  lemma CloseIsStable(t: Transport, m: Machine, b: Octets, x: Octets)
    requires LawfulTransport(t) && ThriftMachine.Valid(m) && m.state == Done
    ensures
      match CloseFrame(t, m, b)
      case Complete(s1, rest, metadata) => CloseFrame(t, m, b + x) == Complete(s1, rest + x, metadata)
      case NeedsMore(_, _) => true
      case Rejected => CloseFrame(t, m, b + x) == Rejected
  {
    if !t.frameEnd(b).Unfinished? {
      assert t.frameEnd(b + x) == t.frameEnd(b);
      if t.frameEnd(b).Framed? {
        var used := t.frameEnd(b).used;
        assert (b + x)[used..] == b[used..] + x;
      }
    }
  }

  lemma BodyIsStable(p: Protocol, t: Transport, m: Machine, b: Octets, x: Octets)
    requires Lawful(p) && LawfulTransport(t) && ThriftMachine.Valid(m)
    ensures
      match DecodeBody(p, t, m, b)
      case Complete(s1, rest, metadata) => DecodeBody(p, t, m, b + x) == Complete(s1, rest + x, metadata)
      case NeedsMore(s1, rest) => DecodeBody(p, t, m, b + x) == DecodeBody(p, t, s1.machine.m, rest + x)
      case Rejected => DecodeBody(p, t, m, b + x) == Rejected
  {
    RunResumes(p, m, b, x);
    var r := Run(p, m, b);
    if r.Finished? {
      CloseIsStable(t, r.m, r.rest, x);
    }
  }

  lemma DecodeIsStable(p: Protocol, t: Transport, s: CodecState, b: Octets, x: Octets)
    requires Lawful(p) && LawfulTransport(t)
    ensures StableAt(Thrift(p, t), s, b, x)
  {
    if Live(s) {
      if s.machine.Running? {
        BodyIsStable(p, t, s.machine.m, b, x);
      } else if t.frameStart(b).Framed? {
        var used := t.frameStart(b).used;
        assert t.frameStart(b + x) == t.frameStart(b);
        assert (b + x)[used..] == b[used..] + x;
        BodyIsStable(p, t, INITIAL, b[used..], x);
      } else if t.frameStart(b).Refused? {
        assert t.frameStart(b + x) == t.frameStart(b);
      }
    }
  }

  lemma DecodeProgresses(p: Protocol, t: Transport, s: CodecState, b: Octets)
    requires Lawful(p) && LawfulTransport(t)
    ensures ProgressesAt(Thrift(p, t), s, b)
  {
    if Decode(p, t, s, b).Complete? && !s.machine.Running? {
      FinishedConsumes(p, b[t.frameStart(b).used..]);
    }
  }

  /** The Thrift codec obeys the laws of the framing pipeline, over any lawful protocol and transport. */
  lemma ThriftIsResumable(p: Protocol, t: Transport)
    requires Lawful(p) && LawfulTransport(t)
    ensures Resumable(Thrift(p, t))
  {
    forall s, b, x
      ensures StableAt(Thrift(p, t), s, b, x)
    {
      DecodeIsStable(p, t, s, b, x);
    }
    forall s, b
      ensures ProgressesAt(Thrift(p, t), s, b)
    {
      DecodeProgresses(p, t, s, b);
    }
  }

  /** The metadata say what the header says: the kind of the message, the sequence id as an unsigned
      number of 64 bits, and the octets of the frame. */
  predicate Describes(md: Metadata, h: MessageHeader, wire: Octets) {
    && (md.kind.Request? <==> h.kind.Call?)
    && (md.kind.Response? <==> h.kind.Reply?)
    && (md.kind.Oneway? <==> h.kind.Oneway?)
    && (md.kind.Error? <==> h.kind.Exception?)
    && md.requestId == h.sequenceId % 0x1_0000_0000_0000_0000
    && md.status == OkStatus && md.headerSize == 0 && md.bodySize == 0 && md.origin == wire
  }

  lemma MetadataDescribes(h: MessageHeader, wire: Octets)
    ensures Describes(ToMetadata(h, wire), h, wire)
  {
    RangeValues();
  }

  /** A framed message on the wire is delivered with its own octets as origin message, its kind and
      its id. */
  lemma DeliversWhatWasSent(p: Protocol, t: Transport, message: Message, s: Octets)
    requires Lawful(p) && LawfulTransport(t) && SendableMessage(p, message)
    requires t.encodeFrame(EncodeMessage(p, message)).Wrapped?
    ensures
      var x := EncodeMessage(p, message);
      var w := t.encodeFrame(x);
      var wire := w.head + x + w.tail;
      && Decode(p, t, IDLE, wire + s) == Complete(IDLE, s, ToMetadata(message.header, wire))
      && Describes(ToMetadata(message.header, wire), message.header, wire)
  {
    var x := EncodeMessage(p, message);
    var w := t.encodeFrame(x);
    Regroup3(w.head, x, w.tail, s);
    var b := w.head + (x + (w.tail + s));
    assert b[|w.head|..] == x + (w.tail + s);
    TranscodesEveryMessage(p, message, w.tail + s);
    assert (w.tail + s)[|w.tail|..] == s;
    MetadataDescribes(message.header, w.head + x + w.tail);
  }

  /** What an idle codec makes of any octets, by the parser: it waits while the frame or the message
      is short, throws when either is wrong or the output cannot be framed again, and else hands
      over the parsed message, encoded and framed anew. */
  lemma DecodeRefinesParser(p: Protocol, t: Transport, b: Octets)
    requires Lawful(p) && LawfulTransport(t)
    ensures
      var r, start := Decode(p, t, IDLE, b), t.frameStart(b);
      match start
      case Unfinished => r.NeedsMore? && r.rest == b
      case Refused => r.Rejected?
      case Framed(used) =>
        var parsed := ParseMessage(p, b[used..]);
        && (parsed.Short? ==> r.NeedsMore?)
        && (parsed.Wrong? ==> r.Rejected?)
        && (parsed.Ok? ==> Closes(t, r, parsed.value.header, EncodeMessage(p, parsed.value), parsed.rest))
  {
    if t.frameStart(b).Framed? {
      RunRefinesParser(p, b[t.frameStart(b).used..]);
      var parsed := ParseMessage(p, b[t.frameStart(b).used..]);
      if parsed.Ok? && t.encodeFrame(EncodeMessage(p, parsed.value)).Wrapped? {
        var w := t.encodeFrame(EncodeMessage(p, parsed.value));
        MetadataDescribes(parsed.value.header, w.head + EncodeMessage(p, parsed.value) + w.tail);
      }
    }
  }

  /** The end of a frame around a message that encodes as `x`. */
  predicate Closes(t: Transport, r: Decoded<CodecState>, h: MessageHeader, x: Octets, rest: Octets)
    requires LawfulTransport(t)
  {
    match t.frameEnd(rest)
    case Unfinished => r.NeedsMore? && r.rest == rest
    case Refused => r.Rejected?
    case Framed(used) =>
      var w := t.encodeFrame(x);
      && (w.TooLarge? ==> r.Rejected?)
      && (w.Wrapped? ==> r.Complete? && r.rest == rest[used..] && Describes(r.metadata, h, w.head + x + w.tail))
  }
}
