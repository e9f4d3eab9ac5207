/** The codec of dubbo_codec.cc on values: a two-phase machine, the codec around it, the laws of the
    framing pipeline, and conservation of every octet. */
module DubboCodec {
  import opened Bytes
  import opened CodecInterface
  import opened StreamSplitting
  import opened ByteConservation
  import opened DubboProtocol

  datatype ProtocolState = WaitForData | OnDecodeStreamHeader | OnDecodeStreamData | Done

  datatype MaybeContext = NoContext | Known(context: Context)

  /** The fields of DecoderStateMachine. */
  datatype Machine = Machine(state: ProtocolState, metadata: MessageMetadata, context: MaybeContext)

  const INITIAL := Machine(OnDecodeStreamHeader, NEW_METADATA, NoContext)

  /** The octets a machine has taken out of the buffer. */
  function Taken(m: Machine): Octets {
    if m.context.Known? then m.context.context.origin else []
  }

  predicate IsHeartbeat(t: MessageType) {
    t.HeartbeatRequest? || t.HeartbeatResponse?
  }

  /** Nothing is taken before the header is, and all of the message once the machine is done. */
  predicate Valid(m: Machine) {
    match m.state
    case WaitForData => false
    case OnDecodeStreamHeader => Taken(m) == []
    case OnDecodeStreamData =>
      && m.context.Known? && |Taken(m)| == m.context.context.headerSize
      && !IsHeartbeat(m.metadata.messageType) && !m.metadata.messageType.Exception?
    case Done => m.context.Known? && |Taken(m)| == m.context.context.headerSize + m.context.context.bodySize
  }

  /** One `handleState`: the machine moves, waits with what it has learnt, or an exception leaves it. */
  datatype StepResult = Moved(m: Machine, rest: Octets) | Waits(m: Machine) | Fails

  function Take(c: Context, b: Octets, n: nat): Context
    requires n <= |b|
  {
    c.(origin := c.origin + b[..n])
  }

  function OnHeader(m: Machine, b: Octets): StepResult {
    match DecodeHeader(b, m.metadata)
    case ShortHeader => Waits(m)
    case BadHeader => Fails
    case Header(c, md) =>
      var size := c.headerSize + c.bodySize;
      if IsHeartbeat(md.messageType) then
        if |b| < size then Waits(Machine(m.state, md, Known(c)))
        else Moved(Machine(Done, md, Known(Take(c, b, size))), b[size..])
      else
        Moved(Machine(OnDecodeStreamData, md, Known(Take(c, b, c.headerSize))), b[c.headerSize..])
  }

  function OnData(h: Hessian, m: Machine, b: Octets): StepResult
    requires LawfulHessian(h) && Valid(m) && m.state == OnDecodeStreamData
  {
    var c := m.context.context;
    match DecodeData(h, b, c.bodySize, m.metadata)
    case ShortData => Waits(m)
    case BadData => Fails
    case Data(md) => Moved(Machine(Done, md, Known(Take(c, b, c.bodySize))), b[c.bodySize..])
  }

  function Step(h: Hessian, m: Machine, b: Octets): StepResult
    requires LawfulHessian(h) && Valid(m) && m.state != Done
  {
    if m.state == OnDecodeStreamHeader then OnHeader(m, b) else OnData(h, m, b)
  }

  function StatesLeft(s: ProtocolState): nat {
    match s
    case OnDecodeStreamHeader => 2
    case OnDecodeStreamData => 1
    case _ => 0
  }

  /** A step keeps the machine valid, conserves the octets, and moves towards the end. */
  lemma StepConserves(h: Hessian, m: Machine, b: Octets)
    requires LawfulHessian(h) && Valid(m) && m.state != Done
    ensures
      match Step(h, m, b)
      case Moved(m1, rest) =>
        Valid(m1) && StatesLeft(m1.state) < StatesLeft(m.state) && Taken(m1) + rest == Taken(m) + b
      case Waits(m1) => Valid(m1) && m1.state == m.state && Taken(m1) == Taken(m)
      case Fails => true
  {
    var r := Step(h, m, b);
    if r.Moved? {
      var n := |b| - |r.rest|;
      assert Taken(r.m) == Taken(m) + b[..n] && r.rest == b[n..];
      Regroup2(Taken(m), b[..n], b[n..]);
      assert b[..n] + b[n..] == b;
    }
  }

  datatype RunResult = Finished(m: Machine, rest: Octets) | Suspended(m: Machine, rest: Octets) | Crashed

  /** `run`. */
  function Run(h: Hessian, m: Machine, b: Octets): (r: RunResult)
    requires LawfulHessian(h) && Valid(m)
    ensures !r.Crashed? ==> Valid(r.m) && (r.m.state == Done <==> r.Finished?)
    ensures !r.Crashed? ==> Taken(r.m) + r.rest == Taken(m) + b
    decreases StatesLeft(m.state)
  {
    if m.state == Done then Finished(m, b)
    else
      StepConserves(h, m, b);
      match Step(h, m, b)
      case Fails => Crashed
      case Waits(m1) => Suspended(m1, b)
      case Moved(m1, rest) => Run(h, m1, rest)
  }

  /** A verdict is not disturbed by octets that arrive behind it, and asking again with more octets
      is the same as having asked with all of them. */
  lemma StepIsStable(h: Hessian, m: Machine, b: Octets, x: Octets)
    requires LawfulHessian(h) && Valid(m) && m.state != Done
    ensures
      match Step(h, m, b)
      case Moved(m1, rest) => Step(h, m, b + x) == Moved(m1, rest + x)
      case Waits(m1) => Valid(m1) && m1.state == m.state && Step(h, m1, b + x) == Step(h, m, b + x)
      case Fails => Step(h, m, b + x).Fails?
  {
    StepConserves(h, m, b);
    if m.state == OnDecodeStreamHeader {
      HeaderIsStable(m, b, x);
    } else {
      DataIsStable(h, m, b, x);
    }
  }

  lemma TakeIsStable(c: Context, b: Octets, x: Octets, n: nat)
    requires n <= |b|
    ensures Take(c, b + x, n) == Take(c, b, n) && (b + x)[n..] == b[n..] + x
  {
    assert (b + x)[..n] == b[..n];
  }

  lemma HeaderIsStable(m: Machine, b: Octets, x: Octets)
    ensures
      match OnHeader(m, b)
      case Moved(m1, rest) => OnHeader(m, b + x) == Moved(m1, rest + x)
      case Waits(m1) => OnHeader(m1, b + x) == OnHeader(m, b + x)
      case Fails => OnHeader(m, b + x).Fails?
  {
    if |b| >= HEADER_SIZE {
      HeaderIsLocal(b, x, m.metadata);
      var r := DecodeHeader(b, m.metadata);
      if r.Header? {
        HeaderIsIdempotent(b + x, m.metadata);
        var step := OnHeader(m, b);
        if step.Moved? {
          TakeIsStable(r.context, b, x, |b| - |step.rest|);
        }
      }
    }
  }

  lemma DataIsStable(h: Hessian, m: Machine, b: Octets, x: Octets)
    requires LawfulHessian(h) && Valid(m) && m.state == OnDecodeStreamData
    ensures
      match OnData(h, m, b)
      case Moved(m1, rest) => OnData(h, m, b + x) == Moved(m1, rest + x)
      case Waits(m1) => m1 == m
      case Fails => OnData(h, m, b + x).Fails?
  {
    var c := m.context.context;
    if c.bodySize <= |b| {
      BodyIsLocal(h, b, x, c.bodySize, m.metadata);
      TakeIsStable(c, b, x, c.bodySize);
    }
  }

  lemma {:induction false} RunResumes(h: Hessian, m: Machine, b: Octets, x: Octets)
    requires LawfulHessian(h) && Valid(m)
    ensures
      match Run(h, m, b)
      case Finished(m1, rest) => Run(h, m, b + x) == Finished(m1, rest + x)
      case Suspended(m1, rest) => Run(h, m, b + x) == Run(h, m1, rest + x)
      case Crashed => Run(h, m, b + x).Crashed?
    decreases StatesLeft(m.state)
  {
    if m.state != Done {
      StepIsStable(h, m, b, x);
      StepConserves(h, m, b);
      if Step(h, m, b).Moved? {
        RunResumes(h, Step(h, m, b).m, Step(h, m, b).rest, x);
      }
    }
  }

  // The codec.

  /** `state_machine_`, which is set exactly while `decode_started_` is. */
  datatype CodecState = NotStarted | Decoding(m: Machine)

  /** The invariant between two calls. */
  predicate Live(s: CodecState) {
    s.Decoding? ==> Valid(s.m) && s.m.state != Done
  }

  function KindOf(t: MessageType): MessageKind {
    match t
    case Request => MessageKind.Request
    case Response => MessageKind.Response
    case Oneway => MessageKind.Oneway
    case Exception => Error
    case HeartbeatRequest => Heartbeat
    case HeartbeatResponse => Heartbeat
  }

  function ToMetadata(md: MessageMetadata, c: Context): Metadata {
    RangeValues();
    var failed := md.status.Status? && md.status.code != OK;
    Metadata(KindOf(md.messageType), Unsigned(md.requestId, 8), if failed then ErrorStatus else OkStatus,
             c.headerSize, c.bodySize, c.origin)
  }

  /** `decode` on the states a codec can be in; on any other it has no meaning and rejects. */
  function Decode(h: Hessian, s: CodecState, b: Octets): Decoded<CodecState>
    requires LawfulHessian(h)
  {
    if !Live(s) then Rejected
    else
      match Run(h, if s.Decoding? then s.m else INITIAL, b)
      case Crashed => Rejected
      case Suspended(m, rest) => NeedsMore(Decoding(m), rest)
      case Finished(m, rest) => Complete(NotStarted, rest, ToMetadata(m.metadata, m.context.context))
  }

  function Dubbo(h: Hessian): Codec<CodecState>
    requires LawfulHessian(h)
  {
    Codec(NotStarted, (s, b) => Decode(h, s, b))
  }

  lemma DecodeIsStable(h: Hessian, s: CodecState, b: Octets, x: Octets)
    requires LawfulHessian(h)
    ensures StableAt(Dubbo(h), s, b, x)
  {
    if Live(s) {
      var m := if s.Decoding? then s.m else INITIAL;
      RunResumes(h, m, b, x);
      var r := Run(h, m, b);
      if r.Suspended? {
        assert Decode(h, Decoding(r.m), r.rest + x) == Decode(h, s, b + x);
      }
    }
  }

  lemma {:induction false} RestShrinks(h: Hessian, m: Machine, b: Octets)
    requires LawfulHessian(h) && Valid(m)
    ensures !Run(h, m, b).Crashed? ==> |Run(h, m, b).rest| <= |b|
    decreases StatesLeft(m.state)
  {
    if m.state != Done {
      StepConserves(h, m, b);
      if Step(h, m, b).Moved? {
        RestShrinks(h, Step(h, m, b).m, Step(h, m, b).rest);
      }
    }
  }

  /** A message takes at least its header, whose size is never zero. */
  lemma FinishedConsumes(h: Hessian, m: Machine, b: Octets)
    requires LawfulHessian(h) && Valid(m) && m.state == OnDecodeStreamHeader && Run(h, m, b).Finished?
    ensures |Run(h, m, b).rest| < |b|
  {
    StepConserves(h, m, b);
    var r := Step(h, m, b);
    assert |r.rest| < |b|;
    RestShrinks(h, r.m, r.rest);
  }

  lemma DecodeProgresses(h: Hessian, s: CodecState, b: Octets)
    requires LawfulHessian(h)
    ensures ProgressesAt(Dubbo(h), s, b)
  {
    if Live(s) {
      var m := if s.Decoding? then s.m else INITIAL;
      RestShrinks(h, m, b);
      if s.NotStarted? && Run(h, INITIAL, b).Finished? {
        FinishedConsumes(h, INITIAL, b);
      }
    }
  }

  /** The Dubbo codec obeys the laws of the framing pipeline, whatever Hessian makes of the bodies. */
  lemma DubboIsResumable(h: Hessian)
    requires LawfulHessian(h)
    ensures Resumable(Dubbo(h))
  {
    forall s, b, x
      ensures StableAt(Dubbo(h), s, b, x)
    {
      DecodeIsStable(h, s, b, x);
    }
    forall s, b
      ensures ProgressesAt(Dubbo(h), s, b)
    {
      DecodeProgresses(h, s, b);
    }
  }

  // Conservation.

  function Held(s: CodecState): Octets {
    if s.Decoding? then Taken(s.m) else []
  }

  /** Each call delivers, holds or leaves every octet, and delivers messages as long as their
      headers say. */
  lemma DubboIsConserving(h: Hessian)
    requires LawfulHessian(h)
    ensures Conserving(Dubbo(h), Held)
  {
    forall s, b
      ensures ConservesAt(Dubbo(h), Held, s, b)
    {
      var r := Decode(h, s, b);
    }
  }

  /** What a connection that speaks Dubbo has delivered after these chunks. */
  function Delivered(h: Hessian, chunks: seq<Octets>): Dispatched<CodecState>
    requires LawfulHessian(h)
  {
    DubboIsResumable(h);
    ReceiveAll(Dubbo(h), Opened(Dubbo(h)), chunks)
  }

  /** Over any chunking of any stream, the delivered origin messages, the octets held in the state
      machine and the request buffer make up exactly what was received. */
  lemma DubboStreamIsConserved(h: Hessian, chunks: seq<Octets>)
    requires LawfulHessian(h)
    ensures Conserved(Held, Delivered(h, chunks), Join(chunks))
  {
    DubboIsResumable(h);
    DubboIsConserving(h);
    StreamIsConserved(Dubbo(h), Held, chunks);
  }

  /** The callbacks depend on the stream and not on how it was chunked. */
  lemma DubboChunkingIsInvisible(h: Hessian, one: seq<Octets>, other: seq<Octets>)
    requires LawfulHessian(h) && Join(one) == Join(other)
    ensures Delivered(h, one) == Delivered(h, other)
  {
    DubboIsResumable(h);
    SameStreamSameCallbacks(Dubbo(h), one, other);
  }
}
