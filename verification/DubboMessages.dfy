/** Dubbo messages on the wire, from octets to what the proxy is told about them: whatever can be
    written is delivered as it was meant, and whatever breaks a rule makes the codec throw. */
module DubboMessages {
  import opened Bytes
  import Codecs = CodecInterface
  import opened DubboProtocol
  import opened DubboCodec

  // Any frame.

  function Frame(flag: byte, status: byte, requestId: int64, body: Octets): Octets {
    HeaderOctets(flag, status, requestId, |body|) + body
  }

  predicate IsEvent(flag: byte) {
    flag / 0x20 % 2 == 1
  }

  /** What the state machine knows once it has read the header. */
  function HeaderMetadata(flag: byte, status: byte, requestId: int64): (md: MessageMetadata)
    ensures !IsEvent(flag) ==> md.messageType.Oneway? || md.messageType.Request? || md.messageType.Response?
  {
    MessageMetadata(Announced(flag), requestId, if flag >= 0x80 then NoStatus else Status(status), 2, NoInvocation)
  }

  /** The header handler on a whole frame: it throws, takes an event as a whole, or takes the header. */
  lemma HeaderStep(flag: byte, status: byte, requestId: int64, body: Octets, s: Octets)
    requires |body| < 0x1_0000_0000
    ensures
      var frame := Frame(flag, status, requestId, body);
      var md := HeaderMetadata(flag, status, requestId);
      OnHeader(INITIAL, frame + s) ==
      if !Acceptable(flag, status, |body|) then Fails
      else if IsEvent(flag) then Moved(Machine(Done, md, Known(Context(16, |body|, true, frame))), s)
      else
        Moved(Machine(OnDecodeStreamData, md,
                      Known(Context(16, |body|, false, HeaderOctets(flag, status, requestId, |body|)))), body + s)
  {
    HeaderReads(flag, status, requestId, |body|, NEW_METADATA, body + s);
    FrameSlices(HeaderOctets(flag, status, requestId, |body|), body, s);
  }

  lemma FrameSlices(header: Octets, body: Octets, s: Octets)
    ensures
      var b := header + body + s;
      && b == header + (body + s)
      && [] + b[..|header|] == header && b[|header|..] == body + s
      && [] + b[..|header| + |body|] == header + body && b[|header| + |body|..] == s
  {
  }

  /** And the body handler, which looks at the body alone. */
  lemma BodyStep(h: Hessian, flag: byte, status: byte, requestId: int64, body: Octets, s: Octets)
    requires LawfulHessian(h) && !IsEvent(flag)
    ensures
      var header, md := HeaderOctets(flag, status, requestId, |body|), HeaderMetadata(flag, status, requestId);
      var m := Machine(OnDecodeStreamData, md, Known(Context(16, |body|, false, header)));
      && DubboCodec.Valid(m)
      && OnData(h, m, body + s) ==
         match DecodeData(h, body, |body|, md)
         case ShortData => Waits(m)
         case BadData => Fails
         case Data(md1) => Moved(Machine(Done, md1, Known(Context(16, |body|, false, header + body))), s)
  {
    var md := HeaderMetadata(flag, status, requestId);
    BodyAlone(h, body, s, md);
    assert (body + s)[..|body|] == body && (body + s)[|body|..] == s;
  }

  /** A run goes on from where its first step leaves it. */
  lemma RunGoesOn(h: Hessian, m: Machine, b: Octets)
    requires LawfulHessian(h) && DubboCodec.Valid(m) && m.state != Done
    ensures
      var r := Step(h, m, b);
      && (r.Moved? ==> DubboCodec.Valid(r.m) && Run(h, m, b) == Run(h, r.m, r.rest))
      && (r.Fails? ==> Run(h, m, b) == Crashed)
  {
    StepConserves(h, m, b);
  }

  /** An event frame, or one whose header is refused. */
  lemma EventRuns(h: Hessian, flag: byte, status: byte, requestId: int64, body: Octets, s: Octets)
    requires LawfulHessian(h) && |body| < 0x1_0000_0000 && (IsEvent(flag) || !Acceptable(flag, status, |body|))
    ensures
      var frame, md := Frame(flag, status, requestId, body), HeaderMetadata(flag, status, requestId);
      Run(h, INITIAL, frame + s) ==
      if !Acceptable(flag, status, |body|) then Crashed
      else Finished(Machine(Done, md, Known(Context(16, |body|, true, frame))), s)
  {
    HeaderStep(flag, status, requestId, body, s);
    RunGoesOn(h, INITIAL, Frame(flag, status, requestId, body) + s);
  }

  /** Any other frame. */
  lemma BodyRuns(h: Hessian, flag: byte, status: byte, requestId: int64, body: Octets, s: Octets)
    requires LawfulHessian(h) && !IsEvent(flag) && Acceptable(flag, status, |body|)
    ensures
      var frame, md := Frame(flag, status, requestId, body), HeaderMetadata(flag, status, requestId);
      Run(h, INITIAL, frame + s) ==
      var r := DecodeData(h, body, |body|, md);
      if r.Data? then Finished(Machine(Done, r.metadata, Known(Context(16, |body|, false, frame))), s) else Crashed
  {
    var header, md := HeaderOctets(flag, status, requestId, |body|), HeaderMetadata(flag, status, requestId);
    var m := Machine(OnDecodeStreamData, md, Known(Context(16, |body|, false, header)));
    HeaderStep(flag, status, requestId, body, s);
    BodyStep(h, flag, status, requestId, body, s);
    RunGoesOn(h, INITIAL, Frame(flag, status, requestId, body) + s);
    RunGoesOn(h, m, body + s);
  }

  /** A whole frame through an idle codec. */
  lemma FrameDecodes(h: Hessian, flag: byte, status: byte, requestId: int64, body: Octets, s: Octets)
    requires LawfulHessian(h) && |body| < 0x1_0000_0000
    ensures
      var frame, md := Frame(flag, status, requestId, body), HeaderMetadata(flag, status, requestId);
      Decode(h, NotStarted, frame + s) ==
      if !Acceptable(flag, status, |body|) then Codecs.Rejected
      else if IsEvent(flag) then
        Codecs.Complete(NotStarted, s, ToMetadata(md, Context(16, |body|, true, frame)))
      else
        var r := DecodeData(h, body, |body|, md);
        if r.Data? then Codecs.Complete(NotStarted, s, ToMetadata(r.metadata, Context(16, |body|, false, frame)))
        else Codecs.Rejected
  {
    if IsEvent(flag) || !Acceptable(flag, status, |body|) {
      EventRuns(h, flag, status, requestId, body, s);
    } else {
      BodyRuns(h, flag, status, requestId, body, s);
    }
  }

  // Messages.

  /** A writer of Hessian values that the reader undoes; each value takes an octet or more. */
  datatype Writer = Writer(writeString: Octets -> Octets, writeInt: int32 -> Octets)

  ghost predicate Undoes(h: Hessian, w: Writer) {
    && (forall x, s :: h.readString(w.writeString(x) + s) == Value(x, |w.writeString(x)|))
    && (forall i: int32, s :: h.readInt(w.writeInt(i) + s) == Value(i, |w.writeInt(i)|))
    && (forall x :: w.writeString(x) != [])
  }

  datatype RpcResponseType =
    | ResponseWithException
    | ResponseWithValue
    | ResponseWithNullValue
    | ResponseWithExceptionWithAttachments
    | ResponseValueWithAttachments
    | ResponseNullValueWithAttachments

  function CodeOf(t: RpcResponseType): byte {
    match t
    case ResponseWithException => 0
    case ResponseWithValue => 1
    case ResponseWithNullValue => 2
    case ResponseWithExceptionWithAttachments => 3
    case ResponseValueWithAttachments => 4
    case ResponseNullValueWithAttachments => 5
  }

  predicate IsException(t: RpcResponseType) {
    t.ResponseWithException? || t.ResponseWithExceptionWithAttachments?
  }

  predicate IsNull(t: RpcResponseType) {
    t.ResponseWithNullValue? || t.ResponseNullValueWithAttachments?
  }

  /** The outcome of decodeData on a result, for every type there can be and whatever stands behind
      it in the body: the types are cast to eight bits, an exception is told apart, nothing may
      stand behind a null value, and any other type throws. */
  lemma ResultReads(h: Hessian, w: Writer, typeValue: int32, content: Octets, md: MessageMetadata, s: Octets)
    requires LawfulHessian(h) && Undoes(h, w) && md.messageType.Response?
    ensures
      var body, code := w.writeInt(typeValue) + content, typeValue % 0x100;
      DecodeData(h, body + s, |body|, md) ==
      if code in {0, 3} then Data(md.(messageType := Exception))
      else if code in {1, 4} || (code in {2, 5} && content == []) then Data(md)
      else BadData
  {
    Regroup2(w.writeInt(typeValue), content, s);
    assert h.readInt(w.writeInt(typeValue) + (content + s)) == Value(typeValue, |w.writeInt(typeValue)|);
  }

  /** serializeRpcResult. */
  function SerializeResult(w: Writer, t: RpcResponseType, content: Octets): Octets {
    w.writeInt(CodeOf(t)) + w.writeString(content)
  }

  /** What the repository's own writer writes, its own reader takes as an exception or a response
      by its type, except that it refuses both types without a value: the writer puts the content
      behind them all the same. */
  lemma ResultRoundTrip(h: Hessian, w: Writer, t: RpcResponseType, content: Octets, md: MessageMetadata, s: Octets)
    requires LawfulHessian(h) && Undoes(h, w) && md.messageType.Response?
    ensures
      var body := SerializeResult(w, t, content);
      var r := DecodeData(h, body + s, |body|, md);
      && (r.Data? <==> !IsNull(t))
      && (r.Data? ==> r.metadata == md.(messageType := if IsException(t) then Exception else Response))
      && (!r.Data? ==> r.BadData?)
  {
    ResultReads(h, w, CodeOf(t), w.writeString(content), md, s);
  }

  /** The strings in front of the arguments of a call. */
  datatype Call = Call(dubboVersion: Octets, service: Octets, version: Octets, methodName: Octets)

  function StringsOf(c: Call): seq<Octets> {
    [c.dubboVersion, c.service, c.version, c.methodName]
  }

  function WriteStrings(w: Writer, xs: seq<Octets>): Octets {
    if xs == [] then [] else w.writeString(xs[0]) + WriteStrings(w, xs[1..])
  }

  lemma {:induction false} StringsRead(h: Hessian, w: Writer, xs: seq<Octets>, s: Octets)
    requires LawfulHessian(h) && Undoes(h, w)
    ensures ReadStrings(h, |xs|, WriteStrings(w, xs) + s) == Value(xs, |WriteStrings(w, xs)|)
    decreases |xs|
  {
    if xs != [] {
      var first, rest := w.writeString(xs[0]), WriteStrings(w, xs[1..]);
      Regroup2(first, rest, s);
      StringsRead(h, w, xs[1..], s);
      assert (first + (rest + s))[|first|..] == rest + s;
      assert [xs[0]] + xs[1..] == xs;
    }
  }

  function Strings(w: Writer, c: Call): Octets {
    WriteStrings(w, StringsOf(c))
  }

  /** A written call reads back as its service, version and method, whatever the arguments and
      whatever is pipelined behind; a body that ends before the strings do throws. */
  lemma InvocationReads(h: Hessian, w: Writer, c: Call, s: Octets, bodySize: nat, md: MessageMetadata)
    requires LawfulHessian(h) && Undoes(h, w) && bodySize <= |Strings(w, c) + s|
    requires md.messageType.Oneway? || md.messageType.Request?
    ensures
      DecodeData(h, Strings(w, c) + s, bodySize, md) ==
      if bodySize < |Strings(w, c)| then BadData
      else Data(md.(invocation := Invoked(Invocation(c.service, c.version, c.methodName))))
  {
    StringsRead(h, w, StringsOf(c), s);
  }

  /** An event, a call with its arguments, and a result with what stands behind its type. */
  datatype Message =
    | Event(request: bool, twoWay: bool, status: byte, requestId: int64, content: Octets)
    | Invoke(twoWay: bool, status: byte, requestId: int64, call: Call, arguments: Octets)
    | Result(status: byte, requestId: int64, kind: RpcResponseType, rest: Octets)

  function FlagOf(x: Message): byte {
    match x
    case Event(request, twoWay, _, _, _) => 0x22 + (if request then 0x80 else 0) + (if twoWay then 0x40 else 0)
    case Invoke(twoWay, _, _, _, _) => 0x82 + if twoWay then 0x40 else 0
    case Result(_, _, _, _) => 0x02
  }

  function BodyOf(w: Writer, x: Message): Octets {
    match x
    case Event(_, _, _, _, content) => content
    case Invoke(_, _, _, call, arguments) => Strings(w, call) + arguments
    case Result(_, _, kind, rest) => w.writeInt(CodeOf(kind)) + rest
  }

  function WireOf(w: Writer, x: Message): Octets {
    Frame(FlagOf(x), x.status, x.requestId, BodyOf(w, x))
  }

  /** What a message must keep to: the limit of the body, a readable status in what is not a
      request, and nothing behind a null value. */
  predicate KeepsRules(w: Writer, x: Message) {
    && |BodyOf(w, x)| <= 0x100_0000
    && match x
       case Event(request, _, status, _, _) => request || status in READABLE
       case Invoke(_, _, _, _, _) => true
       case Result(status, _, kind, rest) => status in READABLE && (IsNull(kind) ==> rest == [])
  }

  function KindOf(x: Message): Codecs.MessageKind {
    match x
    case Event(_, _, _, _, _) => Codecs.Heartbeat
    case Invoke(twoWay, _, _, _, _) => if twoWay then Codecs.Request else Codecs.Oneway
    case Result(_, _, kind, _) => if IsException(kind) then Codecs.Error else Codecs.Response
  }

  predicate IsRequest(x: Message) {
    x.Invoke? || (x.Event? && x.request)
  }

  /** What the proxy is to be told of a message. */
  function Meant(w: Writer, x: Message): Codecs.Metadata {
    Codecs.Metadata(
      KindOf(x), x.requestId % 0x1_0000_0000_0000_0000,
      if IsRequest(x) || x.status == 20 then Codecs.OkStatus else Codecs.ErrorStatus,
      16, |BodyOf(w, x)|, WireOf(w, x))
  }

  /** A message on the wire, whatever follows it, is delivered with its kind, its id, its status and
      its own octets exactly when it keeps to the rules; otherwise the codec throws. */
  lemma MessageDecodes(h: Hessian, w: Writer, x: Message, s: Octets)
    requires LawfulHessian(h) && Undoes(h, w) && |BodyOf(w, x)| < 0x1_0000_0000
    ensures
      Decode(h, NotStarted, WireOf(w, x) + s) ==
      if KeepsRules(w, x) then Codecs.Complete(NotStarted, s, Meant(w, x)) else Codecs.Rejected
  {
    FrameDecodes(h, FlagOf(x), x.status, x.requestId, BodyOf(w, x), s);
    MessageMeans(h, w, x);
  }

  /** What the header and the body of a message come to, taken one after the other. */
  predicate Comes(h: Hessian, w: Writer, x: Message)
    requires LawfulHessian(h) && (x.Event? || !IsEvent(FlagOf(x)))
  {
    var flag, body := FlagOf(x), BodyOf(w, x);
    var md, accepted := HeaderMetadata(flag, x.status, x.requestId), Acceptable(flag, x.status, |body|);
    && (IsEvent(flag) <==> x.Event?)
    && if x.Event? then
         && (KeepsRules(w, x) <==> accepted)
         && ToMetadata(md, Context(16, |body|, true, WireOf(w, x))) == Meant(w, x)
       else
         var r := DecodeData(h, body, |body|, md);
         && (KeepsRules(w, x) <==> accepted && r.Data?)
         && (r.Data? ==> ToMetadata(r.metadata, Context(16, |body|, false, WireOf(w, x))) == Meant(w, x))
  }

  lemma MessageMeans(h: Hessian, w: Writer, x: Message)
    requires LawfulHessian(h) && Undoes(h, w)
    ensures (x.Event? || !IsEvent(FlagOf(x))) && Comes(h, w, x)
  {
    RangeValues();
    if x.Invoke? {
      InvokeMeans(h, w, x);
    } else if x.Result? {
      ResultMeans(h, w, x);
    }
  }

  lemma InvokeMeans(h: Hessian, w: Writer, x: Message)
    requires LawfulHessian(h) && Undoes(h, w) && x.Invoke?
    ensures !IsEvent(FlagOf(x)) && Comes(h, w, x)
  {
    RangeValues();
    var body, md := BodyOf(w, x), HeaderMetadata(FlagOf(x), x.status, x.requestId);
    InvocationReads(h, w, x.call, x.arguments, |body|, md);
  }

  lemma ResultMeans(h: Hessian, w: Writer, x: Message)
    requires LawfulHessian(h) && Undoes(h, w) && x.Result?
    ensures !IsEvent(FlagOf(x)) && Comes(h, w, x)
  {
    RangeValues();
    var body, md := BodyOf(w, x), HeaderMetadata(FlagOf(x), x.status, x.requestId);
    assert body + [] == body;
    ResultReads(h, w, CodeOf(x.kind), x.rest, md, []);
  }

  /** Any other magic number in front of sixteen octets or more makes the codec throw. */
  lemma ForeignMagicDecodes(h: Hessian, b: Octets)
    requires LawfulHessian(h) && |b| >= 16 && (b[0] != 0xda || b[1] != 0xbb)
    ensures Decode(h, NotStarted, b) == Codecs.Rejected
  {
    ForeignMagicThrows(b, NEW_METADATA);
    RunGoesOn(h, INITIAL, b);
  }

  lemma EncodedHeartbeat(status: byte, requestId: int64)
    ensures EncodeHeartbeat(HESSIAN2, status, requestId) == Frame(0x22, status, requestId, [])
  {
    FlagBits();
    EncodedHeaderOctets(0x22, status, requestId, 0);
    var header := HeaderOctets(0x22, status, requestId, 0);
    assert header + [] == header;
  }

  /** What is told of an event that is no request. */
  function HeartbeatMeant(requestId: int64, status: byte, bodySize: nat, origin: Octets): Codecs.Metadata {
    Codecs.Metadata(Codecs.Heartbeat, requestId % 0x1_0000_0000_0000_0000,
                    if status == 20 then Codecs.OkStatus else Codecs.ErrorStatus, 16, bodySize, origin)
  }

  lemma EventMeans(flag: byte, status: byte, requestId: int64, bodySize: nat, origin: Octets)
    requires IsEvent(flag) && flag < 0x80
    ensures
      ToMetadata(HeaderMetadata(flag, status, requestId), Context(16, bodySize, true, origin)) ==
      HeartbeatMeant(requestId, status, bodySize, origin)
  {
    RangeValues();
  }

  lemma EventDecodes(h: Hessian, flag: byte, status: byte, requestId: int64, body: Octets, s: Octets)
    requires LawfulHessian(h) && IsEvent(flag) && flag < 0x80 && Acceptable(flag, status, |body|)
    ensures
      var frame := Frame(flag, status, requestId, body);
      Decode(h, NotStarted, frame + s) ==
      Codecs.Complete(NotStarted, s, HeartbeatMeant(requestId, status, |body|, frame))
  {
    EventMeans(flag, status, requestId, |body|, Frame(flag, status, requestId, body));
    FrameDecodes(h, flag, status, requestId, body, s);
  }

  /** The reply to a heartbeat, read by the codec that wrote it: a heartbeat with the same id. */
  lemma HeartbeatReplyDecodes(h: Hessian, requestId: int64, s: Octets)
    requires LawfulHessian(h)
    ensures
      var reply := EncodeHeartbeat(HESSIAN2, OK, requestId);
      Decode(h, NotStarted, reply + s) == Codecs.Complete(NotStarted, s, HeartbeatMeant(requestId, 20, 0, reply))
  {
    EncodedHeartbeat(OK, requestId);
    EventDecodes(h, 0x22, OK, requestId, [], s);
  }

  /** The error reply of `onError`, read by the codec that wrote it: an error with the request's id
      for a missing route or a bad response, and an exception for every other error. */
  lemma ErrorReplyDecodes(h: Hessian, w: Writer, e: ErrorType, requestId: int64, text: Octets, s: Octets)
    requires LawfulHessian(h) && Undoes(h, w)
    requires |SerializeResult(w, ResponseWithException, text)| <= 0x100_0000
    ensures
      var reply := EncodeResponse(HESSIAN2, ErrorStatus(e), requestId, SerializeResult(w, ResponseWithException, text));
      var r := Decode(h, NotStarted, reply + s);
      if e.RouteNotFound? || e.BadResponse? then
        && r.Complete? && r.rest == s && r.metadata.kind == Codecs.Error && r.metadata.status == Codecs.ErrorStatus
        && r.metadata.requestId == requestId % 0x1_0000_0000_0000_0000 && r.metadata.origin == reply
      else r == Codecs.Rejected
  {
    EncodedFrame(ErrorStatus(e), requestId, SerializeResult(w, ResponseWithException, text));
    ExceptionDecodes(h, w, ErrorStatus(e), requestId, text, s);
  }

  lemma EncodedFrame(status: byte, requestId: int64, body: Octets)
    ensures EncodeResponse(HESSIAN2, status, requestId, body) == Frame(HESSIAN2, status, requestId, body)
  {
    EncodedHeaderOctets(HESSIAN2, status, requestId, |body|);
  }

  lemma ExceptionDecodes(h: Hessian, w: Writer, status: byte, requestId: int64, text: Octets, s: Octets)
    requires LawfulHessian(h) && Undoes(h, w)
    requires |SerializeResult(w, ResponseWithException, text)| <= 0x100_0000
    ensures
      var reply := Frame(HESSIAN2, status, requestId, SerializeResult(w, ResponseWithException, text));
      var r := Decode(h, NotStarted, reply + s);
      if status in READABLE then
        && r.Complete? && r.rest == s && r.metadata.kind == Codecs.Error
        && (status != 20 ==> r.metadata.status == Codecs.ErrorStatus)
        && r.metadata.requestId == requestId % 0x1_0000_0000_0000_0000 && r.metadata.origin == reply
      else r == Codecs.Rejected
  {
    MessageDecodes(h, w, Result(status, requestId, ResponseWithException, w.writeString(text)), s);
  }
}
