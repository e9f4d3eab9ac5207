/** The Dubbo header and body codec of dubbo_protocol_impl.cc, over an abstract Hessian reader. */
module DubboProtocol {
  import opened Bytes

  const MAGIC: nat := 0xdabb
  const MESSAGE_TYPE_MASK: bv8 := 0x80
  const EVENT_MASK: bv8 := 0x20
  const TWO_WAY_MASK: bv8 := 0x40
  const SERIALIZATION_TYPE_MASK: bv8 := 0x1f
  const HEADER_SIZE: nat := 16
  const MAX_BODY_SIZE: nat := 16 * 1024 * 1024

  const HESSIAN2: byte := 2

  datatype MessageType = Response | Request | Oneway | Exception | HeartbeatRequest | HeartbeatResponse

  // Response status codes.
  const OK: byte := 20
  const CLIENT_TIMEOUT: byte := 30
  const SERVER_TIMEOUT: byte := 31
  const BAD_REQUEST: byte := 40
  const BAD_RESPONSE: byte := 50
  const SERVICE_NOT_FOUND: byte := 60
  const SERVICE_ERROR: byte := 70
  const SERVER_ERROR: byte := 80
  const CLIENT_ERROR: byte := 90
  const SERVER_THREADPOOL_EXHAUSTED_ERROR: byte := 100

  /** The enumerators of ResponseStatus. */
  predicate IsStatus(code: byte) {
    || code == OK || code == CLIENT_TIMEOUT || code == SERVER_TIMEOUT || code == BAD_REQUEST || code == BAD_RESPONSE
    || code == SERVICE_NOT_FOUND || code == SERVICE_ERROR || code == SERVER_ERROR || code == CLIENT_ERROR
    || code == SERVER_THREADPOOL_EXHAUSTED_ERROR
  }

  /** isValidResponseStatus, which has no case for ServerError. */
  predicate IsValidStatus(code: byte) {
    || code == OK || code == CLIENT_TIMEOUT || code == SERVER_TIMEOUT || code == BAD_REQUEST || code == BAD_RESPONSE
    || code == SERVICE_NOT_FOUND || code == SERVICE_ERROR || code == CLIENT_ERROR
    || code == SERVER_THREADPOOL_EXHAUSTED_ERROR
  }

  predicate IsValidSerialization(code: byte) {
    code == HESSIAN2
  }

  datatype MaybeStatus = NoStatus | Status(code: byte)

  datatype Invocation = Invocation(service: Octets, version: Octets, methodName: Octets)

  datatype MaybeInvocation = NoInvocation | Invoked(invocation: Invocation)

  datatype MessageMetadata = MessageMetadata(
    messageType: MessageType,
    requestId: int64,
    status: MaybeStatus,
    serialization: byte,
    invocation: MaybeInvocation)

  const NEW_METADATA := MessageMetadata(Request, 0, NoStatus, HESSIAN2, NoInvocation)

  datatype Context = Context(headerSize: nat, bodySize: nat, heartbeat: bool, origin: Octets)

  predicate HasBits(flag: byte, mask: bv8) {
    (flag as bv8) & mask == mask
  }

  function SerializationOf(flag: byte): byte {
    ((flag as bv8) & SERIALIZATION_TYPE_MASK) as int
  }

  // The header.

  /** decodeHeader: more data needed, an exception, or the context and the updated metadata. */
  datatype HeaderResult = ShortHeader | BadHeader | Header(context: Context, metadata: MessageMetadata)

  /** The metadata after one of the info parsers, or its exception. */
  datatype Info = BadInfo | Info(metadata: MessageMetadata)

  function RequestInfo(b: Octets, md: MessageMetadata): Info
    requires |b| >= HEADER_SIZE
  {
    var code := SerializationOf(b[2]);
    if !IsValidSerialization(code) then BadInfo
    else
      var oneway := !HasBits(b[2], TWO_WAY_MASK) && md.messageType != HeartbeatRequest;
      Info(md.(messageType := if oneway then Oneway else md.messageType, serialization := code))
  }

  function ResponseInfo(b: Octets, md: MessageMetadata): Info
    requires |b| >= HEADER_SIZE
  {
    if !IsValidStatus(b[3]) then BadInfo else Info(md.(status := Status(b[3])))
  }

  function DecodeHeader(b: Octets, md: MessageMetadata): HeaderResult {
    if |b| < HEADER_SIZE then ShortHeader
    else if FromOctets(b[0..2]) != MAGIC then BadHeader
    else
      var isEvent := HasBits(b[2], EVENT_MASK);
      var id, size := ReadInt64(b[4..12]), ReadInt32(b[12..16]);
      if size > MAX_BODY_SIZE || size < 0 then BadHeader
      else
        var info :=
          if HasBits(b[2], MESSAGE_TYPE_MASK) then
            RequestInfo(b, md.(requestId := id, messageType := if isEvent then HeartbeatRequest else Request))
          else
            ResponseInfo(b, md.(requestId := id, messageType := if isEvent then HeartbeatResponse else Response));
        if info.BadInfo? then BadHeader
        else Header(Context(HEADER_SIZE, size, isEvent, []), info.metadata)
  }

  // The body.

  /** One read of the Hessian decoder at its offset: null, or a value and its length. */
  datatype Read<T> = Null | Value(v: T, used: nat)

  datatype Hessian = Hessian(readString: Octets -> Read<Octets>, readInt: Octets -> Read<int32>)

  /** A value depends on its own octets only. */
  ghost predicate PrefixDeterministic<T(!new)>(f: Octets -> Read<T>) {
    forall b, x {:trigger f(b + x)} ::
      && (f(b).Value? ==> f(b).used <= |b| && f(b + x) == f(b))
      && (f(b + x).Value? && f(b + x).used <= |b| ==> f(b) == f(b + x))
  }

  ghost predicate LawfulHessian(h: Hessian) {
    PrefixDeterministic(h.readString) && PrefixDeterministic(h.readInt)
  }

  /** `n` strings in a row, or null as soon as one is missing. */
  function ReadStrings(h: Hessian, n: nat, b: Octets): (r: Read<seq<Octets>>)
    requires LawfulHessian(h)
    ensures r.Value? ==> |r.v| == n && r.used <= |b|
  {
    if n == 0 then Value([], 0)
    else
      var first := h.readString(b);
      assert b + [] == b && h.readString(b + []) == first;
      if first.Null? then Null
      else
        var rest := ReadStrings(h, n - 1, b[first.used..]);
        if rest.Null? then Null else Value([first.v] + rest.v, first.used + rest.used)
  }

  /** decodeData: more data needed, an exception, or the updated metadata. */
  datatype DataResult = ShortData | BadData | Data(metadata: MessageMetadata)

  /** deserializeRpcInvocation reads from the whole buffer and compares with the body size after. */
  function DeserializeInvocation(h: Hessian, b: Octets, bodySize: nat): MaybeInvocation
    requires LawfulHessian(h)
  {
    var strings := ReadStrings(h, 4, b);
    if strings.Null? || bodySize < strings.used then NoInvocation
    else Invoked(Invocation(strings.v[1], strings.v[2], strings.v[3]))
  }

  /** The response types, cast to eight bits: with an exception, with a value, without one. */
  datatype ResultKind = Unsupported | WithException | WithValue | WithoutValue

  function ResultKindOf(typeValue: int32): ResultKind {
    match typeValue % 0x100
    case 0 => WithException
    case 3 => WithException
    case 1 => WithValue
    case 4 => WithValue
    case 2 => WithoutValue
    case 5 => WithoutValue
    case _ => Unsupported
  }

  /** deserializeRpcResult: `Unsupported` stands for every exception it throws. */
  function DeserializeResult(h: Hessian, b: Octets, bodySize: nat): ResultKind {
    var typeValue := h.readInt(b);
    if typeValue.Null? then Unsupported
    else
      var kind := ResultKindOf(typeValue.v);
      if bodySize < typeValue.used then Unsupported
      else if kind == WithoutValue && bodySize != typeValue.used then Unsupported
      else kind
  }

  function DecodeData(h: Hessian, b: Octets, bodySize: nat, md: MessageMetadata): DataResult
    requires LawfulHessian(h)
    requires md.messageType.Oneway? || md.messageType.Request? || md.messageType.Response?
  {
    if |b| < bodySize then ShortData
    else if md.messageType.Response? then
      var kind := DeserializeResult(h, b, bodySize);
      if kind == Unsupported then BadData
      else Data(if kind == WithException then md.(messageType := Exception) else md)
    else
      var invoked := DeserializeInvocation(h, b, bodySize);
      if invoked.NoInvocation? then BadData else Data(md.(invocation := invoked))
  }

  // Header and body see nothing of what follows them.

  lemma HeaderIsLocal(b: Octets, x: Octets, md: MessageMetadata)
    requires |b| >= HEADER_SIZE
    ensures DecodeHeader(b + x, md) == DecodeHeader(b, md)
  {
    SliceOfPrefix(b, x, 0, 2);
    SliceOfPrefix(b, x, 4, 12);
    SliceOfPrefix(b, x, 12, 16);
  }

  /** Decoding the same header again changes nothing. */
  lemma HeaderIsIdempotent(b: Octets, md: MessageMetadata)
    requires DecodeHeader(b, md).Header?
    ensures DecodeHeader(b, DecodeHeader(b, md).metadata) == DecodeHeader(b, md)
  {
  }

  lemma {:induction false} StringsAreLocal(h: Hessian, n: nat, b: Octets, x: Octets, limit: nat)
    requires LawfulHessian(h) && limit <= |b|
    ensures
      var r, wide := ReadStrings(h, n, b), ReadStrings(h, n, b + x);
      (r.Value? && r.used <= limit) || (wide.Value? && wide.used <= limit) ==> wide == r
  {
    if n > 0 {
      var first, wide := h.readString(b), h.readString(b + x);
      if first.Value? && first.used <= limit {
        assert (b + x)[first.used..] == b[first.used..] + x;
        StringsAreLocal(h, n - 1, b[first.used..], x, limit - first.used);
      }
    }
  }

  /** The outcome of decodeData is a function of the first `bodySize` octets, whatever requests
      are pipelined behind them. */
  lemma BodyIsLocal(h: Hessian, b: Octets, x: Octets, bodySize: nat, md: MessageMetadata)
    requires LawfulHessian(h) && bodySize <= |b|
    requires md.messageType.Oneway? || md.messageType.Request? || md.messageType.Response?
    ensures DecodeData(h, b + x, bodySize, md) == DecodeData(h, b, bodySize, md)
    ensures DecodeData(h, b, bodySize, md) == DecodeData(h, b[..bodySize], bodySize, md)
  {
    var body, after := b[..bodySize], b[bodySize..];
    assert body + after == b && body + (after + x) == b + x;
    BodyAlone(h, body, after, md);
    BodyAlone(h, body, after + x, md);
  }

  lemma BodyAlone(h: Hessian, body: Octets, x: Octets, md: MessageMetadata)
    requires LawfulHessian(h)
    requires md.messageType.Oneway? || md.messageType.Request? || md.messageType.Response?
    ensures DecodeData(h, body + x, |body|, md) == DecodeData(h, body, |body|, md)
  {
    StringsAreLocal(h, 4, body, x, |body|);
    assert h.readInt(body + x) == h.readInt(body + x);
  }

  // Encoding.

  /** The header of a reply: `flag` differs between a response and a heartbeat. */
  function EncodeHeader(flag: byte, status: byte, requestId: int64, bodySize: nat): (s: Octets)
    ensures |s| == HEADER_SIZE
  {
    ToOctets(MAGIC, 2) + [flag, status] + WriteInt64(requestId) + ToOctets(bodySize, 4)
  }

  function EncodeHeartbeat(serialization: byte, status: byte, requestId: int64): Octets {
    EncodeHeader(((serialization as bv8) ^ EVENT_MASK) as int, status, requestId, 0)
  }

  /** `body` is what the serializer makes of the content. */
  function EncodeResponse(serialization: byte, status: byte, requestId: int64, body: Octets): Octets {
    EncodeHeader(serialization, status, requestId, |body|) + body
  }

  lemma ReplyHeaderDecodes(flag: byte, status: byte, requestId: int64, bodySize: nat, s: Octets)
    requires !HasBits(flag, MESSAGE_TYPE_MASK)
    ensures
      var event := HasBits(flag, EVENT_MASK);
      var r := DecodeHeader(EncodeHeader(flag, status, requestId, bodySize) + s, NEW_METADATA);
      if IsValidStatus(status) && bodySize <= MAX_BODY_SIZE then
        r == Header(
          Context(HEADER_SIZE, bodySize, event, []),
          MessageMetadata(if event then HeartbeatResponse else Response, requestId, Status(status), HESSIAN2,
                          NoInvocation))
      else if !IsValidStatus(status) then r.BadHeader?
      else r.Header? ==> r.context.bodySize != bodySize
  {
    var b := EncodeHeader(flag, status, requestId, bodySize) + s;
    RangeValues();
    OctetsRoundTrip(MAGIC, 2);
    Int64RoundTrip(requestId);
    assert b[0..2] == ToOctets(MAGIC, 2);
    assert b[2] == flag && b[3] == status;
    assert b[4..12] == WriteInt64(requestId);
    assert b[12..16] == ToOctets(bodySize, 4);
    if bodySize < Range(4) {
      OctetsRoundTrip(bodySize, 4);
    } else {
      FromOctetsBound(ToOctets(bodySize, 4));
    }
  }

  /** What a reader is meant to recover from a reply. */
  predicate Recovers(r: HeaderResult, kind: MessageType, status: byte, requestId: int64, bodySize: nat) {
    && r.Header? && r.metadata.messageType == kind && r.metadata.status == Status(status)
    && r.metadata.requestId == requestId && r.context.bodySize == bodySize
  }

  /** A response reads back exactly when its status passes the validity check and its body is
      within the limit, for every status octet, request id and body. */
  lemma ResponseRoundTrip(status: byte, requestId: int64, body: Octets, s: Octets)
    ensures
      Recovers(DecodeHeader(EncodeResponse(HESSIAN2, status, requestId, body) + s, NEW_METADATA),
               Response, status, requestId, |body|)
      <==> IsValidStatus(status) && |body| <= MAX_BODY_SIZE
  {
    Regroup2(EncodeHeader(HESSIAN2, status, requestId, |body|), body, s);
    FlagBits();
    ReplyHeaderDecodes(HESSIAN2, status, requestId, |body|, body + s);
  }

  lemma FlagBits()
    ensures !HasBits(HESSIAN2, MESSAGE_TYPE_MASK) && !HasBits(HESSIAN2, EVENT_MASK)
    ensures ((HESSIAN2 as bv8) ^ EVENT_MASK) as int == 0x22
    ensures !HasBits(0x22, MESSAGE_TYPE_MASK) && HasBits(0x22, EVENT_MASK)
  {
  }

  lemma HeartbeatRoundTrip(status: byte, requestId: int64, s: Octets)
    ensures
      Recovers(DecodeHeader(EncodeHeartbeat(HESSIAN2, status, requestId) + s, NEW_METADATA),
               HeartbeatResponse, status, requestId, 0)
      <==> IsValidStatus(status)
  {
    FlagBits();
    ReplyHeaderDecodes(0x22, status, requestId, 0, s);
  }

  // Every header there can be.

  /** A header on the wire: magic number, flag, status, request id and body size. */
  function HeaderOctets(flag: byte, status: byte, requestId: int64, bodySize: nat): (s: Octets)
    ensures |s| == HEADER_SIZE
  {
    [0xda, 0xbb, flag, status] + WriteInt64(requestId) + ToOctets(bodySize, 4)
  }

  lemma EncodedHeaderOctets(flag: byte, status: byte, requestId: int64, bodySize: nat)
    ensures EncodeHeader(flag, status, requestId, bodySize) == HeaderOctets(flag, status, requestId, bodySize)
  {
    assert ToOctets(0xda, 1) == [0xda];
    assert ToOctets(MAGIC, 2) == [0xda, 0xbb];
  }

  /** The bits of the flag: 0x80 for a request, 0x40 for two-way, 0x20 for an event, and the
      serialization in the low five. */
  lemma FlagFields(flag: byte)
    ensures HasBits(flag, MESSAGE_TYPE_MASK) <==> flag >= 0x80
    ensures HasBits(flag, TWO_WAY_MASK) <==> flag / 0x40 % 2 == 1
    ensures HasBits(flag, EVENT_MASK) <==> flag / 0x20 % 2 == 1
    ensures SerializationOf(flag) == flag % 0x20
  {
    RequestBit(flag);
    TwoWayBit(flag);
    EventBit(flag);
    SerializationBits(flag);
  }

  lemma RequestBit(flag: byte)
    ensures HasBits(flag, MESSAGE_TYPE_MASK) <==> flag >= 0x80
  {
  }

  lemma TwoWayBit(flag: byte)
    ensures HasBits(flag, TWO_WAY_MASK) <==> flag / 0x40 % 2 == 1
  {
  }

  lemma EventBit(flag: byte)
    ensures HasBits(flag, EVENT_MASK) <==> flag / 0x20 % 2 == 1
  {
  }

  lemma SerializationBits(flag: byte)
    ensures SerializationOf(flag) == flag % 0x20
  {
    var x := flag as bv8;
    LowBits(x);
    assert x as int == flag;
  }

  lemma LowBits(x: bv8)
    ensures (x & SERIALIZATION_TYPE_MASK) as int == x as int % 0x20
  {
  }

  /** The kind of message that a flag announces. */
  function Announced(flag: byte): MessageType {
    if flag / 0x20 % 2 == 1 then if flag >= 0x80 then HeartbeatRequest else HeartbeatResponse
    else if flag < 0x80 then Response
    else if flag / 0x40 % 2 == 1 then Request
    else Oneway
  }

  /** The statuses a response may carry. */
  const READABLE: set<byte> := {20, 30, 31, 40, 50, 60, 70, 90, 100}

  /** A request must be in Hessian 2, a response must carry a readable status, and the body must be
      within 16 MiB. */
  predicate Acceptable(flag: byte, status: byte, bodySize: nat) {
    && bodySize <= 0x100_0000
    && (if flag >= 0x80 then flag % 0x20 == 2 else status in READABLE)
  }

  /** What every header says, whatever follows it and whatever the metadata was before. */
  lemma HeaderReads(flag: byte, status: byte, requestId: int64, bodySize: nat, md: MessageMetadata, s: Octets)
    requires bodySize < 0x1_0000_0000
    ensures
      var r := DecodeHeader(HeaderOctets(flag, status, requestId, bodySize) + s, md);
      if Acceptable(flag, status, bodySize) then
        && r.Header? && r.context == Context(16, bodySize, flag / 0x20 % 2 == 1, [])
        && r.metadata.messageType == Announced(flag) && r.metadata.requestId == requestId
        && r.metadata.status == (if flag >= 0x80 then md.status else Status(status))
        && r.metadata.serialization == (if flag >= 0x80 then 2 else md.serialization)
        && r.metadata.invocation == md.invocation
      else r.BadHeader?
  {
    var b := HeaderOctets(flag, status, requestId, bodySize) + s;
    RangeValues();
    Int64RoundTrip(requestId);
    OctetsRoundTrip(bodySize, 4);
    EncodedHeaderOctets(flag, status, requestId, bodySize);
    OctetsRoundTrip(MAGIC, 2);
    assert b[0..2] == ToOctets(MAGIC, 2);
    assert b[2] == flag && b[3] == status;
    assert b[4..12] == WriteInt64(requestId);
    assert b[12..16] == ToOctets(bodySize, 4);
    FlagFields(flag);
  }

  /** Any other magic number makes the decoder throw. */
  lemma ForeignMagicThrows(b: Octets, md: MessageMetadata)
    requires |b| >= HEADER_SIZE && (b[0] != 0xda || b[1] != 0xbb)
    ensures DecodeHeader(b, md).BadHeader?
  {
    var magic := b[0..2];
    assert magic[..1] == [b[0]] && magic[1] == b[1];
    assert FromOctets(magic) == FromOctets([b[0]]) * 0x100 + b[1];
    assert FromOctets([b[0]]) == b[0] by {
      assert [b[0]][..0] == [];
    }
  }

  /** The flag of a request. */
  function RequestFlag(twoWay: bool, event: bool, serialization: nat): byte
    requires serialization < 0x20
  {
    0x80 + (if twoWay then 0x40 else 0) + (if event then 0x20 else 0) + serialization
  }

  /** The header of a request reads back exactly when its serialization is Hessian 2 and its body is
      within the limit: a heartbeat if it is an event, else a request if it is two-way, else one-way. */
  lemma RequestRoundTrip(
      twoWay: bool, event: bool, serialization: nat, status: byte, requestId: int64, bodySize: nat, s: Octets)
    requires serialization < 0x20 && bodySize < 0x1_0000_0000
    ensures
      var flag := RequestFlag(twoWay, event, serialization);
      var r := DecodeHeader(HeaderOctets(flag, status, requestId, bodySize) + s, NEW_METADATA);
      var kind := if event then HeartbeatRequest else if twoWay then Request else Oneway;
      (r.Header? && r.metadata.messageType == kind && r.metadata.requestId == requestId
       && r.context.bodySize == bodySize && r.metadata.serialization == serialization)
      <==> serialization == 2 && bodySize <= 0x100_0000
  {
    HeaderReads(RequestFlag(twoWay, event, serialization), status, requestId, bodySize, NEW_METADATA, s);
  }

  // Error replies.

  datatype ErrorType = RouteNotFound | ClusterNotFound | NoHealthyUpstream | BadResponse | Unspecified

  /** The status `onError` puts into the reply. */
  function ErrorStatus(e: ErrorType): (code: byte)
    ensures IsStatus(code)
  {
    match e
    case RouteNotFound => SERVICE_NOT_FOUND
    case BadResponse => BAD_RESPONSE
    case _ => SERVER_ERROR
  }

  /** Of the enumerators of ResponseStatus the validity check refuses exactly ServerError. */
  lemma OnlyServerErrorIsRefused(code: byte)
    requires IsStatus(code)
    ensures IsValidStatus(code) <==> code != SERVER_ERROR
  {
  }

  /** An error reply can be read by the decoder that produced it only for a missing route, with
      status 60, or a bad response, with status 50; the default branch of `onError` writes a status
      its own reader rejects. */
  lemma ErrorReplyRoundTrip(e: ErrorType, requestId: int64, body: Octets, s: Octets)
    ensures
      Recovers(DecodeHeader(EncodeResponse(HESSIAN2, ErrorStatus(e), requestId, body) + s, NEW_METADATA),
               Response, if e.RouteNotFound? then 60 else 50, requestId, |body|)
      <==> (e.RouteNotFound? || e.BadResponse?) && |body| <= MAX_BODY_SIZE
  {
    ResponseRoundTrip(ErrorStatus(e), requestId, body, s);
    if !e.RouteNotFound? && !e.BadResponse? {
      DefaultErrorReplyThrows(e, requestId, body, s);
    }
  }

  /** For every other error, a cluster that does not exist among them, the reader throws. */
  lemma DefaultErrorReplyThrows(e: ErrorType, requestId: int64, body: Octets, s: Octets)
    requires !e.RouteNotFound? && !e.BadResponse?
    ensures DecodeHeader(EncodeResponse(HESSIAN2, ErrorStatus(e), requestId, body) + s, NEW_METADATA).BadHeader?
  {
    assert ErrorStatus(e) == SERVER_ERROR;
    Regroup2(EncodeHeader(HESSIAN2, SERVER_ERROR, requestId, |body|), body, s);
    FlagBits();
    ReplyHeaderDecodes(HESSIAN2, SERVER_ERROR, requestId, |body|, body + s);
  }
}
