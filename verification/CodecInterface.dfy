/** The codec interface of src/meta_protocol_proxy/codec/codec.h and the laws under which a byte
    stream is cut into the same messages however it arrives. */
module CodecInterface {
  import opened Bytes

  datatype MessageKind = Request | Response | Oneway | Heartbeat | Error

  datatype ResponseStatus = OkStatus | ErrorStatus

  datatype Metadata = Metadata(
    kind: MessageKind,
    requestId: uint64,
    status: ResponseStatus,
    headerSize: nat,
    bodySize: nat,
    origin: Octets)

  /** The outcome of `decode`: WaitForData, Done, or an exception. */
  datatype Decoded<S> =
    | NeedsMore(state: S, rest: Octets)
    | Complete(state: S, rest: Octets, metadata: Metadata)
    | Rejected

  /** A codec object as its state between calls and its `decode` method. */
  datatype Codec<!S> = Codec(idle: S, decode: (S, Octets) -> Decoded<S>)

  /** Octets that arrive behind a verdict stay unread, and waiting loses nothing. */
  predicate StableAt<S(==)>(c: Codec<S>, s: S, b: Octets, x: Octets) {
    match c.decode(s, b)
    case Complete(s1, rest, m) => c.decode(s, b + x) == Complete(s1, rest + x, m)
    case NeedsMore(s1, rest) => c.decode(s, b + x) == c.decode(s1, rest + x)
    case Rejected => c.decode(s, b + x) == Rejected
  }

  /** A completed message leaves the codec idle and either read something or ended a wait. */
  predicate ProgressesAt<S(==)>(c: Codec<S>, s: S, b: Octets) {
    match c.decode(s, b)
    case Complete(s1, rest, _) => s1 == c.idle && |rest| <= |b| && (|rest| < |b| || s != c.idle)
    case NeedsMore(_, rest) => |rest| <= |b|
    case Rejected => true
  }

  ghost predicate Resumable<S(!new)>(c: Codec<S>) {
    && (forall s, b, x :: StableAt(c, s, b, x))
    && (forall s, b :: ProgressesAt(c, s, b))
  }
}
