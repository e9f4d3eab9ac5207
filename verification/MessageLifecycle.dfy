/** The life of one request on values: ActiveMessage of active_message.cc with the Router of
    router_impl.cc as the last filter of its chain, one function for each method. */
module MessageLifecycle {
  import opened Bytes

  /** What is written to the downstream connection for a request. */
  datatype Reply = Proxied(id: uint64) | Local

  /** In the list of active messages, scheduled for deletion, or deleted. */
  datatype Place = Linked | Deferred | Gone

  /** The filter that has returned StopIteration and may resume. */
  datatype Pause = NotPaused | PausedAt(filter: nat)

  /** The fields of UpstreamRequest: `conn_pool_handle_` and `conn_data_`, then the flags. */
  datatype UpstreamRequest = UpstreamRequest(
    handle: bool,
    conn: bool,
    requestComplete: bool,
    responseStarted: bool,
    responseComplete: bool,
    streamReset: bool)

  const NEW_REQUEST := UpstreamRequest(false, false, false, false, false, false)

  datatype MaybeUpstream = NoUpstream | Upstream(request: UpstreamRequest)

  /** What was decoded, and how many filters stand before the router. */
  datatype Request = Request(oneway: bool, id: uint64, payload: Octets, filters: nat)

  /** What has happened to a request: which filter may resume, whether the upstream peer has closed,
      and what was written downstream, written upstream, called and finalized. */
  datatype History = History(
    pause: Pause,
    peerClosed: bool,
    replies: seq<Reply>,
    sent: seq<Octets>,
    calls: seq<nat>,
    finalized: nat)

  /** A request with the fields of its ActiveMessage, then of its Router. */
  datatype Message = Message(
    request: Request,
    origin: Octets,
    action: bool,
    pending: bool,
    localSent: bool,
    hasDecoder: bool,
    place: Place,
    upstream: MaybeUpstream,
    buffer: Octets,
    history: History)

  function NewMessage(request: Request): Message {
    Message(request, request.payload, false, false, false, false, Linked, NoUpstream, [],
            History(NotPaused, false, [], [], [], 0))
  }

  function Replied(m: Message, r: Reply): Message {
    m.(history := m.history.(replies := m.history.replies + [r]))
  }

  function Logged(m: Message, k: nat): Message {
    m.(history := m.history.(calls := m.history.calls + [k]))
  }

  function Pausing(m: Message, pause: Pause): Message {
    m.(history := m.history.(pause := pause))
  }

  /** The downstream connection as a reply finds it: open, and able to carry an encoded error. */
  datatype Downstream = Downstream(open: bool, encodes: bool)

  /** What a filter before the router does. */
  datatype Verdict = Continues | Stops | Replies

  /** What the router meets: no route, cluster or host; a pool that has a connection at once, has
      none to give, or makes the request wait. */
  datatype RouterVerdict = NoTarget | ReadyNow | OverflowNow | MustWait

  datatype Verdicts = Verdicts(before: nat -> Verdict, router: RouterVerdict)

  // ActiveMessage.

  function SendLocalReply(m: Message, d: Downstream): Message {
    (if d.open && d.encodes then Replied(m, Local) else m).(localSent := true)
  }

  function Defer(m: Message): Message {
    if m.place == Linked then m.(place := Deferred) else m
  }

  function FinalizeRequest(m: Message): Message {
    var m1 := m.(pending := false, history := m.history.(finalized := m.history.finalized + 1));
    if m1.localSent || m1.request.oneway then Defer(m1) else m1
  }

  function OnError(m: Message, d: Downstream): Message {
    Defer(SendLocalReply(m, d))
  }

  // The upstream request.

  /** onResetStream, whose release of the stream is never reached: `filter_complete_` stays false. */
  function OnResetStream(m: Message, d: Downstream): Message {
    if m.request.oneway then Defer(m) else SendLocalReply(m, d)
  }

  function EncodeData(m: Message): Message {
    m.(history := m.history.(sent := m.history.sent + [m.buffer]), buffer := [])
  }

  /** The end of onPoolReady. */
  function CompleteRequest(m: Message): Message
    requires m.upstream.Upstream?
  {
    EncodeData(m.(upstream := Upstream(m.upstream.request.(requestComplete := true))))
  }

  /** The end of onPoolFailure when it is called back at once. */
  function FailRequest(m: Message, d: Downstream): Message {
    OnResetStream(m, d).(buffer := [])
  }

  function Attach(m: Message): Message
    requires m.upstream.Upstream?
  {
    m.(upstream := Upstream(m.upstream.request.(handle := false, conn := true)))
  }

  function DropHandle(m: Message): Message
    requires m.upstream.Upstream?
  {
    m.(upstream := Upstream(m.upstream.request.(handle := false)))
  }

  /** Router::onEvent. */
  function OnConnectionEvent(m: Message, remote: bool, d: Downstream): Message {
    if m.upstream.NoUpstream? || m.upstream.request.responseComplete then m
    else if m.upstream.request.streamReset && !remote then m
    else OnResetStream(m, d)
  }

  /** UpstreamRequest::resetStream: cancels the pool request and closes the connection, whose local
      close comes back to the router at once. */
  function ResetUpstream(m: Message, d: Downstream): Message
    requires m.upstream.Upstream?
  {
    var m1 := m.(upstream := Upstream(m.upstream.request.(streamReset := true, handle := false)));
    if m1.upstream.request.conn then
      OnConnectionEvent(m1, false, d).(upstream := Upstream(m1.upstream.request.(conn := false)))
    else m1
  }

  // The filter chain.

  datatype FilterStatus = Continue | StopIteration

  datatype Called = Called(m: Message, status: FilterStatus)

  /** Router::onMessageDecoded. */
  function RouteMessage(m: Message, v: RouterVerdict, d: Downstream): Called {
    if v == NoTarget then Called(SendLocalReply(m, d), StopIteration)
    else
      var m1 := m.(buffer := m.buffer + m.origin, origin := [], upstream := Upstream(NEW_REQUEST));
      match v
      case ReadyNow => Called(CompleteRequest(Attach(m1)), Continue)
      case OverflowNow => Called(FailRequest(m1, d), Continue)
      case _ => Called(m1.(upstream := Upstream(NEW_REQUEST.(handle := true))), StopIteration)
  }

  /** What calling the filter at `k` does, the router being the last. */
  function CallFilter(m: Message, k: nat, v: Verdicts, d: Downstream): Called
    requires k <= m.request.filters
  {
    var m1 := Logged(m, k);
    if k == m.request.filters then RouteMessage(m1, v.router, d)
    else
      match v.before(k)
      case Continues => Called(m1, Continue)
      case Stops => Called(m1, StopIteration)
      case Replies => Called(SendLocalReply(m1, d), StopIteration)
  }

  /** A filter that does not continue: the chain stops there, or is over if it sent a local reply. */
  function Halt(m: Message, k: nat): Called {
    if m.localSent then Called(m.(action := false), Continue) else Called(Pausing(m, PausedAt(k)), StopIteration)
  }

  function AfterRouter(c: Called): Called {
    if c.status == Continue then Called(c.m.(action := false), Continue) else Halt(c.m, c.m.request.filters)
  }

  /** applyDecoderFilters from the filter at `k`: nothing runs once a local reply has been sent. */
  function ApplyDecoderFilters(m: Message, k: nat, v: Verdicts, d: Downstream): Called
    decreases m.request.filters + 1 - k, 1
  {
    if m.localSent || k > m.request.filters then Called(m.(action := false), Continue)
    else FromFilter(Logged(m, k), k, v, d)
  }

  /** The filter at `k`, and the rest of the chain if it continues; the router is the last. */
  function FromFilter(m: Message, k: nat, v: Verdicts, d: Downstream): Called
    requires k <= m.request.filters
    decreases m.request.filters + 1 - k, 0
  {
    if k == m.request.filters then AfterRouter(RouteMessage(m, v.router, d))
    else
      match v.before(k)
      case Continues => ApplyDecoderFilters(m, k + 1, v, d)
      case Stops => Halt(m, k)
      case Replies => Halt(SendLocalReply(m, d), k)
  }

  /** ActiveMessage::onStreamDecoded. */
  function OnStreamDecoded(m: Message, v: Verdicts, d: Downstream): Message {
    var c := ApplyDecoderFilters(m.(action := true), 0, v, d);
    if c.status == StopIteration then c.m.(pending := true) else FinalizeRequest(c.m)
  }

  /** Where a filter that resumes starts: at itself while the origin message is still there. */
  function ResumePoint(m: Message, k: nat): nat {
    if |m.origin| > 0 then k else k + 1
  }

  /** continueDecoding of the filter at `k`; on Continue the connection dispatches again. */
  function ContinueDecoding(m: Message, k: nat, v: Verdicts, d: Downstream): Called {
    var c := ApplyDecoderFilters(Pausing(m, NotPaused), ResumePoint(m, k), v, d);
    if c.status == Continue && c.m.pending then Called(FinalizeRequest(c.m), Continue) else c
  }

  /** The message after the dispatch that follows a Continue: a broken dispatch releases it. */
  function Redispatched(c: Called, broken: bool): Message {
    if c.status == Continue && broken then Defer(c.m) else c.m
  }

  /** onPoolReady for a request that waited, up to the end of its continueDecoding. */
  function OnPoolReady(m: Message, v: Verdicts, d: Downstream): Called
    requires m.upstream.Upstream?
  {
    ContinueDecoding(Attach(m), m.request.filters, v, d)
  }

  /** onPoolFailure for a request that waited. */
  function OnPoolFailure(m: Message, v: Verdicts, d: Downstream): Called
    requires m.upstream.Upstream?
  {
    ContinueDecoding(FailRequest(DropHandle(m), d), m.request.filters, v, d)
  }

  // The response.

  /** What the response decoder makes of upstream data; `stops` tells of an encoder filter. */
  datatype ResponseData = Partial | Malformed | Whole(id: uint64, stops: bool)

  datatype ResponseStatus = MoreData | Complete | Reset

  datatype Answered = Answered(m: Message, status: ResponseStatus)

  /** ActiveMessage::upstreamData: the write comes before the check of the id. */
  function UpstreamData(m: Message, data: ResponseData, d: Downstream): (a: Answered)
    ensures a.m.upstream == m.upstream
  {
    match data
    case Partial => Answered(m, MoreData)
    case Malformed => Answered(OnError(m, d), Reset)
    case Whole(id, stops) =>
      var stopped := stops && !m.localSent;
      if !stopped && !d.open then Answered(Defer(m), Reset)
      else
        var m1 := if stopped then m else Replied(m, Proxied(id));
        if m.request.id != id then Answered(OnError(m1, d), Reset) else Answered(Defer(m1), Complete)
  }

  function StartResponse(m: Message): Message
    requires m.upstream.Upstream?
  {
    if m.upstream.request.responseStarted then m
    else m.(hasDecoder := true, upstream := Upstream(m.upstream.request.(responseStarted := true)))
  }

  /** Router::onUpstreamData. */
  function OnUpstreamData(m: Message, data: ResponseData, end: bool, d: Downstream): Message
    requires m.upstream.Upstream?
  {
    var a := UpstreamData(StartResponse(m), data, d);
    match a.status
    case Complete => a.m.(upstream := NoUpstream)
    case Reset => ResetUpstream(a.m, d)
    case MoreData => if end then OnResetStream(a.m, d).(upstream := NoUpstream) else a.m
  }

  /** The upstream connection closes under the request. */
  function OnUpstreamClose(m: Message, remote: bool, d: Downstream): Message {
    var m1 := OnConnectionEvent(m, remote, d);
    m1.(history := m1.history.(peerClosed := true))
  }

  /** The destructor: Router::onDestroy resets what is left of the upstream request. */
  function Destroy(m: Message, d: Downstream): Message {
    var m1 := if m.upstream.Upstream? then ResetUpstream(m, d) else m;
    m1.(upstream := NoUpstream, place := Gone)
  }
}
