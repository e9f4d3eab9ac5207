/** What a run of the filter chain comes to, told by the first filter that does not continue and, if
    there is none, by what the router meets. */
module ChainOutcome {
  import opened Bytes
  import opened MessageLifecycle
  import opened MessageInvariant
  import opened MessageSteps

  /** The first filter from `k` on that does not continue, or the router at `n`. */
  function FirstHalt(v: Verdicts, k: nat, n: nat): (j: nat)
    requires k <= n
    ensures k <= j <= n && (j < n ==> v.before(j) != Continues)
    ensures forall i :: k <= i < j ==> v.before(i) == Continues
    decreases n - k
  {
    if k == n || v.before(k) != Continues then k else FirstHalt(v, k + 1, n)
  }

  function LocalReplies(d: Downstream): seq<Reply> {
    if d.open && d.encodes then [Local] else []
  }

  /** The router replies when there is no target; writes the payload at once when a connection is
      there; fails when the pool has none to give, with an error unless the request is one-way; and
      otherwise waits with the payload in its buffer. */
  predicate RouterComesTo(c: Called, v: RouterVerdict, d: Downstream) {
    var m, h := c.m, c.m.history;
    match v
    case NoTarget =>
      && c.status == Continue && m.localSent && h.replies == LocalReplies(d)
      && m.upstream.NoUpstream? && h.sent == [] && m.origin == m.request.payload
    case ReadyNow =>
      && c.status == Continue && !m.localSent && h.replies == []
      && m.upstream == Upstream(NEW_REQUEST.(conn := true, requestComplete := true))
      && h.sent == [m.request.payload] && m.origin == []
    case OverflowNow =>
      && c.status == Continue && m.localSent == !m.request.oneway && h.replies == ErrorReply(m, d)
      && m.upstream == Upstream(NEW_REQUEST) && h.sent == [] && m.origin == []
    case MustWait =>
      && c.status == StopIteration && !m.localSent && h.replies == [] && h.pause == PausedAt(m.request.filters)
      && m.upstream == Upstream(NEW_REQUEST.(handle := true)) && m.buffer == m.request.payload
      && h.sent == [] && m.origin == []
  }

  /** A filter at `j` before the router stops, or replies and so ends the chain. */
  predicate FilterComesTo(c: Called, j: nat, v: Verdict, d: Downstream) {
    && Undrained(c.m)
    && if v == Stops then
         && c.status == StopIteration && c.m.history.pause == PausedAt(j)
         && !c.m.localSent && c.m.history.replies == []
       else c.status == Continue && c.m.localSent && c.m.history.replies == LocalReplies(d)
  }

  predicate ChainComesTo(before: Message, k: nat, c: Called, v: Verdicts, d: Downstream)
    requires k <= before.request.filters
  {
    var n := before.request.filters;
    var j := FirstHalt(v, k, n);
    && Same(before, c.m) && c.m.history.calls == before.history.calls + Row(k, j + 1 - k)
    && HaltComesTo(c, n, j, v, d)
  }

  predicate HaltComesTo(c: Called, n: nat, j: nat, v: Verdicts, d: Downstream) {
    if j < n then FilterComesTo(c, j, v.before(j), d) else RouterComesTo(c, v.router, d)
  }

  lemma RouterOutcome(m: Message, v: RouterVerdict, d: Downstream)
    requires Running(m)
    ensures RouterComesTo(AfterRouter(RouteMessage(m, v, d)), v, d)
    ensures LinkedUnless(m, AfterRouter(RouteMessage(m, v, d)).m, v == OverflowNow && m.request.oneway)
  {
    var payload := m.request.payload;
    assert [] + payload == payload && [] + [payload] == [payload] && [] + [Local] == [Local];
    match v {
      case NoTarget =>
      case ReadyNow =>
      case OverflowNow =>
      case MustWait =>
    }
  }

  lemma FilterOutcome(m: Message, k: nat, v: Verdicts, d: Downstream)
    requires Running(m) && k < m.request.filters && v.before(k) != Continues
    ensures FilterComesTo(FromFilter(Logged(m, k), k, v, d), k, v.before(k), d)
    ensures
      var c := FromFilter(Logged(m, k), k, v, d);
      Same(m, c.m) && c.m.history.calls == m.history.calls + [k]
  {
    assert [] + [Local] == [Local];
  }

  lemma ReachesRouter(m: Message, v: Verdicts, d: Downstream)
    requires Running(m)
    ensures ChainComesTo(m, m.request.filters, ApplyDecoderFilters(m, m.request.filters, v, d), v, d)
  {
    var m1 := Logged(m, m.request.filters);
    RouterOutcome(m1, v.router, d);
    RouterCallsNone(m1, v.router, d);
    RouterRuns(m1, v.router, d);
    assert Row(m.request.filters, 1) == [m.request.filters];
    assert FromFilter(m1, m.request.filters, v, d) == AfterRouter(RouteMessage(m1, v.router, d));
  }

  lemma HaltsAtOnce(m: Message, k: nat, v: Verdicts, d: Downstream)
    requires Running(m) && k < m.request.filters && v.before(k) != Continues
    ensures ChainComesTo(m, k, ApplyDecoderFilters(m, k, v, d), v, d)
  {
    FilterOutcome(m, k, v, d);
    assert Row(k, 1) == [k];
    assert ApplyDecoderFilters(m, k, v, d) == FromFilter(Logged(m, k), k, v, d);
  }

  lemma GoesOn(m: Message, k: nat, c: Called, v: Verdicts, d: Downstream)
    requires k < m.request.filters && v.before(k) == Continues && ChainComesTo(Logged(m, k), k + 1, c, v, d)
    ensures ChainComesTo(m, k, c, v, d)
  {
    var n := m.request.filters;
    var j := FirstHalt(v, k + 1, n);
    assert FirstHalt(v, k, n) == j && HaltComesTo(c, n, j, v, d);
    LongerRow(m.history.calls, k, j - k);
  }

  lemma LongerRow(calls: seq<nat>, k: nat, len: nat)
    ensures calls + [k] + Row(k + 1, len) == calls + Row(k, len + 1)
  {
  }

  /** The chain from `k` on comes to what its first halt says, whatever the filters do. */
  lemma {:induction false} ChainHalts(m: Message, k: nat, v: Verdicts, d: Downstream)
    requires Running(m) && k <= m.request.filters
    ensures ChainComesTo(m, k, ApplyDecoderFilters(m, k, v, d), v, d)
    decreases m.request.filters - k
  {
    if k == m.request.filters {
      ReachesRouter(m, v, d);
    } else if v.before(k) == Continues {
      var m1 := Logged(m, k);
      ChainHalts(m1, k + 1, v, d);
      assert ApplyDecoderFilters(m, k, v, d) == ApplyDecoderFilters(m1, k + 1, v, d);
      GoesOn(m, k, ApplyDecoderFilters(m1, k + 1, v, d), v, d);
    } else {
      HaltsAtOnce(m, k, v, d);
    }
  }

  function StatusOf(m: Message): FilterStatus {
    if m.history.pause.PausedAt? then StopIteration else Continue
  }

  /** What becomes of every decoded request. */
  lemma DecodedOutcome(request: Request, v: Verdicts, d: Downstream)
    ensures
      var m := OnStreamDecoded(NewMessage(request), v, d);
      ChainComesTo(NewMessage(request), 0, Called(m, StatusOf(m)), v, d)
  {
    var m := NewMessage(request).(action := true);
    ChainHalts(m, 0, v, d);
    ChainRuns(m, 0, v, d);
  }

  /** And of every request whose stopped filter resumes. */
  lemma ResumedOutcome(m: Message, v: Verdicts, d: Downstream)
    requires MessageInvariant.Valid(m) && BeforeRouter(m) && !m.localSent
    ensures
      var c := ContinueDecoding(m, m.history.pause.filter, v, d);
      ChainComesTo(m, ResumeFrom(m), Called(c.m, StatusOf(c.m)), v, d) && c.status == StatusOf(c.m)
  {
    var from := ResumeFrom(m);
    ChainHalts(Pausing(m, NotPaused), from, v, d);
    ChainRuns(Pausing(m, NotPaused), from, v, d);
  }
}
