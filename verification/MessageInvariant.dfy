/** What every step keeps of a request: the order of its filters, one handle or one connection, the
    payload sent at most once, and how often it is answered. */
module MessageInvariant {
  import opened Bytes
  import opened MessageLifecycle

  // The order of filter calls.

  /** Calls start at the first filter and go forward one by one, perhaps repeating a filter; none
      follows the router, which stands at `n`. */
  predicate InChainOrder(calls: seq<nat>, n: nat)
    decreases |calls|, 0
  {
    && |calls| > 0
    && calls[|calls| - 1] <= n
    && if |calls| == 1 then calls[0] == 0 else MayCall(calls[..|calls| - 1], n, calls[|calls| - 1])
  }

  /** A call of the filter at `k` would keep the order. */
  predicate MayCall(calls: seq<nat>, n: nat, k: nat)
    decreases |calls|, 1
  {
    if calls == [] then k == 0
    else
      var last := calls[|calls| - 1];
      last < n && InChainOrder(calls, n) && (k == last || k == last + 1)
  }

  lemma CallKeepsOrder(calls: seq<nat>, n: nat, k: nat)
    requires MayCall(calls, n, k) && k <= n
    ensures InChainOrder(calls + [k], n)
    ensures k < n ==> MayCall(calls + [k], n, k) && MayCall(calls + [k], n, k + 1)
  {
    assert (calls + [k])[..|calls|] == calls;
  }

  /** What the order means at each place: a step forward or a repetition, and the router last. */
  lemma {:induction false} ChainOrderAt(calls: seq<nat>, n: nat, i: nat)
    requires InChainOrder(calls, n) && i < |calls|
    ensures calls[0] == 0 && calls[i] <= n
    ensures i > 0 ==> calls[i] == calls[i - 1] || calls[i] == calls[i - 1] + 1
    ensures i < |calls| - 1 ==> calls[i] < n
  {
    if |calls| > 1 {
      ChainOrderAt(calls[..|calls| - 1], n, if i < |calls| - 1 then i else i - 1);
    }
  }

  // The phases of a request.

  /** No router has seen the message. */
  predicate Undrained(m: Message) {
    && m.upstream.NoUpstream? && !m.hasDecoder && m.origin == m.request.payload && m.buffer == []
    && m.history.sent == [] && !m.history.peerClosed
  }

  /** Nor has it been answered. */
  predicate Untouched(m: Message) {
    Undrained(m) && !m.localSent && m.history.replies == []
  }

  /** A filter before the router has stopped; it may have replied since. */
  predicate BeforeRouter(m: Message) {
    && m.action && m.history.pause.PausedAt? && m.history.pause.filter < m.request.filters && Undrained(m)
    && (m.history.replies == [] || (m.localSent && m.history.replies == [Local]))
  }

  /** The router waits for a connection. */
  predicate Waiting(m: Message) {
    && m.action && m.history.pause == PausedAt(m.request.filters)
    && m.upstream == Upstream(NEW_REQUEST.(handle := true)) && !m.hasDecoder
    && m.origin == [] && m.buffer == m.request.payload && m.history.sent == []
    && !m.localSent && m.history.replies == [] && !m.history.peerClosed
  }

  /** A connection is at hand: the request is about to be written, or has been. */
  predicate Exchanging(m: Message) {
    && m.upstream.Upstream? && m.upstream.request.conn
    && var r := m.upstream.request;
       && !r.handle && !r.streamReset && !r.responseComplete && m.origin == []
       && (if r.requestComplete then m.history.sent == [m.request.payload] && m.buffer == []
           else m.history.sent == [] && m.buffer == m.request.payload && !r.responseStarted && !m.history.peerClosed)
       && (if m.history.peerClosed then |m.history.replies| <= 1 else !m.localSent && m.history.replies == [])
  }

  /** The connection is there, the request not yet written: only inside onPoolReady. */
  predicate HalfSent(m: Message) {
    m.upstream.Upstream? && m.upstream.request.conn && !m.upstream.request.requestComplete
  }

  /** Nothing more will come from upstream, and nothing more will be sent there. */
  predicate Finished(m: Message) {
    && (m.upstream.Upstream? ==> !m.upstream.request.handle && !m.upstream.request.conn)
    && m.buffer == []
    && (if m.history.sent == [] then m.origin == [] || m.origin == m.request.payload
        else m.history.sent == [m.request.payload] && m.origin == [])
    && |m.history.replies| <= 2
  }

  predicate PastRouter(m: Message) {
    && !m.action && m.history.pause.NotPaused?
    && (Exchanging(m) || Finished(m))
  }

  /** Nothing is under way upstream, and nothing has been sent there, before the router was called. */
  predicate RouterFirst(m: Message) {
    m.upstream.Upstream? || m.history.sent != [] ==>
      |m.history.calls| > 0 && m.history.calls[|m.history.calls| - 1] == m.request.filters
  }

  predicate Valid(m: Message) {
    && m.place != Gone
    && InChainOrder(m.history.calls, m.request.filters) && RouterFirst(m)
    && (m.upstream.Upstream? ==> m.upstream.request.responseStarted == m.hasDecoder)
    && if m.pending then
         && m.history.finalized == 0 && m.history.pause == PausedAt(m.history.calls[|m.history.calls| - 1])
         && (BeforeRouter(m) || Waiting(m))
       else
         m.history.finalized == 1 && PastRouter(m) && (m.request.oneway ==> m.place != Linked)
  }

  /** Valid, and not in the middle of onPoolReady: how events find a request that is not deleted. */
  predicate Settled(m: Message) {
    Valid(m) && !HalfSent(m)
  }

  /** What is true of a request for ever, deleted or not. */
  predicate Sound(m: Message) {
    && InChainOrder(m.history.calls, m.request.filters) && RouterFirst(m)
    && m.history.finalized == (if m.history.pause.PausedAt? then 0 else 1)
    && (m.history.sent == [] || m.history.sent == [m.request.payload])
    && |m.history.replies| <= 2
    && (m.place.Gone? ==> m.upstream.NoUpstream?)
  }

  /** The same request. */
  predicate Same(m: Message, m': Message) {
    m'.request == m.request
  }

  /** A message stays where it is or is released. */
  predicate Releasing(m: Message, m': Message) {
    m'.place == m.place || (m.place == Linked && m'.place == Deferred)
  }

  // Running the chain.

  /** The chain as a loop: a turn calls one filter, and ends the loop or goes on to the next. */
  lemma ChainTurns(m: Message, k: nat, v: Verdicts, d: Downstream)
    requires !m.localSent && k <= m.request.filters
    ensures
      var c := CallFilter(m, k, v, d);
      ApplyDecoderFilters(m, k, v, d) ==
      if c.m.localSent then Called(c.m.(action := false), Continue)
      else if c.status == StopIteration then Called(Pausing(c.m, PausedAt(k)), StopIteration)
      else ApplyDecoderFilters(c.m, k + 1, v, d)
  {
    var m1 := Logged(m, k);
    assert ApplyDecoderFilters(m, k, v, d) == FromFilter(m1, k, v, d);
    if k == m.request.filters {
      RouterCallsNone(m1, v.router, d);
    }
  }

  /** `len` filters in a row, from `k` on. */
  function Row(k: nat, len: nat): (r: seq<nat>)
    ensures |r| == len
    decreases len
  {
    if len == 0 then [] else [k] + Row(k + 1, len - 1)
  }

  /** The chain calls the filters from `k` on one by one, up to the one that stopped it or the end. */
  predicate CalledInARow(m: Message, k: nat, c: Called) {
    exists len: nat | 0 < len <= m.request.filters + 1 - k :: CalledRow(m, k, c, len)
  }

  predicate CalledRow(m: Message, k: nat, c: Called, len: nat) {
    && c.m.request.filters == m.request.filters && c.m.history.calls == m.history.calls + Row(k, len)
    && (c.status == StopIteration ==> c.m.history.pause.PausedAt? && c.m.history.pause.filter == k + len - 1)
  }

  lemma RowOfOne(m: Message, k: nat, c: Called)
    requires k <= m.request.filters && c.m.request.filters == m.request.filters
    requires c.m.history.calls == m.history.calls + [k]
    requires c.status == StopIteration ==> c.m.history.pause == PausedAt(k)
    ensures CalledInARow(m, k, c)
  {
    assert Row(k, 1) == [k];
    assert CalledRow(m, k, c, 1);
  }

  lemma RowOfMore(m: Message, k: nat, c: Called)
    requires k < m.request.filters && CalledInARow(Logged(m, k), k + 1, c)
    ensures CalledInARow(m, k, c)
  {
    var m1 := Logged(m, k);
    var len: nat :| 0 < len <= m1.request.filters + 1 - (k + 1) && CalledRow(m1, k + 1, c, len);
    assert m.history.calls + [k] + Row(k + 1, len) == m.history.calls + Row(k, len + 1);
    assert CalledRow(m, k, c, len + 1);
  }

  lemma {:induction false} ChainCallsInARow(m: Message, k: nat, v: Verdicts, d: Downstream)
    requires !m.localSent && k <= m.request.filters
    ensures CalledInARow(m, k, ApplyDecoderFilters(m, k, v, d))
    decreases m.request.filters - k
  {
    if k == m.request.filters {
      RouterEndsRow(m, v, d);
    } else if v.before(k) == Continues {
      var m1 := Logged(m, k);
      ChainCallsInARow(m1, k + 1, v, d);
      assert ApplyDecoderFilters(m, k, v, d) == ApplyDecoderFilters(m1, k + 1, v, d);
      RowOfMore(m, k, ApplyDecoderFilters(m1, k + 1, v, d));
    } else {
      FilterEndsRow(m, k, v, d);
    }
  }

  lemma FilterEndsRow(m: Message, k: nat, v: Verdicts, d: Downstream)
    requires !m.localSent && k < m.request.filters && v.before(k) != Continues
    ensures CalledInARow(m, k, ApplyDecoderFilters(m, k, v, d))
  {
    RowOfOne(m, k, FromFilter(Logged(m, k), k, v, d));
  }

  lemma RouterEndsRow(m: Message, v: Verdicts, d: Downstream)
    requires !m.localSent
    ensures CalledInARow(m, m.request.filters, ApplyDecoderFilters(m, m.request.filters, v, d))
  {
    var m1 := Logged(m, m.request.filters);
    RouterCallsNone(m1, v.router, d);
    var c := RouteMessage(m1, v.router, d);
    RowEnds(m, c);
    assert FromFilter(m1, m.request.filters, v, d) == AfterRouter(c);
  }

  lemma RowEnds(m: Message, c: Called)
    requires c.m.history.calls == m.history.calls + [m.request.filters] && c.m.request.filters == m.request.filters
    ensures CalledInARow(m, m.request.filters, AfterRouter(c))
  {
    RowOfOne(m, m.request.filters, AfterRouter(c));
  }

  lemma RouterCallsNone(m: Message, v: RouterVerdict, d: Downstream)
    ensures RouteMessage(m, v, d).m.history.calls == m.history.calls
    ensures RouteMessage(m, v, d).m.request.filters == m.request.filters
  {
    match v {
      case NoTarget =>
      case ReadyNow =>
      case OverflowNow =>
      case MustWait =>
    }
  }

  /** A row appended where it may be keeps the order. */
  lemma {:induction false} RowKeepsOrder(calls: seq<nat>, n: nat, k: nat, len: nat)
    requires MayCall(calls, n, k) && 0 < len <= n + 1 - k
    ensures InChainOrder(calls + Row(k, len), n)
    ensures var all := calls + Row(k, len); all[|all| - 1] == k + len - 1
    decreases len
  {
    CallKeepsOrder(calls, n, k);
    assert calls + Row(k, len) == calls + [k] + Row(k + 1, len - 1);
    if len > 1 {
      RowKeepsOrder(calls + [k], n, k + 1, len - 1);
    } else {
      assert calls + Row(k, len) == calls + [k];
    }
  }

  /** Where a row of calls leaves the order, and who may resume. */
  predicate OrderAfter(c: Called) {
    && InChainOrder(c.m.history.calls, c.m.request.filters)
    && (c.status == StopIteration ==> c.m.history.pause == PausedAt(c.m.history.calls[|c.m.history.calls| - 1]))
  }

  lemma RowIsInOrder(m: Message, k: nat, c: Called)
    requires CalledInARow(m, k, c) && MayCall(m.history.calls, m.request.filters, k)
    ensures OrderAfter(c)
  {
    var len: nat :| 0 < len <= m.request.filters + 1 - k && CalledRow(m, k, c, len);
    RowKeepsOrder(m.history.calls, m.request.filters, k, len);
  }

  lemma ChainKeepsOrder(m: Message, k: nat, v: Verdicts, d: Downstream)
    requires !m.localSent && k <= m.request.filters && MayCall(m.history.calls, m.request.filters, k)
    ensures OrderAfter(ApplyDecoderFilters(m, k, v, d))
  {
    ChainCallsInARow(m, k, v, d);
    RowIsInOrder(m, k, ApplyDecoderFilters(m, k, v, d));
  }

  /** A chain stops before the router, or calls it last. */
  lemma {:induction false} ChainReachesRouter(m: Message, k: nat, v: Verdicts, d: Downstream)
    requires !m.localSent && k <= m.request.filters && m.upstream.NoUpstream? && m.history.sent == []
    ensures RouterFirst(ApplyDecoderFilters(m, k, v, d).m)
    decreases m.request.filters - k
  {
    if k == m.request.filters {
      RouterIsLast(m, v, d);
    } else if v.before(k) == Continues {
      var m1 := Logged(m, k);
      ChainReachesRouter(m1, k + 1, v, d);
      assert ApplyDecoderFilters(m, k, v, d) == ApplyDecoderFilters(m1, k + 1, v, d);
    } else {
      FilterSendsNothing(m, k, v, d);
    }
  }

  lemma FilterSendsNothing(m: Message, k: nat, v: Verdicts, d: Downstream)
    requires !m.localSent && k < m.request.filters && v.before(k) != Continues
    requires m.upstream.NoUpstream? && m.history.sent == []
    ensures RouterFirst(ApplyDecoderFilters(m, k, v, d).m)
  {
    assert RouterFirst(FromFilter(Logged(m, k), k, v, d).m);
  }

  lemma RouterIsLast(m: Message, v: Verdicts, d: Downstream)
    requires !m.localSent
    ensures RouterFirst(ApplyDecoderFilters(m, m.request.filters, v, d).m)
  {
    var m1 := Logged(m, m.request.filters);
    RouterCallsNone(m1, v.router, d);
    var c := RouteMessage(m1, v.router, d);
    LastCallIsRouter(m, AfterRouter(c).m);
    assert FromFilter(m1, m.request.filters, v, d) == AfterRouter(c);
  }

  lemma LastCallIsRouter(m: Message, m': Message)
    requires m'.history.calls == m.history.calls + [m.request.filters] && m'.request.filters == m.request.filters
    ensures RouterFirst(m')
  {
  }

  /** Between two calls of the chain. */
  predicate Running(m: Message) {
    m.place != Gone && m.action && m.history.pause.NotPaused? && Untouched(m)
  }

  /** Where a chain may end: paused, or past the router. */
  predicate Ran(m: Message, c: Called) {
    && Same(m, c.m) && Releasing(m, c.m) && (c.m.place != m.place ==> c.status == Continue && m.request.oneway)
    && c.m.pending == m.pending && c.m.history.finalized == m.history.finalized
    && (c.m.upstream.Upstream? ==> c.m.upstream.request.responseStarted == c.m.hasDecoder) && !HalfSent(c.m)
    && (c.m.history.replies == [] || c.m.history.replies == [Local])
    && if c.status == StopIteration then !c.m.localSent && (BeforeRouter(c.m) || Waiting(c.m)) else PastRouter(c.m)
  }

  lemma {:induction false} ChainRuns(m: Message, k: nat, v: Verdicts, d: Downstream)
    requires Running(m) && k <= m.request.filters
    ensures Ran(m, ApplyDecoderFilters(m, k, v, d))
    decreases m.request.filters - k
  {
    if k == m.request.filters {
      ChainEndsAtRouter(m, v, d);
    } else if v.before(k) == Continues {
      var m1 := Logged(m, k);
      ChainRuns(m1, k + 1, v, d);
      assert ApplyDecoderFilters(m, k, v, d) == ApplyDecoderFilters(m1, k + 1, v, d);
    } else {
      ChainEndsAtFilter(m, k, v, d);
    }
  }

  lemma ChainEndsAtFilter(m: Message, k: nat, v: Verdicts, d: Downstream)
    requires Running(m) && k < m.request.filters && v.before(k) != Continues
    ensures Ran(m, ApplyDecoderFilters(m, k, v, d))
  {
    assert Ran(m, FromFilter(Logged(m, k), k, v, d));
  }

  lemma ChainEndsAtRouter(m: Message, v: Verdicts, d: Downstream)
    requires Running(m)
    ensures Ran(m, ApplyDecoderFilters(m, m.request.filters, v, d))
  {
    var m1 := Logged(m, m.request.filters);
    RouterRuns(m1, v.router, d);
    var c := RouteMessage(m1, v.router, d);
    RoutedIsRan(m1, c);
    assert FromFilter(m1, m.request.filters, v, d) == AfterRouter(c);
  }

  lemma RoutedIsRan(m: Message, c: Called)
    requires Routed(m, c)
    ensures Ran(m, AfterRouter(c))
  {
  }

  /** What the router leaves behind. */
  predicate Routed(m: Message, c: Called) {
    && Same(m, c.m) && Releasing(m, c.m) && (c.m.place != m.place ==> c.status == Continue && m.request.oneway)
    && c.m.action && c.m.history.pause.NotPaused?
    && c.m.pending == m.pending && c.m.history.finalized == m.history.finalized && !c.m.hasDecoder
    && (c.m.upstream.Upstream? ==> !c.m.upstream.request.responseStarted) && !HalfSent(c.m)
    && (c.m.history.replies == [] || c.m.history.replies == [Local])
    && if c.status == StopIteration && !c.m.localSent then Waiting(Pausing(c.m, PausedAt(m.request.filters)))
       else Exchanging(c.m) || Finished(c.m)
  }

  lemma RouterRuns(m: Message, v: RouterVerdict, d: Downstream)
    requires Running(m)
    ensures Routed(m, RouteMessage(m, v, d))
  {
    var payload := m.request.payload;
    assert [] + payload == payload && [] + [payload] == [payload] && [] + [Local] == [Local];
    match v {
      case NoTarget =>
      case ReadyNow =>
      case OverflowNow =>
      case MustWait =>
    }
  }
}
