/** Each event of a request's life keeps its invariant, and what each does to its answers. */
module MessageSteps {
  import opened Bytes
  import opened MessageLifecycle
  import opened MessageInvariant

  /** Answered at most once, and by a response only if it carries the request's own id. */
  predicate OneAnswer(m: Message) {
    m.history.replies == [] || m.history.replies == [Local] || m.history.replies == [Proxied(m.request.id)]
  }

  /** The same request, perhaps released, and with no filter called after a local reply. */
  predicate Moves(m: Message, m': Message) {
    Same(m, m') && Releasing(m, m') && (m.localSent ==> m'.localSent && m'.history.calls == m.history.calls)
  }

  /** The router holds the connection of a request that it has written, and the peer still talks. */
  predicate AwaitsResponse(m: Message) {
    Settled(m) && m.upstream.Upstream? && m.upstream.request.conn && !m.history.peerClosed
  }

  /** The router's part of onPoolReady is done, and the request is still to be written. */
  predicate AboutToSend(m: Message) {
    Valid(m) && HalfSent(m)
  }

  /** A response with another request's id reaches an open downstream connection. */
  predicate Foreign(m: Message, data: ResponseData, d: Downstream) {
    data.Whole? && !data.stops && data.id != m.request.id && d.open
  }

  /** A request as decoding leaves it: its filters have run in a row from the first. */
  predicate AsDecoded(m: Message) {
    Settled(m) && OneAnswer(m) && m.history.calls == Row(0, |m.history.calls|)
  }

  // Who stays linked.

  /** What was linked is linked still, unless released. */
  predicate LinkedUnless(m: Message, m': Message, released: bool) {
    m.place == Linked ==> (m'.place == Linked <==> !released)
  }

  /** The chain of a request that had stopped is through, and nothing more is due to the client: the
      request is one-way, or has been answered locally. */
  predicate Dismisses(m: Message, m': Message) {
    m.history.pause.PausedAt? && m'.history.pause.NotPaused? && (m.request.oneway || m'.localSent)
  }

  // Decoding and resuming.

  lemma DecodedIsValid(request: Request, v: Verdicts, d: Downstream)
    ensures
      var m := OnStreamDecoded(NewMessage(request), v, d);
      && AsDecoded(m) && Same(NewMessage(request), m)
      && (m.localSent ==> m.place != Linked)
      && (m.place == Linked <==> m.history.pause.PausedAt? || (!request.oneway && !m.localSent))
  {
    var m := NewMessage(request).(action := true);
    ChainKeepsOrder(m, 0, v, d);
    ChainRuns(m, 0, v, d);
    ChainReachesRouter(m, 0, v, d);
    DecodedInARow(m, v, d);
    var c := ApplyDecoderFilters(m, 0, v, d);
    if c.status == Continue {
      FinalizedIsValid(c.m);
    }
  }

  lemma DecodedInARow(m: Message, v: Verdicts, d: Downstream)
    requires !m.localSent && m.history.calls == []
    ensures
      var c := ApplyDecoderFilters(m, 0, v, d);
      c.m.history.calls == Row(0, |c.m.history.calls|)
  {
    ChainCallsInARow(m, 0, v, d);
    var c := ApplyDecoderFilters(m, 0, v, d);
    var len: nat :| 0 < len <= m.request.filters + 1 && CalledRow(m, 0, c, len);
    assert [] + Row(0, len) == Row(0, len);
  }

  lemma FinalizedIsValid(m: Message)
    requires m.place != Gone && PastRouter(m) && m.history.finalized == 0
    requires InChainOrder(m.history.calls, m.request.filters) && RouterFirst(m)
    requires m.upstream.Upstream? ==> m.upstream.request.responseStarted == m.hasDecoder
    ensures
      var m1 := FinalizeRequest(m);
      && Valid(m1) && Moves(m, m1) && m1.upstream == m.upstream
      && m1.history.replies == m.history.replies && m1.history.calls == m.history.calls
    ensures LinkedUnless(m, FinalizeRequest(m), m.request.oneway || m.localSent)
    ensures m.request.oneway || m.localSent ==> FinalizeRequest(m).place != Linked
  {
  }

  /** A filter before the router resumes. */
  lemma ResumeKeeps(m: Message, k: nat, v: Verdicts, d: Downstream)
    requires Valid(m) && m.history.pause == PausedAt(k) && k < m.request.filters
    ensures
      var c := ContinueDecoding(m, k, v, d);
      && Settled(c.m) && OneAnswer(c.m) && Moves(m, c.m) && LinkedUnless(m, c.m, Dismisses(m, c.m))
      && (c.status == Continue <==> c.m.history.pause.NotPaused?)
  {
    var m1, from := Pausing(m, NotPaused), ResumePoint(m, k);
    var c := ApplyDecoderFilters(m1, from, v, d);
    if !m.localSent {
      assert MayCall(m1.history.calls, m1.request.filters, from);
      ChainKeepsOrder(m1, from, v, d);
      ChainRuns(m1, from, v, d);
      ChainReachesRouter(m1, from, v, d);
    }
    if c.status == Continue {
      FinalizedIsValid(c.m);
    }
  }

  /** Where the stopped filter starts again: at itself while the origin message is undrained. */
  function ResumeFrom(m: Message): nat
    requires m.history.pause.PausedAt?
  {
    if m.request.payload == [] then m.history.pause.filter + 1 else m.history.pause.filter
  }

  /** The calls have grown by `len` filters in a row, from there on. */
  predicate GrewBy(m: Message, m': Message, len: nat)
    requires m.history.pause.PausedAt?
  {
    m'.history.calls == m.history.calls + Row(ResumeFrom(m), len)
  }

  predicate Reenters(m: Message, m': Message) {
    && m.history.pause.PausedAt?
    && exists len: nat | 0 < len <= m.request.filters + 1 - ResumeFrom(m) :: GrewBy(m, m', len)
  }

  /** The filters that run when one before the router resumes: itself again if the message is not
      empty, and those behind it, in a row. */
  lemma ResumeCallsInARow(m: Message, k: nat, v: Verdicts, d: Downstream)
    requires Valid(m) && m.history.pause == PausedAt(k) && k < m.request.filters && !m.localSent
    ensures Reenters(m, ContinueDecoding(m, k, v, d).m)
  {
    var m1, from := Pausing(m, NotPaused), ResumePoint(m, k);
    ChainCallsInARow(m1, from, v, d);
    var c := ApplyDecoderFilters(m1, from, v, d);
    var len: nat :| 0 < len <= m.request.filters + 1 - from && CalledRow(m1, from, c, len);
    assert GrewBy(m, ContinueDecoding(m, k, v, d).m, len);
  }

  /** A stopped filter that has replied resumes: nothing runs, and the request is released. */
  lemma AnsweredResumes(m: Message, k: nat, v: Verdicts, d: Downstream)
    requires Valid(m) && m.history.pause == PausedAt(k) && k < m.request.filters && m.localSent
    ensures
      var c := ContinueDecoding(m, k, v, d);
      c.status == Continue && c.m.history.calls == m.history.calls && c.m.place != Linked
  {
  }

  /** A stopped filter replies. */
  lemma LateReplyKeeps(m: Message, d: Downstream)
    requires Valid(m) && BeforeRouter(m) && !m.localSent
    ensures
      var m1 := SendLocalReply(m, d);
      && Settled(m1) && OneAnswer(m1) && Moves(m, m1) && m1.history.calls == m.history.calls
      && m1.localSent && m1.history.replies == (if d.open && d.encodes then [Local] else [])
      && m1.place == m.place && m1.history.pause == m.history.pause
  {
    assert [] + [Local] == [Local];
  }

  /** The drained origin message makes the router's own resumption run no filter at all. */
  lemma RouterResumes(m: Message, v: Verdicts, d: Downstream)
    requires m.origin == [] && m.pending
    ensures
      ContinueDecoding(m, m.request.filters, v, d) ==
      Called(FinalizeRequest(Pausing(m, NotPaused).(action := false)), Continue)
  {
  }

  // The pool.

  /** What is written when an upstream request fails. */
  function ErrorReply(m: Message, d: Downstream): seq<Reply> {
    if m.request.oneway || !d.open || !d.encodes then [] else [Local]
  }

  /** A connection for a request that waited: the router is not entered again, and the connection
      is there to write to, even if the dispatch in between has unlinked the message. */
  lemma ReadyKeeps(m: Message, v: Verdicts, d: Downstream)
    requires Valid(m) && m.upstream.Upstream? && m.upstream.request.handle
    ensures
      var c := OnPoolReady(m, v, d);
      && c.status == Continue && Moves(m, c.m) && c.m.history.calls == m.history.calls
      && AboutToSend(c.m) && AboutToSend(Defer(c.m))
      && c.m.history.replies == [] && c.m.history.pause.NotPaused?
      && !c.m.localSent && LinkedUnless(m, c.m, m.request.oneway)
  {
    RouterResumes(Attach(m), v, d);
  }

  lemma CompleteKeeps(m: Message)
    requires AboutToSend(m)
    ensures
      var m1 := CompleteRequest(m);
      && AwaitsResponse(m1) && Moves(m, m1) && m1.history.calls == m.history.calls
      && m1.history.sent == [m.request.payload] && m1.history.replies == m.history.replies
      && m1.place == m.place && m1.localSent == m.localSent && m1.history.pause == m.history.pause
  {
    assert [] + [m.request.payload] == [m.request.payload];
  }

  /** No connection: a request that is not one-way gets one local reply, if the connection downstream
      is open and the error can be encoded. */
  lemma FailureKeeps(m: Message, v: Verdicts, d: Downstream)
    requires Valid(m) && m.upstream.Upstream? && m.upstream.request.handle
    ensures
      var c := OnPoolFailure(m, v, d);
      && c.status == Continue && Moves(m, c.m) && c.m.history.calls == m.history.calls
      && Settled(c.m) && c.m.history.sent == [] && c.m.place != Linked
      && c.m.history.replies == ErrorReply(m, d)
      && c.m.localSent == !m.request.oneway && c.m.history.pause.NotPaused?
  {
    assert [] + [Local] == [Local];
    RouterResumes(FailRequest(DropHandle(m), d), v, d);
  }

  // The response.

  /** Resetting the upstream request drops handle and connection and is heard by nobody: the local
      close it raises brings no reply and releases nothing. */
  lemma ResetIsSilent(m: Message, d: Downstream)
    requires m.upstream.Upstream?
    ensures
      ResetUpstream(m, d) ==
      m.(upstream := Upstream(m.upstream.request.(streamReset := true, handle := false, conn := false)))
  {
  }

  /** And doing it again changes nothing, whatever has become of the downstream connection. */
  lemma ResetIsIdempotent(m: Message, d: Downstream, d': Downstream)
    requires m.upstream.Upstream?
    ensures ResetUpstream(ResetUpstream(m, d), d') == ResetUpstream(m, d)
  {
    ResetIsSilent(m, d);
    ResetIsSilent(ResetUpstream(m, d), d');
  }

  /** Neither a response nor a close of the upstream connection calls a filter of the request. */
  lemma ResponseCallsNothing(m: Message, data: ResponseData, end: bool, d: Downstream)
    requires m.upstream.Upstream?
    ensures OnUpstreamData(m, data, end, d).history.calls == m.history.calls
  {
    var a := UpstreamData(StartResponse(m), data, d);
    assert a.m.history.calls == m.history.calls by {
      DecodingCallsNothing(StartResponse(m), data, d);
    }
    if a.status == Reset {
      ResetIsSilent(a.m, d);
    }
  }

  lemma DecodingCallsNothing(m: Message, data: ResponseData, d: Downstream)
    ensures UpstreamData(m, data, d).m.history.calls == m.history.calls
  {
    match data {
      case Partial =>
      case Malformed =>
      case Whole(_, _) =>
    }
  }

  lemma CloseCallsNothing(m: Message, remote: bool, d: Downstream)
    ensures OnUpstreamClose(m, remote, d).history.calls == m.history.calls
  {
  }

  /** What upstream data brings to the client: nothing while the response is partial, unless the
      upstream ends there; an error for a malformed one; and a whole one as it is, if no filter keeps
      it back and the connection is open, with an error behind it if its id is foreign. */
  function ResponseReplies(m: Message, data: ResponseData, end: bool, d: Downstream): seq<Reply> {
    match data
    case Partial => if end then ErrorReply(m, d) else []
    case Malformed => if d.open && d.encodes then [Local] else []
    case Whole(id, stops) =>
      (if stops || !d.open then [] else [Proxied(id)]) +
      (if id != m.request.id && d.open && d.encodes then [Local] else [])
  }

  /** What becomes of a request that upstream data reaches. */
  predicate Responds(m: Message, m1: Message, data: ResponseData, end: bool, d: Downstream) {
    && Settled(m1) && Moves(m, m1) && m1.history.pause == m.history.pause && m1.hasDecoder
    && LinkedUnless(m, m1, !data.Partial?)
    && m1.history.replies == ResponseReplies(m, data, end, d)
    && (data.Partial? && !end ==> AwaitsResponse(m1))
    && (!data.Partial? || end ==> Finished(m1))
    && (m1.upstream.NoUpstream? <==> GivesBack(m, data, end, d))
    && (m1.upstream.Upstream? ==> m1.upstream.request.streamReset == (!data.Partial?))
  }

  /** The upstream request is done with its connection, which goes back to the pool: a whole response
      of its own, written or kept back, or the end of the stream. Otherwise, unless the response is
      still partial, the connection is closed. */
  predicate GivesBack(m: Message, data: ResponseData, end: bool, d: Downstream) {
    match data
    case Partial => end
    case Malformed => false
    case Whole(id, stops) => id == m.request.id && (stops || d.open)
  }

  /** Upstream data is answered at most once unless the id is foreign; then the error that follows
      the response makes two. */
  lemma DataKeeps(m: Message, data: ResponseData, end: bool, d: Downstream)
    requires AwaitsResponse(m)
    ensures
      var m1 := OnUpstreamData(m, data, end, d);
      && Responds(m, m1, data, end, d)
      && (!data.Partial? ==> m1.place != Linked)
      && (data == Whole(m.request.id, false) && d.open ==> m1.history.replies == [Proxied(m.request.id)])
      && (OneAnswer(m1) <==> !Foreign(m, data, d))
      && (|m1.history.replies| == 2 <==> Foreign(m, data, d) && d.encodes)
  {
    match data {
      case Partial => PartialKeeps(m, end, d);
      case Malformed => MalformedKeeps(m, end, d);
      case Whole(_, _) => WholeKeeps(m, data, end, d);
    }
    RepliesCount(m, OnUpstreamData(m, data, end, d), data, end, d);
  }

  lemma RepliesCount(m: Message, m1: Message, data: ResponseData, end: bool, d: Downstream)
    requires m1.request == m.request && m1.history.replies == ResponseReplies(m, data, end, d)
    ensures OneAnswer(m1) <==> !Foreign(m, data, d)
    ensures |m1.history.replies| == 2 <==> Foreign(m, data, d) && d.encodes
    ensures data == Whole(m.request.id, false) && d.open ==> m1.history.replies == [Proxied(m.request.id)]
  {
    var r := m1.history.replies;
    if data.Whole? {
      if Foreign(m, data, d) {
        assert r[0] == Proxied(data.id);
      } else if !data.stops && d.open {
        assert [Proxied(data.id)] + [] == [Proxied(data.id)];
      } else {
        assert [] + [Local] == [Local];
      }
    }
  }

  lemma PartialKeeps(m: Message, end: bool, d: Downstream)
    requires AwaitsResponse(m)
    ensures Responds(m, OnUpstreamData(m, Partial, end, d), Partial, end, d)
  {
    assert [] + [Local] == [Local];
  }

  lemma MalformedKeeps(m: Message, end: bool, d: Downstream)
    requires AwaitsResponse(m)
    ensures
      var m1 := OnUpstreamData(m, Malformed, end, d);
      Responds(m, m1, Malformed, end, d) && m1.place != Linked
  {
    assert [] + [Local] == [Local];
    ResetIsSilent(UpstreamData(StartResponse(m), Malformed, d).m, d);
  }

  lemma WholeKeeps(m: Message, data: ResponseData, end: bool, d: Downstream)
    requires AwaitsResponse(m) && data.Whole?
    ensures
      var m1 := OnUpstreamData(m, data, end, d);
      Responds(m, m1, data, end, d) && m1.place != Linked
  {
    if data.stops {
      StoppedKeeps(m, data.id, end, d);
    } else if !d.open {
      ResetIsSilent(UpstreamData(StartResponse(m), data, d).m, d);
    } else {
      WrittenKeeps(m, data.id, end, d);
    }
  }

  /** An encoder filter keeps the response back. */
  lemma StoppedKeeps(m: Message, id: uint64, end: bool, d: Downstream)
    requires AwaitsResponse(m)
    ensures
      var m1 := OnUpstreamData(m, Whole(id, true), end, d);
      && Responds(m, m1, Whole(id, true), end, d)
      && (m1.history.replies == [] || m1.history.replies == [Local]) && m1.place != Linked
  {
    assert [] + [Local] == [Local];
    if id != m.request.id {
      ResetIsSilent(UpstreamData(StartResponse(m), Whole(id, true), d).m, d);
    }
  }

  /** The response is written before its id is looked at. */
  lemma WrittenKeeps(m: Message, id: uint64, end: bool, d: Downstream)
    requires AwaitsResponse(m) && d.open
    ensures
      var m1 := OnUpstreamData(m, Whole(id, false), end, d);
      && Responds(m, m1, Whole(id, false), end, d)
      && m1.place != Linked
      && m1.history.replies == if id == m.request.id || !d.encodes then [Proxied(id)] else [Proxied(id), Local]
  {
    if id == m.request.id || !d.encodes {
      assert [] + [Proxied(id)] == [Proxied(id)];
    } else {
      assert [] + [Proxied(id)] + [Local] == [Proxied(id), Local];
    }
    if id != m.request.id {
      ResetIsSilent(UpstreamData(StartResponse(m), Whole(id, false), d).m, d);
    }
  }

  /** The upstream connection closes: the same reply as for a pool failure. */
  lemma CloseKeeps(m: Message, remote: bool, d: Downstream)
    requires AwaitsResponse(m)
    ensures
      var m1 := OnUpstreamClose(m, remote, d);
      && Settled(m1) && Moves(m, m1) && m1.history.replies == ErrorReply(m, d)
      && LinkedUnless(m, m1, false) && m1.history.pause == m.history.pause
  {
    assert [] + [Local] == [Local];
  }

  // The end.

  lemma DeferKeeps(m: Message)
    requires Valid(m)
    ensures Valid(Defer(m)) && HalfSent(Defer(m)) == HalfSent(m) && Moves(m, Defer(m))
    ensures Defer(m).history.replies == m.history.replies && Defer(m).place == Deferred
  {
  }

  lemma DestroyKeeps(m: Message, d: Downstream)
    requires Valid(m)
    ensures
      var m1 := Destroy(m, d);
      && Sound(m1) && Same(m, m1) && m1.place == Gone
      && m1.history == m.history && m1.localSent == m.localSent
  {
    if m.upstream.Upstream? {
      ResetIsSilent(m, d);
    }
  }
}
