/** Whole runs of a connection: every sequence of events that keeps to the environment's contract. */
module LifecycleRuns {
  import opened Bytes
  import opened Lists
  import opened MessageLifecycle
  import opened MessageInvariant
  import opened MessageSteps
  import opened ConnectionEvents
  import opened ConnectionLifecycle

  /** The message at `i` becomes `m`, and then the connection may dispatch. */
  function Acted(c: Connection, i: nat, m: Message, dispatches: bool, batch: Batch, encodes: bool): (r: Connection)
    requires WellLinked(c) && i < |c.messages| && Releasing(c.messages[i], m)
    ensures WellLinked(r)
  {
    var c1 := Put(c, i, m);
    if dispatches then Dispatch(c1, batch, encodes) else c1
  }

  /** What comes after a dispatch inside onPoolReady: the request is written, wherever the message
      is by then. */
  function Completed(c: Connection, i: nat): (r: Connection)
    requires WellLinked(c) && i < |c.messages| && c.messages[i].upstream.Upstream?
    ensures WellLinked(r)
  {
    Put(c, i, CompleteRequest(c.messages[i]))
  }

  function Resumed(c: Connection, i: nat, v: Verdicts, batch: Batch, encodes: bool): (r: Connection)
    requires Stable(c) && Enabled(c, FilterResumes(i, v, batch))
    ensures WellLinked(r)
  {
    var m, d := c.messages[i], Downstream(c.open, encodes);
    ResumeKeeps(m, m.history.pause.filter, v, d);
    var a := ContinueDecoding(m, m.history.pause.filter, v, d);
    Acted(c, i, a.m, a.status == Continue, batch, encodes)
  }

  function LateReply(c: Connection, i: nat, encodes: bool): (r: Connection)
    requires Stable(c) && Enabled(c, FilterReplies(i))
    ensures WellLinked(r)
  {
    var m, d := c.messages[i], Downstream(c.open, encodes);
    LateReplyKeeps(m, d);
    Put(c, i, SendLocalReply(m, d))
  }

  function Connected(c: Connection, i: nat, v: Verdicts, batch: Batch, encodes: bool): (r: Connection)
    requires Stable(c) && Enabled(c, PoolReady(i, v, batch))
    ensures WellLinked(r)
  {
    var m, d := c.messages[i], Downstream(c.open, encodes);
    ReadyKeeps(m, v, d);
    var a := OnPoolReady(m, v, d);
    var c1 := Acted(c, i, a.m, a.status == Continue, batch, encodes);
    DispatchFollows(Put(c, i, a.m), batch, encodes);
    assert Kept(a.m, c1.messages[i]);
    Completed(c1, i)
  }

  function Refused(c: Connection, i: nat, v: Verdicts, batch: Batch, encodes: bool): (r: Connection)
    requires Stable(c) && Enabled(c, PoolFailure(i, v, batch))
    ensures WellLinked(r)
  {
    var m, d := c.messages[i], Downstream(c.open, encodes);
    FailureKeeps(m, v, d);
    var a := OnPoolFailure(m, v, d);
    Acted(c, i, a.m, a.status == Continue, batch, encodes)
  }

  function Responded(c: Connection, i: nat, data: ResponseData, end: bool, encodes: bool): (r: Connection)
    requires Stable(c) && Enabled(c, UpstreamResponse(i, data, end))
    ensures WellLinked(r)
  {
    var m, d := c.messages[i], Downstream(c.open, encodes);
    DataKeeps(m, data, end, d);
    Put(c, i, OnUpstreamData(m, data, end, d))
  }

  function Disconnected(c: Connection, i: nat, remote: bool, encodes: bool): (r: Connection)
    requires Stable(c) && Enabled(c, UpstreamClose(i, remote))
    ensures WellLinked(r)
  {
    var m, d := c.messages[i], Downstream(c.open, encodes);
    CloseKeeps(m, remote, d);
    Put(c, i, OnUpstreamClose(m, remote, d))
  }

  /** What an event does to a connection. */
  function Next(c: Connection, s: Step): (r: Connection)
    requires Stable(c) && Enabled(c, s.event)
    ensures WellLinked(r)
  {
    match s.event
    case Data(batch) => Dispatch(c, batch, s.encodes)
    case FilterResumes(i, v, batch) => Resumed(c, i, v, batch, s.encodes)
    case FilterReplies(i) => LateReply(c, i, s.encodes)
    case FilterResets(i) => Put(c, i, Defer(c.messages[i]))
    case PoolReady(i, v, batch) => Connected(c, i, v, batch, s.encodes)
    case PoolFailure(i, v, batch) => Refused(c, i, v, batch, s.encodes)
    case UpstreamResponse(i, data, end) => Responded(c, i, data, end, s.encodes)
    case UpstreamClose(i, remote) => Disconnected(c, i, remote, s.encodes)
    case DownstreamClose(local) => ResetAll(c.(open := false), local)
    case Tick => DeleteAll(c, Downstream(c.open, s.encodes))
  }

  // One step.

  /** The step brings the message at `i` a whole response with another request's id, which goes out
      on an open connection. */
  predicate BringsForeign(c: Connection, s: Step, i: nat) {
    && s.event.UpstreamResponse? && s.event.i == i && i < |c.messages|
    && Foreign(c.messages[i], s.event.data, Downstream(c.open, s.encodes))
  }

  /** The step resumes a filter of the message at `i`. */
  predicate Resumes(s: Step, i: nat) {
    s.event.FilterResumes? && s.event.i == i
  }

  /** What a step does to one request, to its answers and to its filters: they run only when one
      resumes that has not replied, and then in a row from it. */
  predicate Stepped(m: Message, m': Message, foreign: bool, encodes: bool, resumes: bool) {
    && InOrder(m') && Same(m, m')
    && (m.localSent ==> m'.localSent) && (m.place == Gone ==> m' == m)
    && (if resumes && !m.localSent then Reenters(m, m') else m'.history.calls == m.history.calls)
    && (OneAnswer(m) && !foreign ==> OneAnswer(m'))
    && (|m'.history.replies| == 2 <==> |m.history.replies| == 2 || (foreign && encodes))
  }

  /** What a step does to the message at `i`. */
  predicate SteppedAt(c: Connection, r: Connection, s: Step, i: nat)
    requires i < |c.messages| <= |r.messages|
  {
    Stepped(c.messages[i], r.messages[i], BringsForeign(c, s, i), s.encodes, Resumes(s, i))
  }

  predicate AllStepped(c: Connection, r: Connection, s: Step) {
    && |c.messages| <= |r.messages|
    && (forall i :: 0 <= i < |c.messages| ==> SteppedAt(c, r, s, i))
    && (forall i :: |c.messages| <= i < |r.messages| ==> AsDecoded(r.messages[i]))
  }

  lemma KeptIsStepped(m: Message, m': Message, encodes: bool)
    requires InOrder(m) && Kept(m, m')
    ensures Stepped(m, m', false, encodes, false)
  {
    if m.place != Gone {
      DeferKeeps(m);
    }
  }

  lemma FollowsIsStepped(c: Connection, r: Connection, s: Step)
    requires Stable(c) && Follows(c, r) && !s.event.UpstreamResponse? && !s.event.FilterResumes?
    ensures AllStepped(c, r, s)
  {
    forall i | 0 <= i < |c.messages|
      ensures SteppedAt(c, r, s, i)
    {
      KeptIsStepped(c.messages[i], r.messages[i], s.encodes);
    }
  }

  /** All messages but the one at `i` follow. */
  predicate FollowsBut(c: Connection, r: Connection, i: nat) {
    && |c.messages| <= |r.messages|
    && (forall j :: 0 <= j < |c.messages| && j != i ==> Kept(c.messages[j], r.messages[j]))
    && (forall j :: |c.messages| <= j < |r.messages| ==> AsDecoded(r.messages[j]))
  }

  lemma OneSteps(c: Connection, r: Connection, i: nat, s: Step)
    requires Stable(c) && i < |c.messages| && FollowsBut(c, r, i)
    requires SteppedAt(c, r, s, i)
    requires s.event.UpstreamResponse? || s.event.FilterResumes? ==> s.event.i == i
    ensures AllStepped(c, r, s)
  {
    forall j | 0 <= j < |c.messages| && j != i
      ensures SteppedAt(c, r, s, j)
    {
      KeptIsStepped(c.messages[j], r.messages[j], s.encodes);
    }
  }

  lemma ActedFollows(c: Connection, i: nat, m: Message, dispatches: bool, batch: Batch, encodes: bool)
    requires WellLinked(c) && i < |c.messages| && Releasing(c.messages[i], m)
    ensures
      var r := Acted(c, i, m, dispatches, batch, encodes);
      FollowsBut(c, r, i) && Kept(m, r.messages[i])
  {
    var c1 := Put(c, i, m);
    if dispatches {
      DispatchFollows(c1, batch, encodes);
      var r := Dispatch(c1, batch, encodes);
      assert Kept(c1.messages[i], r.messages[i]);
      forall j | 0 <= j < |c.messages| && j != i
        ensures Kept(c.messages[j], r.messages[j])
      {
        assert c1.messages[j] == c.messages[j];
        assert Kept(c1.messages[j], r.messages[j]);
      }
    }
  }

  /** A filter resumes, and the message is perhaps released by the dispatch that follows. */
  lemma ResumedIsStepped(m: Message, v: Verdicts, d: Downstream, kept: Message)
    requires Settled(m) && m.history.pause.PausedAt? && m.history.pause.filter < m.request.filters
    requires Kept(ContinueDecoding(m, m.history.pause.filter, v, d).m, kept)
    ensures Stepped(m, kept, false, d.encodes, true)
  {
    var k := m.history.pause.filter;
    ResumeKeeps(m, k, v, d);
    var c := ContinueDecoding(m, k, v, d);
    KeptIsStepped(c.m, kept, d.encodes);
    if m.localSent {
      AnsweredResumes(m, k, v, d);
    } else {
      ResumeCallsInARow(m, k, v, d);
      var len: nat :| 0 < len <= m.request.filters + 1 - ResumeFrom(m) && GrewBy(m, c.m, len);
      assert GrewBy(m, kept, len);
    }
  }

  lemma ResumedSteps(c: Connection, s: Step)
    requires Stable(c) && Enabled(c, s.event) && s.event.FilterResumes?
    ensures AllStepped(c, Next(c, s), s)
  {
    var i, v, d := s.event.i, s.event.verdicts, Downstream(c.open, s.encodes);
    var m := c.messages[i];
    ResumeKeeps(m, m.history.pause.filter, v, d);
    var a := ContinueDecoding(m, m.history.pause.filter, v, d);
    ActedFollows(c, i, a.m, a.status == Continue, s.event.batch, s.encodes);
    ResumedIsStepped(m, v, d, Next(c, s).messages[i]);
    OneSteps(c, Next(c, s), i, s);
  }

  lemma LateReplySteps(c: Connection, s: Step)
    requires Stable(c) && Enabled(c, s.event) && s.event.FilterReplies?
    ensures AllStepped(c, Next(c, s), s)
  {
    LateReplyKeeps(c.messages[s.event.i], Downstream(c.open, s.encodes));
    OneSteps(c, Next(c, s), s.event.i, s);
  }

  lemma FilterResetSteps(c: Connection, s: Step)
    requires Stable(c) && Enabled(c, s.event) && s.event.FilterResets?
    ensures AllStepped(c, Next(c, s), s)
  {
    FollowsIsStepped(c, Next(c, s), s);
  }

  lemma RefusedSteps(c: Connection, s: Step)
    requires Stable(c) && Enabled(c, s.event) && s.event.PoolFailure?
    ensures AllStepped(c, Next(c, s), s)
  {
    var i, d := s.event.i, Downstream(c.open, s.encodes);
    var m := c.messages[i];
    FailureKeeps(m, s.event.verdicts, d);
    var a := OnPoolFailure(m, s.event.verdicts, d);
    ActedFollows(c, i, a.m, a.status == Continue, s.event.batch, s.encodes);
    KeptIsStepped(a.m, Next(c, s).messages[i], s.encodes);
    OneSteps(c, Next(c, s), i, s);
  }

  /** Ready, perhaps released by the dispatch in between, and then written. */
  lemma SentIsStepped(m: Message, v: Verdicts, d: Downstream, kept: Message)
    requires Settled(m) && m.upstream.Upstream? && m.upstream.request.handle
    requires Kept(OnPoolReady(m, v, d).m, kept)
    ensures AboutToSend(kept)
    ensures
      var m1 := CompleteRequest(kept);
      Stepped(m, m1, false, d.encodes, false) && m1.history.sent == [m.request.payload]
  {
    ReadyKeeps(m, v, d);
    CompleteKeeps(kept);
  }

  /** The dispatch inside onPoolReady may break the connection and unlink the message; the
      connection upstream is still there to write to, and the payload goes out whole. */
  lemma ConnectedSteps(c: Connection, s: Step)
    requires Stable(c) && Enabled(c, s.event) && s.event.PoolReady?
    ensures AllStepped(c, Next(c, s), s)
    ensures Next(c, s).messages[s.event.i].history.sent == [c.messages[s.event.i].request.payload]
  {
    var i, v, d := s.event.i, s.event.verdicts, Downstream(c.open, s.encodes);
    var a := OnPoolReady(c.messages[i], v, d);
    ReadyKeeps(c.messages[i], v, d);
    ActedFollows(c, i, a.m, true, s.event.batch, s.encodes);
    var c1 := Acted(c, i, a.m, true, s.event.batch, s.encodes);
    SentIsStepped(c.messages[i], v, d, c1.messages[i]);
    assert Next(c, s) == Completed(c1, i);
    OneSteps(c, Next(c, s), i, s);
  }

  lemma RespondedSteps(c: Connection, s: Step)
    requires Stable(c) && Enabled(c, s.event) && s.event.UpstreamResponse?
    ensures AllStepped(c, Next(c, s), s)
  {
    var i, d := s.event.i, Downstream(c.open, s.encodes);
    DataKeeps(c.messages[i], s.event.data, s.event.end, d);
    ResponseCallsNothing(c.messages[i], s.event.data, s.event.end, d);
    OneSteps(c, Next(c, s), i, s);
  }

  lemma DisconnectedSteps(c: Connection, s: Step)
    requires Stable(c) && Enabled(c, s.event) && s.event.UpstreamClose?
    ensures AllStepped(c, Next(c, s), s)
  {
    var i, d := s.event.i, Downstream(c.open, s.encodes);
    CloseKeeps(c.messages[i], s.event.remote, d);
    CloseCallsNothing(c.messages[i], s.event.remote, d);
    OneSteps(c, Next(c, s), i, s);
  }

  /** Deleted or not. */
  predicate Expired(m: Message, m': Message, d: Downstream) {
    m' == m || (m.place == Deferred && m' == Destroy(m, d))
  }

  /** Exactly the scheduled messages are destroyed, each once. */
  lemma {:induction false} DeleteAllDeletes(c: Connection, d: Downstream)
    requires WellLinked(c)
    ensures
      var r := DeleteAll(c, d);
      && r.deferred == [] && r.active == c.active && r.requestActive == |c.active|
      && |r.messages| == |c.messages|
      && forall i :: 0 <= i < |c.messages| ==> Expired(c.messages[i], r.messages[i], d)
    decreases |c.deferred|
  {
    if c.deferred != [] {
      var c1, first := DeleteFirst(c, d), c.deferred[0];
      DeleteAllDeletes(c1, d);
      assert first in c.deferred && IsAt(c, first, Deferred);
      forall i | 0 <= i < |c.messages|
        ensures Expired(c.messages[i], DeleteAll(c, d).messages[i], d)
      {
        assert Expired(c1.messages[i], DeleteAll(c, d).messages[i], d);
      }
    }
  }

  lemma TickSteps(c: Connection, s: Step)
    requires Stable(c) && s.event.Tick?
    ensures AllStepped(c, Next(c, s), s)
  {
    var d := Downstream(c.open, s.encodes);
    DeleteAllDeletes(c, d);
    forall i | 0 <= i < |c.messages|
      ensures SteppedAt(c, Next(c, s), s, i)
    {
      assert Expired(c.messages[i], Next(c, s).messages[i], d);
      if c.messages[i].place == Deferred {
        DestroyKeeps(c.messages[i], d);
      }
    }
  }

  lemma DataSteps(c: Connection, s: Step)
    requires Stable(c) && Enabled(c, s.event) && s.event.Data?
    ensures AllStepped(c, Next(c, s), s)
  {
    DispatchFollows(c, s.event.batch, s.encodes);
    FollowsIsStepped(c, Next(c, s), s);
  }

  lemma ClosedSteps(c: Connection, s: Step)
    requires Stable(c) && Enabled(c, s.event) && s.event.DownstreamClose?
    ensures AllStepped(c, Next(c, s), s)
  {
    ResetAllFollows(c.(open := false), s.event.local);
    FollowsIsStepped(c, Next(c, s), s);
  }

  /** Every event takes every request one step on. */
  lemma EventSteps(c: Connection, s: Step)
    requires Stable(c) && Enabled(c, s.event)
    ensures AllStepped(c, Next(c, s), s)
  {
    match s.event
    case Data(_) => DataSteps(c, s);
    case FilterResumes(_, _, _) => ResumedSteps(c, s);
    case FilterReplies(_) => LateReplySteps(c, s);
    case FilterResets(_) => FilterResetSteps(c, s);
    case PoolReady(_, _, _) => ConnectedSteps(c, s);
    case PoolFailure(_, _, _) => RefusedSteps(c, s);
    case UpstreamResponse(_, _, _) => RespondedSteps(c, s);
    case UpstreamClose(_, _) => DisconnectedSteps(c, s);
    case DownstreamClose(_) => ClosedSteps(c, s);
    case Tick => TickSteps(c, s);
  }

  /** And leaves the connection as events find it. */
  lemma NextIsStable(c: Connection, s: Step)
    requires Stable(c) && Enabled(c, s.event)
    ensures Stable(Next(c, s))
  {
    EventSteps(c, s);
    var r := Next(c, s);
    forall i | 0 <= i < |r.messages|
      ensures InOrder(r.messages[i])
    {
      if i < |c.messages| {
        assert SteppedAt(c, r, s, i);
      }
    }
  }

  // Runs.

  /** A run keeps to the environment's contract. */
  predicate Permitted(c: Connection, steps: seq<Step>)
    requires Stable(c)
    decreases |steps|
  {
    steps == [] ||
    (Enabled(c, steps[0].event) && (NextIsStable(c, steps[0]); Permitted(Next(c, steps[0]), steps[1..])))
  }

  function RunOf(c: Connection, steps: seq<Step>): Connection
    requires Stable(c) && Permitted(c, steps)
    decreases |steps|
  {
    if steps == [] then c
    else
      NextIsStable(c, steps[0]);
      RunOf(Next(c, steps[0]), steps[1..])
  }

  /** Some step of the run brings the request at `i` a foreign response, followed by an error. */
  predicate Crossed(c: Connection, steps: seq<Step>, i: nat)
    requires Stable(c) && Permitted(c, steps)
    decreases |steps|
  {
    if steps == [] then false
    else
      NextIsStable(c, steps[0]);
      (BringsForeign(c, steps[0], i) && steps[0].encodes) || Crossed(Next(c, steps[0]), steps[1..], i)
  }

  /** The ids of all responses that reach an open connection are those of their requests. */
  predicate Faithful(c: Connection, steps: seq<Step>)
    requires Stable(c) && Permitted(c, steps)
    decreases |steps|
  {
    if steps == [] then true
    else
      NextIsStable(c, steps[0]);
      var s := steps[0];
      (s.event.UpstreamResponse? ==> !BringsForeign(c, s, s.event.i)) && Faithful(Next(c, s), steps[1..])
  }

  ghost predicate AllOneAnswer(c: Connection) {
    forall i :: 0 <= i < |c.messages| ==> OneAnswer(c.messages[i])
  }

  lemma {:induction false} RunIsStable(c: Connection, steps: seq<Step>)
    requires Stable(c) && Permitted(c, steps)
    ensures Stable(RunOf(c, steps))
    decreases |steps|
  {
    if steps != [] {
      NextIsStable(c, steps[0]);
      RunIsStable(Next(c, steps[0]), steps[1..]);
    }
  }

  lemma StepAnswersOnce(c: Connection, s: Step)
    requires Stable(c) && Enabled(c, s.event) && AllOneAnswer(c)
    requires s.event.UpstreamResponse? ==> !BringsForeign(c, s, s.event.i)
    ensures AllOneAnswer(Next(c, s))
  {
    EventSteps(c, s);
    var r := Next(c, s);
    forall i | 0 <= i < |r.messages|
      ensures OneAnswer(r.messages[i])
    {
      if i < |c.messages| {
        assert SteppedAt(c, r, s, i);
      }
    }
  }

  /** At most one reply: while responses carry the ids of their requests, every request is answered
      at most once, by its own response or by one local reply, over every run. */
  lemma {:induction false} AtMostOneReply(c: Connection, steps: seq<Step>)
    requires Stable(c) && AllOneAnswer(c) && Permitted(c, steps) && Faithful(c, steps)
    ensures AllOneAnswer(RunOf(c, steps))
    decreases |steps|
  {
    if steps != [] {
      NextIsStable(c, steps[0]);
      StepAnswersOnce(c, steps[0]);
      AtMostOneReply(Next(c, steps[0]), steps[1..]);
    }
  }

  predicate TwoReplies(c: Connection, i: nat) {
    i < |c.messages| && |c.messages[i].history.replies| == 2
  }

  lemma StepRepliesTwice(c: Connection, s: Step, i: nat)
    requires Stable(c) && Enabled(c, s.event)
    ensures TwoReplies(Next(c, s), i) <==> TwoReplies(c, i) || (BringsForeign(c, s, i) && s.encodes)
  {
    EventSteps(c, s);
    if i < |c.messages| {
      assert SteppedAt(c, Next(c, s), s, i);
    }
  }

  /** Without that hypothesis a request is answered twice exactly if some step crosses it, because
      the response is written before its id is checked. */
  lemma {:induction false} TwoRepliesExactly(c: Connection, steps: seq<Step>, i: nat)
    requires Stable(c) && Permitted(c, steps)
    ensures TwoReplies(RunOf(c, steps), i) <==> TwoReplies(c, i) || Crossed(c, steps, i)
    decreases |steps|
  {
    if steps != [] {
      NextIsStable(c, steps[0]);
      StepRepliesTwice(c, steps[0], i);
      TwoRepliesExactly(Next(c, steps[0]), steps[1..], i);
    }
  }

  lemma SentAtOnce(a: Arrival, d: Downstream)
    requires a.request.filters == 0 && a.verdicts.router == ReadyNow
    ensures AwaitsResponse(Decoded(a, d)) && Decoded(a, d).request.id == a.request.id
  {
    var m := Fresh(a).(action := true);
    assert ApplyDecoderFilters(m, 0, a.verdicts, d) == FromFilter(Logged(m, 0), 0, a.verdicts, d);
  }

  lemma OneArrives(a: Arrival)
    ensures Next(OPENED, Step(Data(Batch([a], false)), true)) == Arrive(OPENED, a, true)
    ensures Arrive(OPENED, a, true).messages == [Decoded(a, Downstream(true, true))] && Arrive(OPENED, a, true).open
  {
    assert ArriveAll(OPENED, [a], true) == ArriveAll(Arrive(OPENED, a, true), [], true);
  }

  /** A request, and a response to it with another id: the response goes out, then the error. */
  lemma AnsweredTwice(payload: Octets, v: Verdicts)
    requires v.router == ReadyNow
    ensures
      var request := Step(Data(Batch([Arrival(Request(false, 1, payload, 0), v)], false)), true);
      var response := Step(UpstreamResponse(0, Whole(2, false), false), true);
      && Permitted(OPENED, [request, response])
      && TwoReplies(RunOf(OPENED, [request, response]), 0)
      && RunOf(OPENED, [request, response]).messages[0].history.replies == [Proxied(2), Local]
  {
    var a := Arrival(Request(false, 1, payload, 0), v);
    var request := Step(Data(Batch([a], false)), true);
    var response := Step(UpstreamResponse(0, Whole(2, false), false), true);
    NextIsStable(OPENED, request);
    OneArrives(a);
    SentAtOnce(a, Downstream(true, true));
    assert [request, response][1..] == [response];
    ForeignAnswersTwice(Next(OPENED, request), response);
  }

  lemma ForeignAnswersTwice(c: Connection, s: Step)
    requires Stable(c) && c.open && |c.messages| == 1 && AwaitsResponse(c.messages[0]) && c.messages[0].request.id == 1
    requires s == Step(UpstreamResponse(0, Whole(2, false), false), true)
    ensures Permitted(c, [s]) && TwoReplies(RunOf(c, [s]), 0)
    ensures RunOf(c, [s]).messages[0].history.replies == [Proxied(2), Local]
  {
    NextIsStable(c, s);
    WrittenKeeps(c.messages[0], 2, false, Downstream(true, true));
    assert [s][1..] == [] && Permitted(Next(c, s), []);
  }

  /** No filter of a request runs after a local reply to it. */
  lemma {:induction false} NoFilterAfterLocalReply(c: Connection, steps: seq<Step>, i: nat)
    requires Stable(c) && Permitted(c, steps) && i < |c.messages| && c.messages[i].localSent
    ensures
      var r := RunOf(c, steps);
      i < |r.messages| && r.messages[i].history.calls == c.messages[i].history.calls
    decreases |steps|
  {
    if steps != [] {
      NextIsStable(c, steps[0]);
      EventSteps(c, steps[0]);
      assert SteppedAt(c, Next(c, steps[0]), steps[0], i);
      NoFilterAfterLocalReply(Next(c, steps[0]), steps[1..], i);
    }
  }

  lemma OpenedIsStable()
    ensures Stable(OPENED) && AllOneAnswer(OPENED)
  {
  }

  /** The same over every run of a fresh connection. */
  lemma FreshConnectionAnswersOnce(steps: seq<Step>)
    requires Permitted(OPENED, steps) && Faithful(OPENED, steps)
    ensures AllOneAnswer(RunOf(OPENED, steps))
  {
    OpenedIsStable();
    AtMostOneReply(OPENED, steps);
  }

  /** What every run from a fresh connection guarantees for each of its requests: the payload goes
      upstream at most once and unchanged; the filters run in order and the router at most once; the
      request is finalized exactly once if its chain has completed, and never otherwise; a pool
      handle and a connection are never both held; it is scheduled for deletion at most once; and
      the counter of active requests is the number linked or waiting to be deleted. */
  lemma RunGuarantees(steps: seq<Step>, i: nat)
    requires Permitted(OPENED, steps) && i < |RunOf(OPENED, steps).messages|
    ensures
      var c := RunOf(OPENED, steps);
      var m := c.messages[i];
      && (m.history.sent == [] || m.history.sent == [m.request.payload])
      && InChainOrder(m.history.calls, m.request.filters) && RouterFirst(m)
      && m.history.finalized == (if m.history.pause.PausedAt? then 0 else 1)
      && (m.upstream.Upstream? ==> !(m.upstream.request.handle && m.upstream.request.conn))
      && Distinct(c.scheduled) && (i in c.scheduled <==> m.place != Linked)
      && c.requestActive == |c.active| + |c.deferred|
  {
    RunIsStable(OPENED, steps);
    var c := RunOf(OPENED, steps);
    assert InOrder(c.messages[i]);
    assert i in c.scheduled <==> IsAt(c, i, Deferred) || IsAt(c, i, Gone);
  }
}
