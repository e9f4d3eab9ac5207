/** Who is scheduled for deletion, and when: over whole runs a request leaves the list of active
    messages exactly at the steps that end it. */
module ReleaseRuns {
  import opened MessageLifecycle
  import opened MessageInvariant
  import opened MessageSteps
  import opened ConnectionEvents
  import opened ConnectionLifecycle
  import opened LifecycleRuns

  /** The dispatch inside the step has broken the connection, or the client has closed it; a filter
      that resumes brings a dispatch about only if its chain gets through. */
  predicate Breaks(s: Step, r: Connection) {
    match s.event
    case Data(batch) => batch.broken
    case FilterResumes(i, _, batch) => batch.broken && i < |r.messages| && r.messages[i].history.pause.NotPaused?
    case PoolReady(_, _, batch) => batch.broken
    case PoolFailure(_, _, batch) => batch.broken
    case DownstreamClose(_) => true
    case _ => false
  }

  /** A filter of the request resets the stream, or a response to it is whole or malformed. */
  predicate Ends(s: Step, i: nat) {
    match s.event
    case FilterResets(j) => j == i
    case UpstreamResponse(j, data, _) => j == i && !data.Partial?
    case _ => false
  }

  /** The chain of the request at `i` has got through in this step, and nothing is due to the client. */
  predicate DismissesAt(c: Connection, r: Connection, i: nat)
    requires i < |r.messages|
  {
    && (i < |c.messages| ==> c.messages[i].history.pause.PausedAt?)
    && r.messages[i].history.pause.NotPaused?
    && (r.messages[i].request.oneway || r.messages[i].localSent)
  }

  /** The step from `c` to `r` releases the request at `i`. */
  predicate Releases(c: Connection, s: Step, r: Connection, i: nat)
    requires i < |r.messages|
  {
    Breaks(s, r) || Ends(s, i) || DismissesAt(c, r, i)
  }

  predicate IsLinked(c: Connection, i: nat) {
    IsAt(c, i, Linked)
  }

  /** Linked before, or new, and not released. */
  predicate LinkedRight(c: Connection, s: Step, r: Connection, i: nat)
    requires i < |r.messages|
  {
    IsLinked(r, i) <==> (i < |c.messages| ==> IsLinked(c, i)) && !Releases(c, s, r, i)
  }

  /** What holds of every step: every request is linked as it should be; the connection stays open
      unless the step breaks it, and then nothing is left on the list. */
  ghost predicate StepRight(c: Connection, s: Step, r: Connection) {
    && (forall j :: 0 <= j < |r.messages| ==> LinkedRight(c, s, r, j))
    && r.open == (c.open && !Breaks(s, r))
    && (Breaks(s, r) ==> r.active == [])
  }

  // One request.

  /** What becomes of the request that an event is about. */
  predicate Fate(m: Message, m1: Message, ended: bool) {
    && m1.request == m.request && MessageInvariant.Releasing(m, m1)
    && (m1.place == Linked <==> m.place == Linked && !ended && !Dismisses(m, m1))
  }

  lemma ResumeFate(m: Message, v: Verdicts, d: Downstream)
    requires MessageInvariant.Valid(m) && m.history.pause.PausedAt? && m.history.pause.filter < m.request.filters
    ensures
      var a := ContinueDecoding(m, m.history.pause.filter, v, d);
      Fate(m, a.m, false) && (a.status == Continue <==> a.m.history.pause.NotPaused?)
  {
    ResumeKeeps(m, m.history.pause.filter, v, d);
  }

  lemma ReadyFate(m: Message, v: Verdicts, d: Downstream)
    requires MessageInvariant.Valid(m) && m.upstream.Upstream? && m.upstream.request.handle
    ensures Fate(m, OnPoolReady(m, v, d).m, false)
  {
    ReadyKeeps(m, v, d);
  }

  lemma FailureFate(m: Message, v: Verdicts, d: Downstream)
    requires MessageInvariant.Valid(m) && m.upstream.Upstream? && m.upstream.request.handle
    ensures Fate(m, OnPoolFailure(m, v, d).m, false)
  {
    FailureKeeps(m, v, d);
  }

  // One step.

  /** The message at `i` has become `m`, and the connection may have dispatched. */
  lemma ActedDoes(c: Connection, i: nat, m: Message, dispatches: bool, batch: Batch, encodes: bool)
    requires WellLinked(c) && i < |c.messages| && MessageInvariant.Releasing(c.messages[i], m)
    ensures
      var r, arrivals := Acted(c, i, m, dispatches, batch, encodes), if dispatches then batch.arrivals else [];
      var all := c.messages[i := m] + DecodedAll(arrivals, Downstream(c.open, encodes));
      && r.messages == (if dispatches && batch.broken then DeferAll(all) else all)
      && r.open == (c.open && !(dispatches && batch.broken))
      && (dispatches && batch.broken ==> r.active == [])
  {
    if dispatches {
      DispatchDoes(Put(c, i, m), batch, encodes);
    } else {
      assert c.messages[i := m] + DecodedAll([], Downstream(c.open, encodes)) == c.messages[i := m];
    }
  }

  /** Every request has come through the event, and the dispatch releases all of them or none. */
  lemma DispatchedRight(
      c: Connection, s: Step, r: Connection, before: seq<Message>, arrivals: seq<Arrival>, d: Downstream)
    requires |before| == |c.messages|
    requires
      var all := before + DecodedAll(arrivals, d);
      r.messages == if Breaks(s, r) then DeferAll(all) else all
    requires forall j :: 0 <= j < |before| ==> Fate(c.messages[j], before[j], Ends(s, j))
    requires forall j: nat :: j >= |c.messages| ==> !Ends(s, j)
    ensures forall j :: 0 <= j < |r.messages| ==> LinkedRight(c, s, r, j)
  {
    forall j | 0 <= j < |r.messages|
      ensures LinkedRight(c, s, r, j)
    {
      if j < |before| {
        assert Fate(c.messages[j], before[j], Ends(s, j));
      } else if !Breaks(s, r) {
        assert r.messages[j] == Decoded(arrivals[j - |before|], d);
      }
    }
  }

  lemma ActedRight(c: Connection, s: Step, i: nat, m: Message, dispatches: bool, batch: Batch)
    requires WellLinked(c) && i < |c.messages| && Fate(c.messages[i], m, false)
    requires forall j: nat :: !Ends(s, j)
    requires Breaks(s, Acted(c, i, m, dispatches, batch, s.encodes)) <==> dispatches && batch.broken
    ensures StepRight(c, s, Acted(c, i, m, dispatches, batch, s.encodes))
  {
    var r, d := Acted(c, i, m, dispatches, batch, s.encodes), Downstream(c.open, s.encodes);
    ActedDoes(c, i, m, dispatches, batch, s.encodes);
    DispatchedRight(c, s, r, c.messages[i := m], if dispatches then batch.arrivals else [], d);
  }

  lemma ResumedRight(c: Connection, s: Step)
    requires Stable(c) && Enabled(c, s.event) && s.event.FilterResumes?
    ensures StepRight(c, s, Next(c, s))
  {
    var i, d, batch := s.event.i, Downstream(c.open, s.encodes), s.event.batch;
    var m := c.messages[i];
    ResumeFate(m, s.event.verdicts, d);
    var a := ContinueDecoding(m, m.history.pause.filter, s.event.verdicts, d);
    ActedDoes(c, i, a.m, a.status == Continue, batch, s.encodes);
    ActedRight(c, s, i, a.m, a.status == Continue, batch);
  }

  lemma RefusedRight(c: Connection, s: Step)
    requires Stable(c) && Enabled(c, s.event) && s.event.PoolFailure?
    ensures StepRight(c, s, Next(c, s))
  {
    var i, d := s.event.i, Downstream(c.open, s.encodes);
    FailureFate(c.messages[i], s.event.verdicts, d);
    FailureKeeps(c.messages[i], s.event.verdicts, d);
    ActedRight(c, s, i, OnPoolFailure(c.messages[i], s.event.verdicts, d).m, true, s.event.batch);
  }

  lemma ConnectedRight(c: Connection, s: Step)
    requires Stable(c) && Enabled(c, s.event) && s.event.PoolReady?
    ensures StepRight(c, s, Next(c, s))
  {
    var i, d := s.event.i, Downstream(c.open, s.encodes);
    var a := OnPoolReady(c.messages[i], s.event.verdicts, d);
    ReadyFate(c.messages[i], s.event.verdicts, d);
    ReadyKeeps(c.messages[i], s.event.verdicts, d);
    ActedRight(c, s, i, a.m, true, s.event.batch);
    var c1 := Acted(c, i, a.m, true, s.event.batch, s.encodes);
    ActedFollows(c, i, a.m, true, s.event.batch, s.encodes);
    assert Kept(a.m, c1.messages[i]);
    CompletedRight(c, s, c1, i);
    assert Next(c, s) == Completed(c1, i);
  }

  /** The write at the end of onPoolReady links and unlinks nothing. */
  lemma CompletedRight(c: Connection, s: Step, c1: Connection, i: nat)
    requires WellLinked(c1) && i < |c.messages| <= |c1.messages| && s.event.PoolReady?
    requires AboutToSend(c1.messages[i]) && StepRight(c, s, c1)
    ensures StepRight(c, s, Completed(c1, i))
  {
    CompleteKeeps(c1.messages[i]);
    var r := Completed(c1, i);
    forall j | 0 <= j < |r.messages|
      ensures LinkedRight(c, s, r, j)
    {
      assert LinkedRight(c, s, c1, j);
    }
  }

  /** Nothing happens to any request but the one at `i`. */
  lemma PutRight(c: Connection, s: Step, i: nat, m: Message)
    requires WellLinked(c) && i < |c.messages| && Fate(c.messages[i], m, Ends(s, i))
    requires !Breaks(s, Put(c, i, m)) && forall j: nat :: j != i ==> !Ends(s, j)
    ensures StepRight(c, s, Put(c, i, m))
  {
  }

  lemma TickRight(c: Connection, s: Step)
    requires Stable(c) && s.event.Tick?
    ensures StepRight(c, s, Next(c, s))
  {
    var d := Downstream(c.open, s.encodes);
    DeleteAllDeletes(c, d);
    DeletingKeepsOpen(c, d);
    forall j | 0 <= j < |c.messages|
      ensures LinkedRight(c, s, Next(c, s), j)
    {
      assert Expired(c.messages[j], Next(c, s).messages[j], d);
      if c.messages[j].place == Deferred {
        DestroyKeeps(c.messages[j], d);
      }
    }
  }

  lemma {:induction false} DeletingKeepsOpen(c: Connection, d: Downstream)
    requires WellLinked(c)
    ensures DeleteAll(c, d).open == c.open
    decreases |c.deferred|
  {
    if c.deferred != [] {
      DeletingKeepsOpen(DeleteFirst(c, d), d);
    }
  }

  lemma DataRight(c: Connection, s: Step)
    requires Stable(c) && Enabled(c, s.event) && s.event.Data?
    ensures StepRight(c, s, Next(c, s))
  {
    DispatchDoes(c, s.event.batch, s.encodes);
    DispatchedRight(c, s, Next(c, s), c.messages, s.event.batch.arrivals, Downstream(c.open, s.encodes));
  }

  lemma ClosedRight(c: Connection, s: Step)
    requires Stable(c) && Enabled(c, s.event) && s.event.DownstreamClose?
    ensures StepRight(c, s, Next(c, s))
    ensures AllReset(c.(open := false), Next(c, s), s.event.local)
  {
    ResetAllDefers(c.(open := false), s.event.local);
    ResetAllEnds(c.(open := false), s.event.local);
  }

  lemma RespondedRight(c: Connection, s: Step)
    requires Stable(c) && Enabled(c, s.event) && s.event.UpstreamResponse?
    ensures StepRight(c, s, Next(c, s))
  {
    var i, d := s.event.i, Downstream(c.open, s.encodes);
    DataKeeps(c.messages[i], s.event.data, s.event.end, d);
    PutRight(c, s, i, OnUpstreamData(c.messages[i], s.event.data, s.event.end, d));
  }

  lemma DisconnectedRight(c: Connection, s: Step)
    requires Stable(c) && Enabled(c, s.event) && s.event.UpstreamClose?
    ensures StepRight(c, s, Next(c, s))
  {
    var i, d := s.event.i, Downstream(c.open, s.encodes);
    CloseKeeps(c.messages[i], s.event.remote, d);
    PutRight(c, s, i, OnUpstreamClose(c.messages[i], s.event.remote, d));
  }

  lemma RepliedRight(c: Connection, s: Step)
    requires Stable(c) && Enabled(c, s.event) && s.event.FilterReplies?
    ensures StepRight(c, s, Next(c, s))
  {
    var i, d := s.event.i, Downstream(c.open, s.encodes);
    LateReplyKeeps(c.messages[i], d);
    PutRight(c, s, i, SendLocalReply(c.messages[i], d));
  }

  /** What one event does to every request there is after it: it is linked if and only if it was, or
      is new, and the event does not release it. The connection stays open unless the event breaks
      it, and then nothing is left on the list. */
  lemma StepReleases(c: Connection, s: Step)
    requires Stable(c) && Enabled(c, s.event)
    ensures StepRight(c, s, Next(c, s))
  {
    match s.event
    case Data(_) => DataRight(c, s);
    case FilterResumes(_, _, _) => ResumedRight(c, s);
    case FilterReplies(_) => RepliedRight(c, s);
    case FilterResets(i) => PutRight(c, s, i, Defer(c.messages[i]));
    case PoolReady(_, _, _) => ConnectedRight(c, s);
    case PoolFailure(_, _, _) => RefusedRight(c, s);
    case UpstreamResponse(_, _, _) => RespondedRight(c, s);
    case UpstreamClose(_, _) => DisconnectedRight(c, s);
    case DownstreamClose(_) => ClosedRight(c, s);
    case Tick => TickRight(c, s);
  }

  // Runs.

  /** Some step of the run releases the request at `i`. */
  predicate Released(c: Connection, steps: seq<Step>, i: nat)
    requires Stable(c) && Permitted(c, steps)
    decreases |steps|
  {
    if steps == [] then false
    else
      NextIsStable(c, steps[0]);
      var r := Next(c, steps[0]);
      (i < |r.messages| && Releases(c, steps[0], r, i)) || Released(r, steps[1..], i)
  }

  /** Over every run a request is linked at the end exactly if it was, or has arrived since, and no
      step has released it. */
  lemma {:induction false} LinkedExactly(c: Connection, steps: seq<Step>, i: nat)
    requires Stable(c) && Permitted(c, steps) && i < |RunOf(c, steps).messages|
    ensures
      IsLinked(RunOf(c, steps), i) <==> (i < |c.messages| ==> IsLinked(c, i)) && !Released(c, steps, i)
    decreases |steps|
  {
    if steps != [] {
      var r := Next(c, steps[0]);
      NextIsStable(c, steps[0]);
      StepReleases(c, steps[0]);
      EventSteps(c, steps[0]);
      LinkedExactly(r, steps[1..], i);
      if i < |r.messages| {
        assert LinkedRight(c, steps[0], r, i);
      }
    }
  }

  /** Over every run of a fresh connection a request has been scheduled for deletion if and only if
      some step broke or closed the connection, reset its stream, brought it a whole or malformed
      response, or got its chain through when it was one-way or answered locally. */
  lemma ScheduledExactly(steps: seq<Step>, i: nat)
    requires Permitted(OPENED, steps) && i < |RunOf(OPENED, steps).messages|
    ensures i in RunOf(OPENED, steps).scheduled <==> Released(OPENED, steps, i)
  {
    RunIsStable(OPENED, steps);
    LinkedExactly(OPENED, steps, i);
    var c := RunOf(OPENED, steps);
    assert i in c.scheduled <==> IsAt(c, i, Deferred) || IsAt(c, i, Gone);
  }

  /** In particular a two-way request is never given up on its own: while nothing resets it, answers
      it locally or ends its response, and the connection stays whole, it is linked. */
  lemma {:induction false} AwaitedStaysLinked(c: Connection, steps: seq<Step>, i: nat)
    requires Stable(c) && Permitted(c, steps) && IsLinked(c, i) && !c.messages[i].request.oneway
    requires Undisturbed(steps, i) && NeverReplied(RunOf(c, steps), i)
    ensures IsLinked(RunOf(c, steps), i)
    decreases |steps|
  {
    if steps != [] {
      var r := Next(c, steps[0]);
      NextIsStable(c, steps[0]);
      StepReleases(c, steps[0]);
      EventSteps(c, steps[0]);
      assert LinkedRight(c, steps[0], r, i) && SteppedAt(c, r, steps[0], i);
      LocalReplyIsKept(r, steps[1..], i);
      AwaitedStaysLinked(r, steps[1..], i);
    }
  }

  predicate NeverReplied(c: Connection, i: nat) {
    i < |c.messages| && !c.messages[i].localSent
  }

  /** No step closes or breaks the connection, resets the stream of the request at `i` or ends its
      response. */
  predicate Undisturbed(steps: seq<Step>, i: nat) {
    forall k :: 0 <= k < |steps| ==> !MayBreak(steps[k].event) && !Ends(steps[k], i)
  }

  predicate MayBreak(e: Event) {
    match e
    case Data(batch) => batch.broken
    case FilterResumes(_, _, batch) => batch.broken
    case PoolReady(_, _, batch) => batch.broken
    case PoolFailure(_, _, batch) => batch.broken
    case DownstreamClose(_) => true
    case _ => false
  }

  /** Once noted, a local reply stays noted. */
  lemma {:induction false} LocalReplyIsKept(c: Connection, steps: seq<Step>, i: nat)
    requires Stable(c) && Permitted(c, steps) && i < |c.messages|
    ensures
      var r := RunOf(c, steps);
      i < |r.messages| && (c.messages[i].localSent ==> r.messages[i].localSent)
    decreases |steps|
  {
    if steps != [] {
      NextIsStable(c, steps[0]);
      EventSteps(c, steps[0]);
      assert SteppedAt(c, Next(c, steps[0]), steps[0], i);
      LocalReplyIsKept(Next(c, steps[0]), steps[1..], i);
    }
  }
}
