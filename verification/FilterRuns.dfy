/** The discipline of the filter chain over whole runs: a filter is entered again only when it
    resumes with the origin message undrained, and then once for each time it does. */
module FilterRuns {
  import opened MessageLifecycle
  import opened MessageInvariant
  import opened MessageSteps
  import opened ConnectionLifecycle
  import opened LifecycleRuns

  /** How often the filter at `k` is entered again at once. */
  function Repeats(calls: seq<nat>, k: nat): nat {
    if |calls| <= 1 then 0
    else
      var last := calls[|calls| - 1];
      Repeats(calls[..|calls| - 1], k) + if last == k && calls[|calls| - 2] == k then 1 else 0
  }

  lemma RepeatsOneMore(calls: seq<nat>, x: nat, k: nat)
    requires calls != []
    ensures Repeats(calls + [x], k) == Repeats(calls, k) + if x == k && calls[|calls| - 1] == k then 1 else 0
  {
    assert (calls + [x])[..|calls|] == calls;
  }

  /** A row behind other calls repeats at most its first filter. */
  lemma {:induction false} RepeatsOfRow(calls: seq<nat>, from: nat, len: nat, k: nat)
    requires calls != [] && len > 0
    ensures
      Repeats(calls + Row(from, len), k) ==
      Repeats(calls, k) + if from == k && calls[|calls| - 1] == k then 1 else 0
    decreases len
  {
    RepeatsOneMore(calls, from, k);
    assert calls + Row(from, len) == calls + [from] + Row(from + 1, len - 1);
    if len > 1 {
      RepeatsOfRow(calls + [from], from + 1, len - 1, k);
    } else {
      assert calls + [from] + Row(from + 1, 0) == calls + [from];
    }
  }

  lemma RowRepeatsNone(len: nat, k: nat)
    ensures Repeats(Row(0, len), k) == 0
  {
    if len > 1 {
      RepeatsOfRow([0], 1, len - 1, k);
    }
  }

  lemma {:induction false} RowGrows(k: nat, len: nat)
    ensures Row(k, len + 1) == Row(k, len) + [k + len]
    decreases len
  {
    if len > 0 {
      RowGrows(k + 1, len - 1);
      assert [k] + (Row(k + 1, len - 1) + [k + len]) == [k] + Row(k + 1, len - 1) + [k + len];
    }
  }

  /** Calls in chain order without any repetition are the filters in a row. */
  lemma {:induction false} NoRepeatsIsRow(calls: seq<nat>, n: nat)
    requires InChainOrder(calls, n) && forall k: nat :: Repeats(calls, k) == 0
    ensures calls == Row(0, |calls|)
    decreases |calls|
  {
    if |calls| == 1 {
      assert calls == [0] && Row(0, 1) == [0];
    } else {
      var before, last := calls[..|calls| - 1], calls[|calls| - 1];
      assert Repeats(calls, last) == 0;
      forall k: nat
        ensures Repeats(before, k) == 0
      {
        assert Repeats(calls, k) == 0;
      }
      NoRepeatsIsRow(before, n);
      RowGrows(0, |before|);
      RowLast(|before|);
      assert calls == before + [last];
    }
  }

  lemma RowLast(len: nat)
    requires len > 0
    ensures Row(0, len)[len - 1] == len - 1
  {
    RowGrows(0, len - 1);
  }

  // Over runs.

  function RepeatsIn(c: Connection, i: nat, k: nat): nat {
    if i < |c.messages| then Repeats(c.messages[i].history.calls, k) else 0
  }

  /** The step resumes the filter at `k` of the message at `i`, which has not been answered and
      whose origin message is undrained. */
  predicate ResumesUndrained(c: Connection, s: Step, i: nat, k: nat) {
    && Resumes(s, i) && i < |c.messages|
    && c.messages[i].history.pause == PausedAt(k) && !c.messages[i].localSent && |c.messages[i].origin| > 0
  }

  /** How many steps of the run do so. */
  function Resumptions(c: Connection, steps: seq<Step>, i: nat, k: nat): nat
    requires Stable(c) && Permitted(c, steps)
    decreases |steps|
  {
    if steps == [] then 0
    else
      NextIsStable(c, steps[0]);
      (if ResumesUndrained(c, steps[0], i, k) then 1 else 0) + Resumptions(Next(c, steps[0]), steps[1..], i, k)
  }

  lemma ReentryRepeats(m: Message, m': Message, k: nat)
    requires Valid(m) && m.pending && m.history.pause.filter < m.request.filters && Reenters(m, m')
    ensures
      Repeats(m'.history.calls, k) ==
      Repeats(m.history.calls, k) + if m.history.pause == PausedAt(k) && |m.origin| > 0 then 1 else 0
  {
    var len: nat :| 0 < len <= m.request.filters + 1 - ResumeFrom(m) && GrewBy(m, m', len);
    RepeatsOfRow(m.history.calls, ResumeFrom(m), len, k);
  }

  lemma StepRepeats(c: Connection, s: Step, i: nat, k: nat)
    requires Stable(c) && Enabled(c, s.event)
    ensures RepeatsIn(Next(c, s), i, k) == RepeatsIn(c, i, k) + if ResumesUndrained(c, s, i, k) then 1 else 0
  {
    EventSteps(c, s);
    var r := Next(c, s);
    if i < |c.messages| {
      assert SteppedAt(c, r, s, i);
      if Resumes(s, i) && !c.messages[i].localSent {
        ReentryRepeats(c.messages[i], r.messages[i], k);
      }
    } else if i < |r.messages| {
      RowRepeatsNone(|r.messages[i].history.calls|, k);
    }
  }

  /** Over every run of stops and resumes, each filter of each request is entered again exactly as
      often as it resumes with the origin message undrained and no local reply sent. */
  lemma {:induction false} RepeatsAreResumptions(c: Connection, steps: seq<Step>, i: nat, k: nat)
    requires Stable(c) && Permitted(c, steps)
    ensures RepeatsIn(RunOf(c, steps), i, k) == RepeatsIn(c, i, k) + Resumptions(c, steps, i, k)
    decreases |steps|
  {
    if steps != [] {
      NextIsStable(c, steps[0]);
      StepRepeats(c, steps[0], i, k);
      RepeatsAreResumptions(Next(c, steps[0]), steps[1..], i, k);
    }
  }

  /** The filters of a request that never resumes undrained have run in a row, each once. */
  lemma NoResumptionNoRepeat(steps: seq<Step>, i: nat)
    requires Permitted(OPENED, steps) && i < |RunOf(OPENED, steps).messages|
    requires forall k: nat :: Resumptions(OPENED, steps, i, k) == 0
    ensures
      var calls := RunOf(OPENED, steps).messages[i].history.calls;
      calls == Row(0, |calls|)
  {
    RunIsStable(OPENED, steps);
    var m := RunOf(OPENED, steps).messages[i];
    assert InOrder(m);
    forall k: nat
      ensures Repeats(m.history.calls, k) == 0
    {
      RepeatsAreResumptions(OPENED, steps, i, k);
      assert Resumptions(OPENED, steps, i, k) == 0;
    }
    NoRepeatsIsRow(m.history.calls, m.request.filters);
  }

  /** An empty origin message has nothing to be drained: no filter of it is ever entered again. */
  lemma {:induction false} EmptyNeverRepeats(c: Connection, steps: seq<Step>, i: nat, k: nat)
    requires Stable(c) && Permitted(c, steps)
    requires i < |RunOf(c, steps).messages| && RunOf(c, steps).messages[i].request.payload == []
    ensures Resumptions(c, steps, i, k) == 0
    decreases |steps|
  {
    if steps != [] {
      NextIsStable(c, steps[0]);
      EmptyNeverRepeats(Next(c, steps[0]), steps[1..], i, k);
      if i < |c.messages| {
        RunKeepsRequest(c, steps, i);
      }
    }
  }

  lemma {:induction false} RunKeepsRequest(c: Connection, steps: seq<Step>, i: nat)
    requires Stable(c) && Permitted(c, steps) && i < |c.messages|
    ensures
      var r := RunOf(c, steps);
      i < |r.messages| && r.messages[i].request == c.messages[i].request
    decreases |steps|
  {
    if steps != [] {
      NextIsStable(c, steps[0]);
      EventSteps(c, steps[0]);
      assert SteppedAt(c, Next(c, steps[0]), steps[0], i);
      RunKeepsRequest(Next(c, steps[0]), steps[1..], i);
    }
  }

  lemma EmptyRunsInARow(steps: seq<Step>, i: nat)
    requires Permitted(OPENED, steps) && i < |RunOf(OPENED, steps).messages|
    requires RunOf(OPENED, steps).messages[i].request.payload == []
    ensures
      var calls := RunOf(OPENED, steps).messages[i].history.calls;
      calls == Row(0, |calls|)
  {
    forall k: nat
      ensures Resumptions(OPENED, steps, i, k) == 0
    {
      EmptyNeverRepeats(OPENED, steps, i, k);
    }
    NoResumptionNoRepeat(steps, i);
  }
}
