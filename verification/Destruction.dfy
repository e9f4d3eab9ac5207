/** Deletion over whole runs: a request is deleted at most once and left alone afterwards, so each
    filter of its chain is destroyed exactly once if it is deleted, and never otherwise. */
module Destruction {
  import opened MessageLifecycle
  import opened ConnectionLifecycle
  import opened LifecycleRuns
  import opened FilterChain

  predicate IsDeleted(c: Connection, i: nat) {
    i < |c.messages| && c.messages[i].place == Gone
  }

  /** A deleted request is never touched again. */
  lemma {:induction false} DeletedStays(c: Connection, steps: seq<Step>, i: nat)
    requires Stable(c) && Permitted(c, steps) && IsDeleted(c, i)
    ensures
      var r := RunOf(c, steps);
      i < |r.messages| && r.messages[i] == c.messages[i]
    decreases |steps|
  {
    if steps != [] {
      NextIsStable(c, steps[0]);
      EventSteps(c, steps[0]);
      assert SteppedAt(c, Next(c, steps[0]), steps[0], i);
      DeletedStays(Next(c, steps[0]), steps[1..], i);
    }
  }

  /** The step runs the destructor of the message at `i`. */
  predicate Deletes(c: Connection, s: Step, i: nat)
    requires Stable(c) && Enabled(c, s.event)
  {
    !IsDeleted(c, i) && IsDeleted(Next(c, s), i)
  }

  /** The onDestroy calls that the filters of the message at `i` get, its chain having been built by
      these registrations. */
  function DestroyCalls(c: Connection, steps: seq<Step>, i: nat, rs: seq<Registration>): seq<nat>
    requires Stable(c) && Permitted(c, steps)
    decreases |steps|
  {
    if steps == [] then []
    else
      NextIsStable(c, steps[0]);
      (if Deletes(c, steps[0], i) then OnDestroyCalls(rs) else []) + DestroyCalls(Next(c, steps[0]), steps[1..], i, rs)
  }

  function OnDestroyCalls(rs: seq<Registration>): seq<nat> {
    Destroyed(DecodersOf(rs), false) + Destroyed(EncodersOf(rs), true)
  }

  lemma {:induction false} DeletedIsNotDestroyed(c: Connection, steps: seq<Step>, i: nat, rs: seq<Registration>)
    requires Stable(c) && Permitted(c, steps) && IsDeleted(c, i)
    ensures DestroyCalls(c, steps, i, rs) == []
    decreases |steps|
  {
    if steps != [] {
      NextIsStable(c, steps[0]);
      StaysOneStep(c, steps[0], i);
      DeletedIsNotDestroyed(Next(c, steps[0]), steps[1..], i, rs);
    }
  }

  lemma StaysOneStep(c: Connection, s: Step, i: nat)
    requires Stable(c) && Enabled(c, s.event) && IsDeleted(c, i)
    ensures IsDeleted(Next(c, s), i)
  {
    EventSteps(c, s);
    assert SteppedAt(c, Next(c, s), s, i);
  }

  /** Over every run each filter of a request is destroyed as often as it was registered if the
      request is deleted in the run, a dual filter once, and not at all if it is not. */
  lemma {:induction false} EachFilterIsDestroyedOnce(c: Connection, steps: seq<Step>, i: nat, rs: seq<Registration>)
    requires Stable(c) && Permitted(c, steps) && !IsDeleted(c, i)
    ensures
      multiset(DestroyCalls(c, steps, i, rs)) ==
      if IsDeleted(RunOf(c, steps), i) then multiset(FiltersOf(rs)) else multiset{}
    decreases |steps|
  {
    if steps != [] {
      var next := Next(c, steps[0]);
      NextIsStable(c, steps[0]);
      if IsDeleted(next, i) {
        DeletedIsNotDestroyed(next, steps[1..], i, rs);
        DeletedStays(next, steps[1..], i);
        DestroysEachOnce(rs);
        assert OnDestroyCalls(rs) + [] == OnDestroyCalls(rs);
      } else {
        EachFilterIsDestroyedOnce(next, steps[1..], i, rs);
        var later := DestroyCalls(next, steps[1..], i, rs);
        assert [] + later == later;
      }
    }
  }
}
