/** Whole runs of the Thrift automaton: termination, cost, and resumption at any octet. */
module ThriftRun {
  import opened Bytes
  import opened ThriftProtocol
  import opened ThriftMachine

  datatype RunResult = Finished(m: Machine, rest: Octets) | Suspended(m: Machine, rest: Octets) | Crashed

  /** `run`: steps until the message is done, the input is short, or a handler throws. */
  function Run(p: Protocol, m: Machine, b: Octets): (r: RunResult)
    requires Lawful(p) && Valid(m)
    ensures r.Finished? ==> r.m.state == Done && Valid(r.m)
    ensures r.Suspended? ==> r.m.state != Done && Valid(r.m) && Step(p, r.m, r.rest).Waits?
    ensures !r.Crashed? ==> |r.rest| <= |b|
    decreases 4 * |b| + Potential(m)
  {
    if m.state == Done then Finished(m, b)
    else
      match Step(p, m, b)
      case Waits => Suspended(m, b)
      case Fails => Crashed
      case Moved(m1, b1) =>
        StepIsValid(p, m, b);
        StepCost(p, m, b);
        Run(p, m1, b1)
  }

  /** How many times `run` changes state. */
  function StepCount(p: Protocol, m: Machine, b: Octets): nat
    requires Lawful(p) && Valid(m)
    decreases 4 * |b| + Potential(m)
  {
    if m.state == Done || !Step(p, m, b).Moved? then 0
    else
      StepIsValid(p, m, b);
      StepCost(p, m, b);
      1 + StepCount(p, Step(p, m, b).m, Step(p, m, b).rest)
  }

  /** What is left of the input where stepping stops: at the end, at a wait, or at an exception. */
  function Left(p: Protocol, m: Machine, b: Octets): (rest: Octets)
    requires Lawful(p) && Valid(m)
    ensures |rest| <= |b|
    ensures !Run(p, m, b).Crashed? ==> rest == Run(p, m, b).rest
    decreases 4 * |b| + Potential(m)
  {
    if m.state == Done || !Step(p, m, b).Moved? then b
    else
      StepIsValid(p, m, b);
      StepCost(p, m, b);
      Left(p, Step(p, m, b).m, Step(p, m, b).rest)
  }

  function Consumed(p: Protocol, m: Machine, b: Octets): nat
    requires Lawful(p) && Valid(m)
  {
    |b| - |Left(p, m, b)|
  }

  /** A run, even one that throws, makes at most four state changes for each octet it consumes,
      beyond the potential it starts with; the initial machine has none. */
  lemma {:induction false} RunCost(p: Protocol, m: Machine, b: Octets)
    requires Lawful(p) && Valid(m)
    ensures StepCount(p, m, b) <= Potential(m) + 4 * Consumed(p, m, b)
    decreases 4 * |b| + Potential(m)
  {
    if m.state != Done && Step(p, m, b).Moved? {
      StepIsValid(p, m, b);
      StepCost(p, m, b);
      RunCost(p, Step(p, m, b).m, Step(p, m, b).rest);
    }
  }

  lemma DecodingCost(p: Protocol, b: Octets)
    requires Lawful(p)
    ensures StepCount(p, INITIAL, b) <= 4 * Consumed(p, INITIAL, b)
  {
    RunCost(p, INITIAL, b);
  }

  /** The greatest height of the machines a run passes through. */
  function Peak(p: Protocol, m: Machine, b: Octets): (h: nat)
    requires Lawful(p) && Valid(m)
    ensures Height(m) <= h
    ensures !Run(p, m, b).Crashed? ==> Height(Run(p, m, b).m) <= h
    decreases 4 * |b| + Potential(m)
  {
    if m.state == Done || !Step(p, m, b).Moved? then Height(m)
    else
      StepIsValid(p, m, b);
      StepCost(p, m, b);
      var later := Peak(p, Step(p, m, b).m, Step(p, m, b).rest);
      if later < Height(m) then Height(m) else later
  }

  /** At no time, whether or not the run throws, does the stack hold more than two frames for each
      octet consumed beyond what it started with. */
  lemma {:induction false} RunHeight(p: Protocol, m: Machine, b: Octets)
    requires Lawful(p) && Valid(m)
    ensures Peak(p, m, b) <= Height(m) + 2 * Consumed(p, m, b)
    decreases 4 * |b| + Potential(m)
  {
    if m.state != Done && Step(p, m, b).Moved? {
      StepIsValid(p, m, b);
      StepCost(p, m, b);
      StepHeight(p, m, b);
      RunHeight(p, Step(p, m, b).m, Step(p, m, b).rest);
    }
  }

  // Resumption.

  /** What a run makes of input that arrives behind the octets it has already seen. */
  function Continue(p: Protocol, r: RunResult, s: Octets): RunResult
    requires Lawful(p) && (r.Crashed? || Valid(r.m))
  {
    if r.Crashed? then Crashed else Run(p, r.m, r.rest + s)
  }

  /** Suspending and resuming is the same as having had all the input at once: same state, stack,
      output and leftover, and the same exceptions. */
  lemma {:induction false} RunResumes(p: Protocol, m: Machine, b: Octets, s: Octets)
    requires Lawful(p) && Valid(m)
    ensures Run(p, m, b + s) == Continue(p, Run(p, m, b), s)
    decreases 4 * |b| + Potential(m)
  {
    if m.state != Done && !Step(p, m, b).Waits? {
      StepIsStable(p, m, b, s);
      if Step(p, m, b).Moved? {
        StepIsValid(p, m, b);
        StepCost(p, m, b);
        RunResumes(p, Step(p, m, b).m, Step(p, m, b).rest, s);
      }
    }
  }

  /** Running after each chunk on whatever is buffered by then. */
  function Feed(p: Protocol, r: RunResult, chunks: seq<Octets>): (r': RunResult)
    requires Lawful(p) && (r.Crashed? || Valid(r.m))
    decreases |chunks|
  {
    if chunks == [] then r else Feed(p, Continue(p, r, chunks[0]), chunks[1..])
  }

  lemma {:induction false} FeedIsContinue(p: Protocol, m: Machine, b: Octets, chunks: seq<Octets>)
    requires Lawful(p) && Valid(m)
    ensures Feed(p, Run(p, m, b), chunks) == Run(p, m, b + Join(chunks))
    decreases |chunks|
  {
    if chunks == [] {
      assert b + Join(chunks) == b;
    } else {
      RunResumes(p, m, b, chunks[0]);
      FeedIsContinue(p, m, b + chunks[0], chunks[1..]);
      Regroup2(b, chunks[0], Join(chunks[1..]));
    }
  }

  /** However the input is cut into pieces, the automaton ends as it does on the whole of it. */
  lemma ChunkingIsInvisible(p: Protocol, chunks: seq<Octets>)
    requires Lawful(p)
    ensures Feed(p, Run(p, INITIAL, []), chunks) == Run(p, INITIAL, Join(chunks))
  {
    FeedIsContinue(p, INITIAL, [], chunks);
    assert [] + Join(chunks) == Join(chunks);
  }
}
