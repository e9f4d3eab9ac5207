/** What arrives on a downstream connection. */
module ConnectionEvents {
  import opened Bytes
  import opened MessageLifecycle

  datatype Arrival = Arrival(request: Request, verdicts: Verdicts)

  /** What one dispatch decodes, and whether an exception ends it. */
  datatype Batch = Batch(arrivals: seq<Arrival>, broken: bool)

  function Fresh(a: Arrival): Message {
    NewMessage(a.request)
  }
}

/** A downstream connection and all its requests on values, after conn_manager.cc: the list of
    active messages, deferred deletion, and the events that drive them. */
module ConnectionLifecycle {
  import opened Bytes
  import opened Lists
  import opened MessageLifecycle
  import opened MessageInvariant
  import opened MessageSteps
  import opened ConnectionEvents

  /** `messages` holds every request ever decoded; `active` and `deferred` hold places in it, and
      `scheduled` every deletion ever scheduled. */
  datatype Connection = Connection(
    open: bool,
    messages: seq<Message>,
    active: seq<nat>,
    deferred: seq<nat>,
    scheduled: seq<nat>,
    requestActive: int,
    localResets: nat,
    remoteResets: nat)

  const OPENED := Connection(true, [], [], [], [], 0, 0, 0)

  predicate IsAt(c: Connection, i: nat, place: Place) {
    i < |c.messages| && c.messages[i].place == place
  }

  /** The lists agree with where each message says it is. */
  ghost predicate WellLinked(c: Connection) {
    && Distinct(c.active) && Distinct(c.deferred) && Distinct(c.scheduled)
    && (forall i: nat :: i in c.active <==> IsAt(c, i, Linked))
    && (forall i: nat :: i in c.deferred <==> IsAt(c, i, Deferred))
    && (forall i: nat :: i in c.scheduled <==> IsAt(c, i, Deferred) || IsAt(c, i, Gone))
    && c.requestActive == |c.active| + |c.deferred|
  }

  /** The message at `i` has moved on; deferredMessage unlinks it and schedules its deletion. */
  function Put(c: Connection, i: nat, m: Message): (r: Connection)
    requires WellLinked(c) && i < |c.messages| && Releasing(c.messages[i], m)
    ensures WellLinked(r) && r.messages == c.messages[i := m] && r.open == c.open
  {
    var c1 := c.(messages := c.messages[i := m]);
    if m.place == c.messages[i].place then c1
    else
      WithoutIsUnlinked(c.active, i);
      AppendedIsDistinct(c.deferred, i);
      AppendedIsDistinct(c.scheduled, i);
      c1.(active := Without(c.active, i), deferred := c.deferred + [i], scheduled := c.scheduled + [i])
  }

  // Decoding.

  /** newStream links a new message at the front. */
  function NewStream(c: Connection, a: Arrival): (r: Connection)
    requires WellLinked(c)
    ensures WellLinked(r) && r.messages == c.messages + [Fresh(a)]
    ensures r.active == [|c.messages|] + c.active && r.deferred == c.deferred
  {
    var i := |c.messages|;
    AppendedIsDistinct(c.active, i);
    c.(messages := c.messages + [Fresh(a)], active := [i] + c.active, requestActive := c.requestActive + 1)
  }

  function Decoded(a: Arrival, d: Downstream): (m: Message)
    ensures AsDecoded(m) && m.request == a.request
    ensures m.place == Linked <==> m.history.pause.PausedAt? || (!a.request.oneway && !m.localSent)
  {
    DecodedIsValid(a.request, a.verdicts, d);
    OnStreamDecoded(Fresh(a), a.verdicts, d)
  }

  function Arrive(c: Connection, a: Arrival, encodes: bool): (r: Connection)
    requires WellLinked(c)
    ensures WellLinked(r)
  {
    var i := |c.messages|;
    Put(NewStream(c, a), i, Decoded(a, Downstream(c.open, encodes)))
  }

  function ArriveAll(c: Connection, arrivals: seq<Arrival>, encodes: bool): (r: Connection)
    requires WellLinked(c)
    ensures WellLinked(r)
    decreases |arrivals|
  {
    if arrivals == [] then c else ArriveAll(Arrive(c, arrivals[0], encodes), arrivals[1..], encodes)
  }

  // Resetting.

  /** Left alone or released. */
  predicate Kept(m: Message, m': Message) {
    m' == m || m' == Defer(m)
  }

  function CountReset(c: Connection, local: bool): (r: Connection)
    requires WellLinked(c)
    ensures WellLinked(r)
  {
    if local then c.(localResets := c.localResets + 1) else c.(remoteResets := c.remoteResets + 1)
  }

  /** One turn of the loop in resetAllMessages: the message in front is counted and released. */
  function ResetFirst(c: Connection, local: bool): (r: Connection)
    requires WellLinked(c) && c.active != []
    ensures WellLinked(r) && r.active == c.active[1..] && r.deferred == c.deferred + [c.active[0]]
    ensures r.localResets == c.localResets + (if local then 1 else 0) && r.open == c.open
    ensures r.remoteResets == c.remoteResets + (if local then 0 else 1) && r.requestActive == c.requestActive
    ensures |r.messages| == |c.messages| && forall j :: 0 <= j < |c.messages| ==> Kept(c.messages[j], r.messages[j])
  {
    var i := c.active[0];
    assert i in c.active && IsAt(c, i, Linked);
    Put(CountReset(c, local), i, Defer(c.messages[i]))
  }

  /** resetAllMessages: until the list is empty. */
  function ResetAll(c: Connection, local: bool): (r: Connection)
    requires WellLinked(c)
    ensures WellLinked(r)
    decreases |c.active|
  {
    if c.active == [] then c else ResetAll(ResetFirst(c, local), local)
  }

  /** `dispatch`: an exception closes the connection, whose close event resets all messages before
      the dispatch does so itself. */
  function Dispatch(c: Connection, batch: Batch, encodes: bool): (r: Connection)
    requires WellLinked(c)
    ensures WellLinked(r)
  {
    var c1 := ArriveAll(c, batch.arrivals, encodes);
    if batch.broken then ResetAll(ResetAll(c1.(open := false), true), true) else c1
  }

  /** The destructor of the first message scheduled. */
  function DeleteFirst(c: Connection, d: Downstream): (r: Connection)
    requires WellLinked(c) && c.deferred != []
    ensures WellLinked(r) && r.deferred == c.deferred[1..]
  {
    var i := c.deferred[0];
    assert i in c.deferred && IsAt(c, i, Deferred);
    assert c.deferred == [i] + c.deferred[1..];
    var r := c.(messages := c.messages[i := Destroy(c.messages[i], d)], deferred := c.deferred[1..],
                requestActive := c.requestActive - 1);
    assert forall j: nat, place :: j != i ==> IsAt(r, j, place) == IsAt(c, j, place);
    r
  }

  /** The deferred deletions are carried out. */
  function DeleteAll(c: Connection, d: Downstream): (r: Connection)
    requires WellLinked(c)
    ensures WellLinked(r)
    decreases |c.deferred|
  {
    if c.deferred == [] then c else DeleteAll(DeleteFirst(c, d), d)
  }

  // Events.

  /** What the environment does, each with the dispatch that may run inside it. A filter that has
      stopped may also reply, or reset the stream, before it resumes. */
  datatype Event =
    | Data(batch: Batch)
    | FilterResumes(i: nat, verdicts: Verdicts, batch: Batch)
    | FilterReplies(i: nat)
    | FilterResets(i: nat)
    | PoolReady(i: nat, verdicts: Verdicts, batch: Batch)
    | PoolFailure(i: nat, verdicts: Verdicts, batch: Batch)
    | UpstreamResponse(i: nat, data: ResponseData, end: bool)
    | UpstreamClose(i: nat, remote: bool)
    | DownstreamClose(local: bool)
    | Tick

  /** An event, and whether the codec can encode an error at that time. */
  datatype Step = Step(event: Event, encodes: bool)

  predicate Lives(c: Connection, i: nat) {
    i < |c.messages| && c.messages[i].place != Gone
  }

  /** A pool request is under way. */
  predicate AwaitsPool(c: Connection, i: nat) {
    Lives(c, i) && c.messages[i].upstream.Upstream? && c.messages[i].upstream.request.handle
  }

  /** An upstream connection is attached, and its peer has not closed it. */
  predicate HearsUpstream(c: Connection, i: nat) {
    && Lives(c, i) && c.messages[i].upstream.Upstream? && c.messages[i].upstream.request.conn
    && !c.messages[i].history.peerClosed
  }

  /** A filter before the router has stopped. */
  predicate HasStopped(c: Connection, i: nat) {
    && Lives(c, i) && c.messages[i].history.pause.PausedAt?
    && c.messages[i].history.pause.filter < c.messages[i].request.filters
  }

  /** The contract of the environment: no data once the downstream is closed; only a filter that has
      stopped resumes, resets the stream or replies, and it replies once; one result for each pool
      request, none after it is cancelled; nothing from an upstream connection that is not attached,
      or after its close; nothing to a deleted message. */
  predicate Enabled(c: Connection, e: Event) {
    match e
    case Data(_) => c.open
    case FilterResumes(i, _, _) => HasStopped(c, i)
    case FilterReplies(i) => HasStopped(c, i) && !c.messages[i].localSent
    case FilterResets(i) => HasStopped(c, i)
    case PoolReady(i, _, _) => AwaitsPool(c, i)
    case PoolFailure(i, _, _) => AwaitsPool(c, i)
    case UpstreamResponse(i, _, _) => HearsUpstream(c, i)
    case UpstreamClose(i, _) => HearsUpstream(c, i)
    case DownstreamClose(_) => c.open
    case Tick => true
  }

  /** A request between two events, deleted or not. */
  predicate InOrder(m: Message) {
    if m.place == Gone then Sound(m) else Settled(m)
  }

  /** What holds of a connection between two events. */
  ghost predicate Stable(c: Connection) {
    && WellLinked(c)
    && (forall i :: 0 <= i < |c.messages| ==> InOrder(c.messages[i]))
  }

  // What a dispatch or a reset does to the requests.

  /** The requests there were are kept, and new ones are as decoding leaves them. */
  predicate Follows(c: Connection, r: Connection) {
    && |c.messages| <= |r.messages|
    && (forall i :: 0 <= i < |c.messages| ==> Kept(c.messages[i], r.messages[i]))
    && (forall i :: |c.messages| <= i < |r.messages| ==> AsDecoded(r.messages[i]))
  }

  lemma FollowsIsTransitive(a: Connection, b: Connection, c: Connection)
    requires Follows(a, b) && Follows(b, c)
    ensures Follows(a, c)
  {
    forall i | |a.messages| <= i < |c.messages|
      ensures AsDecoded(c.messages[i])
    {
      if i < |b.messages| {
        assert Kept(b.messages[i], c.messages[i]);
        DeferKeeps(b.messages[i]);
      }
    }
  }

  lemma {:induction false} ArriveAllFollows(c: Connection, arrivals: seq<Arrival>, encodes: bool)
    requires WellLinked(c)
    ensures Follows(c, ArriveAll(c, arrivals, encodes))
    decreases |arrivals|
  {
    if arrivals != [] {
      ArriveAllFollows(Arrive(c, arrivals[0], encodes), arrivals[1..], encodes);
      FollowsIsTransitive(c, Arrive(c, arrivals[0], encodes), ArriveAll(c, arrivals, encodes));
    }
  }

  lemma {:induction false} ResetAllFollows(c: Connection, local: bool)
    requires WellLinked(c)
    ensures Follows(c, ResetAll(c, local))
    decreases |c.active|
  {
    if c.active != [] {
      var c1 := ResetFirst(c, local);
      ResetAllFollows(c1, local);
      FollowsIsTransitive(c, c1, ResetAll(c, local));
    }
  }

  lemma DispatchFollows(c: Connection, batch: Batch, encodes: bool)
    requires WellLinked(c)
    ensures Follows(c, Dispatch(c, batch, encodes))
  {
    var c1 := ArriveAll(c, batch.arrivals, encodes);
    ArriveAllFollows(c, batch.arrivals, encodes);
    if batch.broken {
      var c2 := ResetAll(c1.(open := false), true);
      ResetAllFollows(c1.(open := false), true);
      ResetAllFollows(c2, true);
      FollowsIsTransitive(c, c1, c2);
      FollowsIsTransitive(c, c2, ResetAll(c2, true));
    }
  }

  // And exactly what it does to them.

  function DecodedAll(arrivals: seq<Arrival>, d: Downstream): seq<Message> {
    seq(|arrivals|, i requires 0 <= i < |arrivals| => Decoded(arrivals[i], d))
  }

  function DeferAll(messages: seq<Message>): seq<Message> {
    seq(|messages|, i requires 0 <= i < |messages| => Defer(messages[i]))
  }

  lemma {:induction false} ArriveAllAdds(c: Connection, arrivals: seq<Arrival>, encodes: bool)
    requires WellLinked(c)
    ensures
      var r := ArriveAll(c, arrivals, encodes);
      && r.messages == c.messages + DecodedAll(arrivals, Downstream(c.open, encodes)) && r.open == c.open
      && r.localResets == c.localResets && r.remoteResets == c.remoteResets
    decreases |arrivals|
  {
    var d := Downstream(c.open, encodes);
    if arrivals == [] {
      assert c.messages + DecodedAll(arrivals, d) == c.messages;
    } else {
      var c1 := Arrive(c, arrivals[0], encodes);
      assert c1.messages == c.messages + [Decoded(arrivals[0], d)];
      ArriveAllAdds(c1, arrivals[1..], encodes);
      OneArrivalMore(c.messages, arrivals, d);
    }
  }

  lemma OneArrivalMore(before: seq<Message>, arrivals: seq<Arrival>, d: Downstream)
    requires arrivals != []
    ensures
      before + [Decoded(arrivals[0], d)] + DecodedAll(arrivals[1..], d) == before + DecodedAll(arrivals, d)
  {
  }

  lemma {:induction false} ResetAllDefers(c: Connection, local: bool)
    requires WellLinked(c)
    ensures ResetAll(c, local).messages == DeferAll(c.messages)
    decreases |c.active|
  {
    if c.active == [] {
      NoneLinked(c);
    } else {
      var c1 := ResetFirst(c, local);
      ResetAllDefers(c1, local);
      DefersOnce(c.messages, c1.messages);
    }
  }

  lemma NoneLinked(c: Connection)
    requires WellLinked(c) && c.active == []
    ensures DeferAll(c.messages) == c.messages
  {
    forall i | 0 <= i < |c.messages|
      ensures c.messages[i].place != Linked
    {
      assert i in c.active <==> IsAt(c, i, Linked);
    }
  }

  lemma DefersOnce(before: seq<Message>, after: seq<Message>)
    requires |before| == |after| && forall i :: 0 <= i < |before| ==> Kept(before[i], after[i])
    ensures DeferAll(after) == DeferAll(before)
  {
    forall i | 0 <= i < |before|
      ensures Defer(after[i]) == Defer(before[i])
    {
      assert Kept(before[i], after[i]);
    }
  }

  /** The new requests stand behind the old ones, which are as they were; unless it breaks: then the
      connection is closed and every request is released. */
  lemma DispatchDoes(c: Connection, batch: Batch, encodes: bool)
    requires WellLinked(c)
    ensures
      var r, all := Dispatch(c, batch, encodes), c.messages + DecodedAll(batch.arrivals, Downstream(c.open, encodes));
      && r.messages == (if batch.broken then DeferAll(all) else all)
      && r.open == (c.open && !batch.broken)
      && (batch.broken ==> r.active == [])
      && r.remoteResets == c.remoteResets
      && r.localResets == c.localResets + (if batch.broken then |ArriveAll(c, batch.arrivals, encodes).active| else 0)
  {
    ArriveAllAdds(c, batch.arrivals, encodes);
    if batch.broken {
      ResetTwice(ArriveAll(c, batch.arrivals, encodes).(open := false));
    }
  }

  /** The second reset finds nothing to do. */
  lemma ResetTwice(c: Connection)
    requires WellLinked(c)
    ensures
      var r := ResetAll(ResetAll(c, true), true);
      && r.messages == DeferAll(c.messages) && r.open == c.open && r.active == []
      && r.localResets == c.localResets + |c.active| && r.remoteResets == c.remoteResets
  {
    ResetAllDefers(c, true);
    ResetAllEnds(c, true);
    assert ResetAll(ResetAll(c, true), true) == ResetAll(c, true);
  }

  /** The list is empty; all that was on it is scheduled from front to back, and each message is
      counted once, on one of the two counters. */
  predicate AllReset(c: Connection, r: Connection, local: bool) {
    && r.active == []
    && r.deferred == c.deferred + c.active
    && r.localResets == c.localResets + (if local then |c.active| else 0)
    && r.remoteResets == c.remoteResets + (if local then 0 else |c.active|)
    && r.requestActive == c.requestActive && r.open == c.open
  }

  lemma OneMoreReset(c: Connection, r: Connection, local: bool)
    requires WellLinked(c) && c.active != [] && AllReset(ResetFirst(c, local), r, local)
    ensures AllReset(c, r, local)
  {
    assert c.deferred + [c.active[0]] + c.active[1..] == c.deferred + c.active;
  }

  lemma {:induction false} ResetAllEnds(c: Connection, local: bool)
    requires WellLinked(c)
    ensures AllReset(c, ResetAll(c, local), local)
    decreases |c.active|
  {
    if c.active == [] {
      assert c.deferred + c.active == c.deferred;
    } else {
      ResetAllEnds(ResetFirst(c, local), local);
      OneMoreReset(c, ResetAll(c, local), local);
    }
  }
}
