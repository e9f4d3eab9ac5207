/** ConnectionManager, ActiveMessage, Router and UpstreamRequest in their own form: objects that call
    each other back, each method proved to do to a request what the functions on values say. What
    other parties do in the middle of a call comes as a parameter: the verdicts of the filters, the
    batch that a dispatch inside the call decodes, and whether the codec can encode an error. */
module LifecycleObjects {
  import opened Bytes
  import opened Lists
  import opened ConnectionEvents
  import Spec = MessageLifecycle
  import Invariant = MessageInvariant
  import Steps = MessageSteps

  class ConnectionManager {
    var open: bool
    var active: seq<ActiveMessage>
    var deferred: seq<ActiveMessage>
    var requestActive: int
    var localResets: nat
    var remoteResets: nat

    ghost predicate Valid()
      reads this
    {
      && Distinct(active) && Distinct(deferred)
      && (forall m :: m in active ==> m !in deferred && m.parent == this)
      && (forall m :: m in deferred ==> m.parent == this)
      && requestActive == |active| + |deferred|
    }

    function PlaceOf(m: ActiveMessage): Spec.Place
      reads this
    {
      if m in active then Spec.Linked else if m in deferred then Spec.Deferred else Spec.Gone
    }

    /** Nothing has changed but that `m` may have been released. */
    twostate predicate Releases(m: ActiveMessage)
      reads this
    {
      && open == old(open) && requestActive == old(requestActive)
      && localResets == old(localResets) && remoteResets == old(remoteResets)
      && ((active == old(active) && deferred == old(deferred)) ||
          (m in old(active) && active == Without(old(active), m) && deferred == old(deferred) + [m]))
    }

    /** The connection has made a message of each arrival, and is closed if the batch breaks. */
    twostate predicate HasDispatched(batch: Batch)
      reads this
    {
      && requestActive == old(requestActive) + |batch.arrivals|
      && open == (old(open) && !batch.broken)
      && (batch.broken ==> active == [])
    }

    constructor ()
      ensures Valid() && open && active == [] && deferred == [] && localResets == 0 && remoteResets == 0
    {
      open, active, deferred, requestActive, localResets, remoteResets := true, [], [], 0, 0, 0;
    }

    /** Unlinks a message that is still linked, and schedules its deletion. */
    method DeferredMessage(m: ActiveMessage)
      requires Valid()
      modifies this`active, this`deferred
      ensures Valid() && Releases(m)
      ensures m in old(active) ==> m !in active && m in deferred
      ensures m !in old(active) ==> active == old(active) && deferred == old(deferred)
    {
      if m !in active {
        return;
      }
      WithoutIsUnlinked(active, m);
      AppendedIsDistinct(deferred, m);
      active := Without(active, m);
      deferred := deferred + [m];
    }

    /** Whether an error reply has been written. */
    method SendLocalReply(encodes: bool) returns (written: bool)
      ensures written == (open && encodes)
    {
      if !open {
        return false;
      }
      return encodes;
    }

    /** A new message, linked at the front. */
    method NewStream(a: Arrival) returns (m: ActiveMessage)
      requires Valid()
      modifies this`active, this`requestActive
      ensures Valid() && fresh(m) && fresh(m.router) && m.parent == this && m.Valid() && m.View() == Fresh(a)
      ensures m.router.upstreamRequest == null
      ensures active == [m] + old(active) && requestActive == old(requestActive) + 1
    {
      m := new ActiveMessage(this, a);
      AppendedIsDistinct(active, m);
      active := [m] + active;
    }

    /** Releases the message in front until the list is empty, and counts each. */
    method ResetAllMessages(local: bool)
      requires Valid()
      modifies this
      ensures Valid() && active == [] && deferred == old(deferred) + old(active)
      ensures open == old(open) && requestActive == old(requestActive)
      ensures localResets == old(localResets) + if local then |old(active)| else 0
      ensures remoteResets == old(remoteResets) + if local then 0 else |old(active)|
    {
      ghost var n := 0;
      while active != []
        invariant Valid() && 0 <= n <= |old(active)| && open == old(open) && requestActive == old(requestActive)
        invariant active == old(active)[n..] && deferred == old(deferred) + old(active)[..n]
        invariant localResets == old(localResets) + if local then n else 0
        invariant remoteResets == old(remoteResets) + if local then 0 else n
        decreases |active|
      {
        if local {
          localResets := localResets + 1;
        } else {
          remoteResets := remoteResets + 1;
        }
        DeferredMessage(active[0]);
        n := n + 1;
        assert old(active)[..n] == old(active)[..n - 1] + [old(active)[n - 1]];
      }
      assert old(active)[..n] == old(active);
    }

    method OnEvent(local: bool)
      requires Valid()
      modifies this
      ensures Valid() && active == [] && deferred == old(deferred) + old(active)
      ensures open == old(open) && requestActive == old(requestActive)
      ensures localResets == old(localResets) + if local then |old(active)| else 0
      ensures remoteResets == old(remoteResets) + if local then 0 else |old(active)|
    {
      ResetAllMessages(local);
    }

    /** The dispatcher deletes the first message scheduled. */
    method DeleteFirst(encodes: bool)
      requires Valid() && deferred != [] && deferred[0].Valid()
      requires
        var r := deferred[0].router.upstreamRequest;
        r != null ==> !(r.handle && r.conn)
      modifies this, deferred[0], deferred[0].router`upstreamRequest, deferred[0].router.upstreamRequest
      ensures Valid() && active == old(active) && deferred == old(deferred)[1..]
      ensures requestActive == old(requestActive) - 1
      ensures
        var m := old(deferred)[0];
        m.View() == Spec.Destroy(old(m.View()), m.Downstream(encodes))
      ensures
        var r := old(deferred[0].router.upstreamRequest);
        r != null ==> !r.handle && !r.conn
    {
      var m := deferred[0];
      deferred := deferred[1..];
      requestActive := requestActive - 1;
      m.Destroy(encodes);
    }

    /** The messages that were there before a dispatch: left alone, or released if it breaks. */
    twostate predicate Dispatched(broken: bool)
      reads this
    {
      && (forall m :: m in old(active) ==> if broken then m in deferred && m !in active else m in active)
      && (forall m :: m in old(deferred) ==> m in deferred)
      && (forall m :: m in active ==> m in old(active) || fresh(m))
      && (forall m :: m in deferred ==> m in old(deferred) || (broken && m in old(active)) || fresh(m))
    }

    /** What decoding an arrival makes of it. */
    ghost function Expected(a: Arrival, d: Spec.Downstream): Spec.Message {
      Spec.OnStreamDecoded(Fresh(a), a.verdicts, d)
    }

    /** The messages made so far are as decoding leaves them, or released since. */
    ghost predicate AllExpected(
        created: seq<ActiveMessage>, arrivals: seq<Arrival>, d: Spec.Downstream, released: bool)
      requires |created| <= |arrivals|
      reads this, created, set m | m in created :: m.router, set m | m in created :: m.router.upstreamRequest
    {
      forall i :: 0 <= i < |created| ==>
        var m := Expected(arrivals[i], d);
        created[i].parent == this && created[i].View() == if released then Spec.Defer(m) else m
    }

    /** Only `m` has joined the lists; the others are where they were. */
    twostate predicate Joined(new m: ActiveMessage)
      reads this
    {
      && (forall x :: x in old(active) ==> x in active && x !in deferred)
      && (forall x :: x in old(deferred) ==> x in deferred && x !in active)
      && (forall x :: x in active ==> x in old(active) || x == m)
      && (forall x :: x in deferred ==> x in old(deferred) || x == m)
      && (m in active || m in deferred)
    }

    /** A new message, linked, runs its filters. */
    method Arrive(a: Arrival, encodes: bool) returns (m: ActiveMessage)
      requires Valid()
      modifies this`active, this`deferred, this`requestActive
      ensures Valid() && Joined(m) && fresh(m) && fresh(m.router) && m.parent == this && m.Valid()
      ensures m.router.upstreamRequest == null || fresh(m.router.upstreamRequest)
      ensures m.View() == Expected(a, Spec.Downstream(open, encodes))
      ensures requestActive == old(requestActive) + 1
      decreases 7, 0
    {
      m := NewStream(a);
      m.OnStreamDecoded(a.verdicts, encodes);
    }

    /** The next arrival; the messages made before it stay as they are. */
    method ArriveNext(ghost created: seq<ActiveMessage>, arrivals: seq<Arrival>, i: nat, encodes: bool)
      returns (m: ActiveMessage)
      requires Valid() && |created| == i < |arrivals|
      requires AllExpected(created, arrivals, Spec.Downstream(open, encodes), false)
      requires forall x :: x in created ==> x in active || x in deferred
      modifies this`active, this`deferred, this`requestActive
      ensures Valid() && Joined(m) && fresh(m) && requestActive == old(requestActive) + 1
      ensures AllExpected(created + [m], arrivals, Spec.Downstream(open, encodes), false)
      decreases 7, 1
    {
      m := Arrive(arrivals[i], encodes);
      forall j | 0 <= j < |created|
        ensures created[j].View() == Expected(arrivals[j], Spec.Downstream(open, encodes))
      {
        assert created[j].View() == old(created[j].View());
      }
    }

    /** Each arrival becomes a message and runs its filters. */
    method ArriveAll(arrivals: seq<Arrival>, encodes: bool) returns (ghost created: seq<ActiveMessage>)
      requires Valid()
      modifies this`active, this`deferred, this`requestActive
      ensures Valid() && Dispatched(false)
      ensures requestActive == old(requestActive) + |arrivals|
      ensures |created| == |arrivals| && fresh(created)
      ensures forall m :: m in created ==> m in active || m in deferred
      ensures AllExpected(created, arrivals, Spec.Downstream(open, encodes), false)
      decreases 7, 2
    {
      created := [];
      var i := 0;
      while i < |arrivals|
        invariant 0 <= i <= |arrivals|
        invariant Valid() && Dispatched(false)
        invariant requestActive == old(requestActive) + i
        invariant |created| == i && fresh(created)
        invariant forall m :: m in created ==> m in active || m in deferred
        invariant AllExpected(created, arrivals, Spec.Downstream(open, encodes), false)
      {
        var m := ArriveNext(created, arrivals, i, encodes);
        created := created + [m];
        i := i + 1;
      }
    }

    /** The connection is closed from here, its close event resets all messages, and so does the
        dispatch afterwards. */
    method Break(ghost created: seq<ActiveMessage>, ghost arrivals: seq<Arrival>, ghost d: Spec.Downstream)
      requires Valid() && |created| == |arrivals| && AllExpected(created, arrivals, d, false)
      requires forall m :: m in created ==> m in active || m in deferred
      modifies this
      ensures Valid() && !open && active == [] && deferred == old(deferred) + old(active)
      ensures requestActive == old(requestActive)
      ensures AllExpected(created, arrivals, d, true)
    {
      open := false;
      OnEvent(true);
      ResetAllMessages(true);
      forall i | 0 <= i < |created|
        ensures created[i].View() == Spec.Defer(Expected(arrivals[i], d))
      {
        assert created[i] in deferred && old(created[i].View()) == Expected(arrivals[i], d);
      }
    }

    /** The arrivals of the batch, and then perhaps an exception. */
    method Dispatch(batch: Batch, encodes: bool) returns (ghost created: seq<ActiveMessage>)
      requires Valid()
      modifies this
      ensures Valid() && Dispatched(batch.broken)
      ensures requestActive == old(requestActive) + |batch.arrivals|
      ensures open == (old(open) && !batch.broken)
      ensures batch.broken ==> active == []
      ensures |created| == |batch.arrivals| && fresh(created)
      ensures AllExpected(created, batch.arrivals, Spec.Downstream(old(open), encodes), batch.broken)
      decreases 7, 3
    {
      created := ArriveAll(batch.arrivals, encodes);
      if batch.broken {
        Break(created, batch.arrivals, Spec.Downstream(old(open), encodes));
      }
    }

    method ContinueDecoding(batch: Batch, encodes: bool)
      requires Valid()
      modifies this
      ensures Valid() && Dispatched(batch.broken)
      ensures requestActive == old(requestActive) + |batch.arrivals|
      ensures open == (old(open) && !batch.broken)
      ensures batch.broken ==> active == []
      decreases 8, 0
    {
      ghost var _ := Dispatch(batch, encodes);
    }
  }

  const NO_BATCH := Batch([], false)

  /** What happens inside a callback of the pool: nothing, or the router resumes the chain. */
  datatype Nested = Nothing | Resuming(verdicts: Spec.Verdicts, batch: Batch)

  /** The outcome of decoding upstream data: more to come, one of the two exceptions, or an id. */
  datatype Decoding = StillMore | ThrewException | ThrewConnectionClose | DecodedId(id: uint64)

  class ActiveMessage {
    const parent: ConnectionManager
    const request: Spec.Request
    const router: Router
    var origin: Octets
    var action: bool
    var pending: bool
    var localSent: bool
    var hasDecoder: bool
    ghost var history: Spec.History

    ghost function View(): Spec.Message
      reads this, parent, router, router.upstreamRequest
    {
      Spec.Message(request, origin, action, pending, localSent, hasDecoder, parent.PlaceOf(this), router.RequestView(),
                   router.buffer, history)
    }

    ghost predicate Valid()
      reads this, parent, router
    {
      && parent.Valid() && router.callbacks == this
      && (router.upstreamRequest != null ==> router.upstreamRequest.parent == router)
    }

    ghost function Downstream(encodes: bool): Spec.Downstream
      reads this, parent
    {
      Spec.Downstream(parent.open, encodes)
    }

    constructor (parent: ConnectionManager, a: Arrival)
      requires parent.Valid()
      modifies parent`requestActive
      ensures this.parent == parent && request == a.request
      ensures View() == Fresh(a).(place := Spec.Gone) && fresh(router) && router.callbacks == this
      ensures router.upstreamRequest == null && parent.requestActive == old(parent.requestActive) + 1
    {
      this.parent, request := parent, a.request;
      origin, action, pending, localSent, hasDecoder := a.request.payload, false, false, false, false;
      history := Spec.History(Spec.NotPaused, false, [], [], [], 0);
      router := new Router();
      new;
      router.SetDecoderFilterCallbacks(this);
      parent.requestActive := parent.requestActive + 1;
    }

    method SendLocalReply(encodes: bool)
      requires Valid()
      modifies this`localSent, this`history
      ensures Valid() && View() == Spec.SendLocalReply(old(View()), Downstream(encodes))
    {
      var written := parent.SendLocalReply(encodes);
      if written {
        history := history.(replies := history.replies + [Spec.Local]);
      }
      localSent := true;
    }

    method ResetStream()
      requires Valid()
      modifies parent`active, parent`deferred
      ensures Valid() && parent.Releases(this) && View() == Spec.Defer(old(View()))
    {
      parent.DeferredMessage(this);
    }

    method OnReset()
      requires Valid()
      modifies parent`active, parent`deferred
      ensures Valid() && parent.Releases(this) && View() == Spec.Defer(old(View()))
    {
      parent.DeferredMessage(this);
    }

    method OnError(encodes: bool)
      requires Valid()
      modifies this`localSent, this`history, parent`active, parent`deferred
      ensures Valid() && parent.Releases(this) && View() == Spec.OnError(old(View()), Downstream(encodes))
    {
      SendLocalReply(encodes);
      parent.DeferredMessage(this);
    }

    method FinalizeRequest()
      requires Valid()
      modifies this`pending, this`history, parent`active, parent`deferred
      ensures Valid() && parent.Releases(this) && View() == Spec.FinalizeRequest(old(View()))
      ensures this in parent.active <==> this in old(parent.active) && !localSent && !request.oneway
    {
      pending := false;
      history := history.(finalized := history.finalized + 1);
      if localSent || request.oneway {
        parent.DeferredMessage(this);
      }
    }

    /** One filter of the chain is called: the router, or one before it. */
    method CallFilter(k: nat, v: Spec.Verdicts, encodes: bool) returns (status: Spec.FilterStatus)
      requires Valid() && k <= request.filters
      modifies this, parent`active, parent`deferred, router`upstreamRequest, router`buffer
      ensures Valid() && parent.Releases(this)
      ensures Spec.Called(View(), status) == Spec.CallFilter(old(View()), k, v, Downstream(encodes))
      decreases 5, 0
    {
      history := history.(calls := history.calls + [k]);
      if k == request.filters {
        status := router.OnMessageDecoded(v.router, encodes);
        return;
      }
      match v.before(k) {
        case Continues => return Spec.Continue;
        case Stops => return Spec.StopIteration;
        case Replies =>
          SendLocalReply(encodes);
          return Spec.StopIteration;
      }
    }

    /** One turn of the loop over the chain: it is done, or goes on with the next filter. */
    method ApplyFilter(k: nat, v: Spec.Verdicts, encodes: bool) returns (done: bool, status: Spec.FilterStatus)
      requires Valid() && k <= request.filters && !localSent
      modifies this, parent`active, parent`deferred, router`upstreamRequest, router`buffer
      ensures Valid() && parent.Releases(this)
      ensures !done ==> !localSent
      ensures
        Spec.ApplyDecoderFilters(old(View()), k, v, Downstream(encodes)) ==
        if done then Spec.Called(View(), status) else Spec.ApplyDecoderFilters(View(), k + 1, v, Downstream(encodes))
      decreases 5, 1
    {
      Invariant.ChainTurns(View(), k, v, Downstream(encodes));
      status := CallFilter(k, v, encodes);
      if localSent {
        action := false;
        return true, Spec.Continue;
      }
      if status != Spec.Continue {
        history := history.(pause := Spec.PausedAt(k));
        return true, status;
      }
      done := false;
    }

    /** The loop over the chain from the filter at `k`. */
    method RunFilters(k: nat, v: Spec.Verdicts, encodes: bool) returns (status: Spec.FilterStatus)
      requires Valid() && !localSent
      modifies this, parent`active, parent`deferred, router`upstreamRequest, router`buffer
      ensures Valid() && parent.Releases(this)
      ensures Spec.Called(View(), status) == Spec.ApplyDecoderFilters(old(View()), k, v, Downstream(encodes))
      decreases 5, 2
    {
      ghost var goal := Spec.ApplyDecoderFilters(View(), k, v, Downstream(encodes));
      var i := k;
      while i <= request.filters
        invariant Valid() && parent.Releases(this) && !localSent
        invariant goal == Spec.ApplyDecoderFilters(View(), i, v, Downstream(encodes))
      {
        var done;
        done, status := ApplyFilter(i, v, encodes);
        if done {
          return;
        }
        i := i + 1;
      }
      action := false;
      return Spec.Continue;
    }

    /** Nothing runs once a local reply has been sent, or behind the last filter; the filter action
        is set whenever the chain runs. */
    method ApplyDecoderFilters(k: nat, v: Spec.Verdicts, encodes: bool) returns (status: Spec.FilterStatus)
      requires Valid() && action
      modifies this, parent`active, parent`deferred, router`upstreamRequest, router`buffer
      ensures Valid() && parent.Releases(this)
      ensures Spec.Called(View(), status) == Spec.ApplyDecoderFilters(old(View()), k, v, Downstream(encodes))
      ensures old(localSent) || k > request.filters ==> router.upstreamRequest == old(router.upstreamRequest)
      decreases 5, 3
    {
      if !localSent && k <= request.filters {
        status := RunFilters(k, v, encodes);
        return;
      }
      action := false;
      return Spec.Continue;
    }

    method OnStreamDecoded(v: Spec.Verdicts, encodes: bool)
      requires Valid()
      modifies this, parent`active, parent`deferred, router`upstreamRequest, router`buffer
      ensures Valid() && parent.Releases(this)
      ensures View() == Spec.OnStreamDecoded(old(View()), v, Downstream(encodes))
      decreases 6
    {
      action := true;
      var status := ApplyDecoderFilters(0, v, encodes);
      if status == Spec.StopIteration {
        pending := true;
        return;
      }
      FinalizeRequest();
    }

    /** The filter at `k` resumes; once the chain is through, the connection dispatches again. */
    method ContinueDecoding(k: nat, v: Spec.Verdicts, batch: Batch, encodes: bool)
      requires Valid() && action
      modifies this, parent, router`upstreamRequest, router`buffer
      ensures Valid()
      ensures
        var m, d := old(View()), old(Downstream(encodes));
        && View() == Spec.Redispatched(Spec.ContinueDecoding(m, k, v, d), batch.broken)
        && parent.HasDispatched(if Spec.ContinueDecoding(m, k, v, d).status == Spec.Continue then batch else NO_BATCH)
      ensures old(localSent) || Spec.ResumePoint(old(View()), k) > request.filters ==>
        router.upstreamRequest == old(router.upstreamRequest)
      decreases 9
    {
      var status := RunAgain(k, v, encodes);
      if status == Spec.Continue {
        CompleteChain(batch, encodes);
      }
    }

    /** The chain from where the filter at `k` resumes. */
    method RunAgain(k: nat, v: Spec.Verdicts, encodes: bool) returns (status: Spec.FilterStatus)
      requires Valid() && action
      modifies this, parent`active, parent`deferred, router`upstreamRequest, router`buffer
      ensures Valid() && parent.Releases(this)
      ensures
        var m := Spec.Pausing(old(View()), Spec.NotPaused);
        Spec.Called(View(), status) ==
        Spec.ApplyDecoderFilters(m, Spec.ResumePoint(old(View()), k), v, Downstream(encodes))
      ensures old(localSent) || Spec.ResumePoint(old(View()), k) > request.filters ==>
        router.upstreamRequest == old(router.upstreamRequest)
      decreases 6
    {
      var state := if |origin| > 0 then k else k + 1;
      history := history.(pause := Spec.NotPaused);
      status := ApplyDecoderFilters(state, v, encodes);
    }

    /** All filters have run: the request is finalized if the chain had stopped. */
    method CompleteChain(batch: Batch, encodes: bool)
      requires Valid()
      modifies this`pending, this`history, parent
      ensures Valid()
      ensures
        var m := old(View());
        var m1 := if m.pending then Spec.FinalizeRequest(m) else m;
        View() == Spec.Redispatched(Spec.Called(m1, Spec.Continue), batch.broken)
      ensures parent.HasDispatched(batch)
      decreases 8, 2
    {
      if pending {
        FinalizeRequest();
      }
      Redispatch(batch, encodes);
    }

    method Redispatch(batch: Batch, encodes: bool)
      requires Valid()
      modifies parent
      ensures Valid()
      ensures View() == if batch.broken then Spec.Defer(old(View())) else old(View())
      ensures parent.HasDispatched(batch)
      decreases 8, 1
    {
      parent.ContinueDecoding(batch, encodes);
    }

    /** The destructor, of a message that is on no list any more. */
    method Destroy(encodes: bool)
      requires Valid() && parent.PlaceOf(this) == Spec.Gone
      requires router.upstreamRequest != null ==> !(router.upstreamRequest.handle && router.upstreamRequest.conn)
      modifies this, parent`active, parent`deferred, router`upstreamRequest, router.upstreamRequest
      ensures Valid() && parent.active == old(parent.active) && parent.deferred == old(parent.deferred)
      ensures View() == Spec.Destroy(old(View()), Downstream(encodes))
      ensures
        var r := old(router.upstreamRequest);
        r != null ==> !r.handle && !r.conn
    {
      router.OnDestroy(encodes);
    }

    /** A response decoder is made once. */
    method StartUpstreamResponse()
      requires !hasDecoder
      modifies this`hasDecoder
      ensures hasDecoder
    {
      hasDecoder := true;
    }

    /** The response decoder's onData, with its encoder filters, its write and its exceptions. */
    method DecodeResponse(data: Spec.ResponseData) returns (r: Decoding)
      requires Valid()
      modifies this`history
      ensures Valid()
      ensures
        match data
        case Partial => r == StillMore && View() == old(View())
        case Malformed => r == ThrewException && View() == old(View())
        case Whole(id, stops) =>
          if stops && !localSent then r == DecodedId(id) && View() == old(View())
          else if !parent.open then r == ThrewConnectionClose && View() == old(View())
          else r == DecodedId(id) && View() == Spec.Replied(old(View()), Spec.Proxied(id))
    {
      match data {
        case Partial => return StillMore;
        case Malformed => return ThrewException;
        case Whole(id, stops) =>
          if !localSent && stops {
            return DecodedId(id);
          }
          if !parent.open {
            return ThrewConnectionClose;
          }
          history := history.(replies := history.replies + [Spec.Proxied(id)]);
          return DecodedId(id);
      }
    }

    method UpstreamData(data: Spec.ResponseData, encodes: bool) returns (status: Spec.ResponseStatus)
      requires Valid() && hasDecoder
      modifies this`localSent, this`history, parent`active, parent`deferred
      ensures Valid() && parent.Releases(this)
      ensures Spec.Answered(View(), status) == Spec.UpstreamData(old(View()), data, Downstream(encodes))
    {
      var decoded := DecodeResponse(data);
      match decoded {
        case StillMore => return Spec.MoreData;
        case ThrewException =>
          OnError(encodes);
          return Spec.Reset;
        case ThrewConnectionClose =>
          OnReset();
          return Spec.Reset;
        case DecodedId(other) =>
          status := CompleteResponse(other, encodes);
      }
    }

    /** A response has been decoded, and written unless a filter stopped it; now its id is checked. */
    method CompleteResponse(other: uint64, encodes: bool) returns (status: Spec.ResponseStatus)
      requires Valid()
      modifies this`localSent, this`history, parent`active, parent`deferred
      ensures Valid() && parent.Releases(this)
      ensures
        var m, d := old(View()), Downstream(encodes);
        Spec.Answered(View(), status) ==
        if request.id != other then Spec.Answered(Spec.OnError(m, d), Spec.Reset)
        else Spec.Answered(Spec.Defer(m), Spec.Complete)
    {
      if request.id != other {
        OnError(encodes);
        return Spec.Reset;
      }
      parent.DeferredMessage(this);
      return Spec.Complete;
    }
  }

  class Router {
    var callbacks: ActiveMessage?
    var upstreamRequest: UpstreamRequest?
    var buffer: Octets

    ghost function RequestView(): Spec.MaybeUpstream
      reads this, upstreamRequest
    {
      if upstreamRequest == null then Spec.NoUpstream else Spec.Upstream(upstreamRequest.View())
    }

    constructor ()
      ensures callbacks == null && upstreamRequest == null && buffer == []
    {
      callbacks, upstreamRequest, buffer := null, null, [];
    }

    method SetDecoderFilterCallbacks(callbacks: ActiveMessage)
      modifies this`callbacks
      ensures this.callbacks == callbacks
    {
      this.callbacks := callbacks;
    }

    ghost predicate Attached()
      reads this, callbacks, if callbacks == null then {} else {callbacks.parent, callbacks.router}
    {
      callbacks != null && callbacks.router == this && callbacks.Valid()
    }

    method Cleanup()
      modifies this`upstreamRequest
      ensures upstreamRequest == null
    {
      upstreamRequest := null;
    }

    /** An event of the upstream connection, one that resetStream raises among them. */
    method OnEvent(remote: bool, encodes: bool)
      requires Attached()
      modifies callbacks`localSent, callbacks`history, callbacks.parent`active, callbacks.parent`deferred
      ensures Attached() && callbacks.parent.Releases(callbacks)
      ensures callbacks.View() == Spec.OnConnectionEvent(old(callbacks.View()), remote, callbacks.Downstream(encodes))
    {
      if upstreamRequest == null || upstreamRequest.responseComplete {
        return;
      }
      if upstreamRequest.streamReset && !remote {
        return;
      }
      upstreamRequest.OnResetStream(encodes);
    }

    method BeginResponse()
      requires Attached() && upstreamRequest != null && upstreamRequest.responseStarted == callbacks.hasDecoder
      modifies upstreamRequest`responseStarted, callbacks`hasDecoder
      ensures Attached() && callbacks.hasDecoder && callbacks.View() == Spec.StartResponse(old(callbacks.View()))
    {
      if !upstreamRequest.responseStarted {
        callbacks.StartUpstreamResponse();
        upstreamRequest.responseStarted := true;
      }
    }

    method EndResponse()
      requires Attached() && upstreamRequest != null
      modifies this`upstreamRequest, upstreamRequest
      ensures Attached() && upstreamRequest == null
      ensures callbacks.View() == old(callbacks.View()).(upstream := Spec.NoUpstream)
    {
      upstreamRequest.OnResponseComplete();
      Cleanup();
    }

    /** Response data, never after the response is complete. */
    method OnUpstreamData(data: Spec.ResponseData, end: bool, encodes: bool)
      requires Attached() && upstreamRequest != null && !upstreamRequest.responseComplete
      requires upstreamRequest.responseStarted == callbacks.hasDecoder
      requires !(upstreamRequest.handle && upstreamRequest.conn)
      modifies this`upstreamRequest, upstreamRequest, callbacks, callbacks.parent`active, callbacks.parent`deferred
      ensures Attached() && callbacks.parent.Releases(callbacks)
      ensures callbacks.View() == Spec.OnUpstreamData(old(callbacks.View()), data, end, callbacks.Downstream(encodes))
    {
      BeginResponse();
      var status := callbacks.UpstreamData(data, encodes);
      OnUpstreamStatus(status, end, encodes);
    }

    /** What the router makes of the status. */
    method OnUpstreamStatus(status: Spec.ResponseStatus, end: bool, encodes: bool)
      requires Attached() && upstreamRequest != null && !(upstreamRequest.handle && upstreamRequest.conn)
      modifies this`upstreamRequest, upstreamRequest, callbacks`localSent, callbacks`history,
               callbacks.parent`active, callbacks.parent`deferred
      ensures Attached() && callbacks.parent.Releases(callbacks)
      ensures
        var m, d := old(callbacks.View()), callbacks.Downstream(encodes);
        callbacks.View() ==
        match status
        case Complete => m.(upstream := Spec.NoUpstream)
        case Reset => Spec.ResetUpstream(m, d)
        case MoreData => if end then Spec.OnResetStream(m, d).(upstream := Spec.NoUpstream) else m
    {
      if status == Spec.Complete {
        EndResponse();
        return;
      } else if status == Spec.Reset {
        upstreamRequest.ResetStream(encodes);
        return;
      }
      if end {
        upstreamRequest.OnResetStream(encodes);
        EndResponse();
      }
    }

    method OnMessageDecoded(v: Spec.RouterVerdict, encodes: bool) returns (status: Spec.FilterStatus)
      requires Attached()
      modifies this`upstreamRequest, this`buffer, callbacks, callbacks.parent`active, callbacks.parent`deferred
      ensures Attached() && callbacks.parent.Releases(callbacks)
      ensures Spec.Called(callbacks.View(), status) ==
        Spec.RouteMessage(old(callbacks.View()), v, callbacks.Downstream(encodes))
      decreases 4
    {
      if v == Spec.NoTarget {
        callbacks.SendLocalReply(encodes);
        return Spec.StopIteration;
      }
      buffer := buffer + callbacks.origin;
      callbacks.origin := [];
      upstreamRequest := new UpstreamRequest(this);
      status := upstreamRequest.Start(v, encodes);
    }

    /** The upstream connection closes; the environment remembers it. */
    method OnUpstreamClose(remote: bool, encodes: bool)
      requires Attached()
      modifies callbacks`localSent, callbacks`history, callbacks.parent`active, callbacks.parent`deferred
      ensures Attached() && callbacks.parent.Releases(callbacks)
      ensures callbacks.View() == Spec.OnUpstreamClose(old(callbacks.View()), remote, callbacks.Downstream(encodes))
    {
      OnEvent(remote, encodes);
      callbacks.history := callbacks.history.(peerClosed := true);
    }

    method OnDestroy(encodes: bool)
      requires Attached() && (upstreamRequest != null ==> !(upstreamRequest.handle && upstreamRequest.conn))
      modifies this`upstreamRequest, upstreamRequest, callbacks`localSent, callbacks`history,
               callbacks.parent`active, callbacks.parent`deferred
      ensures Attached() && callbacks.parent.Releases(callbacks) && upstreamRequest == null
      ensures
        var m, d := old(callbacks.View()), callbacks.Downstream(encodes);
        callbacks.View() == (if m.upstream.Upstream? then Spec.ResetUpstream(m, d) else m).(upstream := Spec.NoUpstream)
      ensures old(upstreamRequest) != null ==>
        old(upstreamRequest).streamReset && !old(upstreamRequest).handle && !old(upstreamRequest).conn
    {
      if upstreamRequest != null {
        upstreamRequest.ResetStream(encodes);
      }
      Cleanup();
    }
  }

  class UpstreamRequest {
    const parent: Router
    var handle: bool
    var conn: bool
    var requestComplete: bool
    var responseStarted: bool
    var responseComplete: bool
    var streamReset: bool

    ghost function View(): Spec.UpstreamRequest
      reads this
    {
      Spec.UpstreamRequest(handle, conn, requestComplete, responseStarted, responseComplete, streamReset)
    }

    constructor (parent: Router)
      ensures this.parent == parent && View() == Spec.NEW_REQUEST
    {
      this.parent := parent;
      handle, conn, requestComplete := false, false, false;
      responseStarted, responseComplete, streamReset := false, false, false;
    }

    ghost predicate Attached()
      reads parent, parent.callbacks,
            if parent.callbacks == null then {} else {parent.callbacks.parent, parent.callbacks.router}
    {
      parent.upstreamRequest == this && parent.Attached()
    }

    method OnResetStream(encodes: bool)
      requires Attached()
      modifies parent.callbacks`localSent, parent.callbacks`history,
               parent.callbacks.parent`active, parent.callbacks.parent`deferred
      ensures Attached() && parent.callbacks.parent.Releases(parent.callbacks)
      ensures parent.callbacks.View() ==
        Spec.OnResetStream(old(parent.callbacks.View()), parent.callbacks.Downstream(encodes))
    {
      if parent.callbacks.request.oneway {
        parent.callbacks.ResetStream();
        return;
      }
      parent.callbacks.SendLocalReply(encodes);
    }

    method OnResponseComplete()
      modifies this`responseComplete, this`conn
      ensures responseComplete && !conn
    {
      responseComplete := true;
      conn := false;
    }

    /** Cancels the pool request; closes the connection, which reports its local close at once. */
    method ResetStream(encodes: bool)
      requires Attached() && !(handle && conn)
      modifies this, parent.callbacks`localSent, parent.callbacks`history,
               parent.callbacks.parent`active, parent.callbacks.parent`deferred
      ensures Attached() && parent.callbacks.parent.Releases(parent.callbacks)
      ensures parent.callbacks.View() ==
        Spec.ResetUpstream(old(parent.callbacks.View()), parent.callbacks.Downstream(encodes))
      ensures streamReset && !handle && !conn
    {
      streamReset := true;
      if handle {
        handle := false;
      }
      if conn {
        parent.OnEvent(false, encodes);
        conn := false;
      }
    }

    method EncodeData()
      requires Attached() && conn && !handle
      modifies parent.callbacks`history, parent`buffer
      ensures Attached()
      ensures parent.callbacks.View() == Spec.EncodeData(old(parent.callbacks.View()))
    {
      parent.callbacks.history := parent.callbacks.history.(sent := parent.callbacks.history.sent + [parent.buffer]);
      parent.buffer := [];
    }

    /** newConnection returns a handle, or has called back already. */
    method Start(v: Spec.RouterVerdict, encodes: bool) returns (status: Spec.FilterStatus)
      requires Attached() && View() == Spec.NEW_REQUEST && v != Spec.NoTarget
      modifies this, parent`buffer, parent`upstreamRequest, parent.callbacks,
               parent.callbacks.parent`active, parent.callbacks.parent`deferred
      ensures Attached() && parent.callbacks.parent.Releases(parent.callbacks)
      ensures
        var m, d := old(parent.callbacks.View()), parent.callbacks.Downstream(encodes);
        Spec.Called(parent.callbacks.View(), status) ==
        if v == Spec.ReadyNow then Spec.Called(Spec.CompleteRequest(Spec.Attach(m)), Spec.Continue)
        else if v == Spec.OverflowNow then Spec.Called(Spec.FailRequest(m, d), Spec.Continue)
        else Spec.Called(m.(upstream := Spec.Upstream(Spec.NEW_REQUEST.(handle := true))), Spec.StopIteration)
      decreases 3
    {
      if v == Spec.ReadyNow {
        OnPoolReady(Nothing, encodes);
        return Spec.Continue;
      } else if v == Spec.OverflowNow {
        OnPoolFailure(Nothing, encodes);
        return Spec.Continue;
      }
      handle := true;
      return Spec.StopIteration;
    }

    /** A connection: at once, or for a request that waited and now resumes the chain. */
    method OnPoolReady(nested: Nested, encodes: bool)
      requires Attached() && (handle <==> nested.Resuming?)
      requires handle ==> Invariant.Valid(parent.callbacks.View())
      modifies this, parent`buffer, parent`upstreamRequest, parent.callbacks,
               if handle then {parent.callbacks.parent} else {}
      ensures Attached()
      ensures
        var m, d := old(parent.callbacks.View()), old(parent.callbacks.Downstream(encodes));
        parent.callbacks.View() ==
        match nested
        case Nothing => Spec.CompleteRequest(Spec.Attach(m))
        case Resuming(v, batch) => Spec.CompleteRequest(Spec.Redispatched(Spec.OnPoolReady(m, v, d), batch.broken))
      decreases if nested.Resuming? then 11 else 2
    {
      ghost var m, d := parent.callbacks.View(), parent.callbacks.Downstream(encodes);
      var continueDecoding := handle;
      conn := true;
      handle := false;
      assert parent.callbacks.View() == Spec.Attach(m);
      if nested.Resuming? {
        Steps.RouterResumes(Spec.Attach(m), nested.verdicts, d);
      }
      OnRequestStart(continueDecoding, nested, encodes);
      EncodeData();
    }

    method OnRequestStart(continueDecoding: bool, nested: Nested, encodes: bool)
      requires Attached() && (continueDecoding <==> nested.Resuming?)
      requires continueDecoding ==>
        parent.callbacks.origin == [] && parent.callbacks.pending && parent.callbacks.action
      modifies this`requestComplete, parent`buffer, parent`upstreamRequest, parent.callbacks,
               if continueDecoding then {parent.callbacks.parent} else {}
      ensures Attached() && requestComplete && handle == old(handle) && conn == old(conn)
      ensures
        var m, d := old(parent.callbacks.View()), old(parent.callbacks.Downstream(encodes));
        var m1 :=
          match nested
          case Nothing => m
          case Resuming(v, batch) => Spec.Redispatched(Spec.ContinueDecoding(m, m.request.filters, v, d), batch.broken);
        parent.callbacks.View() == m1.(upstream := Spec.Upstream(View()))
      decreases if continueDecoding then 10 else 1
    {
      if continueDecoding {
        var callbacks := parent.callbacks;
        callbacks.ContinueDecoding(callbacks.request.filters, nested.verdicts, nested.batch, encodes);
      }
      requestComplete := true;
    }

    /** The reset of the stream that a pool failure mimics, and nothing left to send. */
    method DropRequest(encodes: bool)
      requires Attached()
      modifies this`handle, parent`buffer, parent.callbacks`localSent, parent.callbacks`history,
               parent.callbacks.parent`active, parent.callbacks.parent`deferred
      ensures Attached() && parent.callbacks.parent.Releases(parent.callbacks)
      ensures parent.callbacks.View() ==
        Spec.FailRequest(Spec.DropHandle(old(parent.callbacks.View())), parent.callbacks.Downstream(encodes))
    {
      handle := false;
      OnResetStream(encodes);
      parent.buffer := [];
    }

    /** No connection; only a pool that has none to give calls back at once. */
    method OnPoolFailure(nested: Nested, encodes: bool)
      requires Attached()
      requires nested.Resuming? ==> Invariant.Valid(parent.callbacks.View()) && handle
      modifies this`handle, parent`buffer, parent`upstreamRequest, parent.callbacks,
               parent.callbacks.parent`active, parent.callbacks.parent`deferred,
               if nested.Resuming? then {parent.callbacks.parent} else {}
      ensures Attached()
      ensures nested.Nothing? ==> parent.callbacks.parent.Releases(parent.callbacks)
      ensures
        var m, d := old(parent.callbacks.View()), old(parent.callbacks.Downstream(encodes));
        parent.callbacks.View() ==
        match nested
        case Nothing => Spec.FailRequest(Spec.DropHandle(m), d)
        case Resuming(v, batch) => Spec.Redispatched(Spec.OnPoolFailure(m, v, d), batch.broken)
      decreases if nested.Resuming? then 11 else 2
    {
      DropRequest(encodes);
      if nested.Resuming? {
        var callbacks := parent.callbacks;
        callbacks.ContinueDecoding(callbacks.request.filters, nested.verdicts, nested.batch, encodes);
      }
    }
  }
}
