/**
 Shared in-flight requests and an invalidated cache (frontend/src/api/nodes.ts and
 frontend/src/api/health.ts), as an interleaving of calls and promise callbacks. A request
 settles (its `then` runs) before its `finally` runs; anything may happen in between.
 */
module SingleFlight {
  import opened Wrappers

  datatype Flight = Flight(issued: nat, pending: bool)

  /** `request` and `cache` are the module's variables. The rest is history: the requests whose
      `finally` has not run, how many have been issued, the number of invalidations so far, the
      requests in flight at the last one, how many of them met a non-null `request`, and which
      request filled the cache in which epoch. */
  datatype State<P> = State(
    request: Option<nat>,
    cache: Option<P>,
    flights: map<nat, Flight>,
    next: nat,
    epoch: nat,
    carried: set<nat>,
    dirty: nat,
    writer: nat,
    writerIssued: nat)

  datatype Event<P> =
    | Get
    | Fulfil(id: nat, payload: P)   // the response parses: the cache is assigned
    | Reject(id: nat)               // the request or the parser fails
    | Finally(id: nat)
    | Invalidate                    // called directly, or by a mutating call whose POST or PUT succeeded

  function Initial<P>(): State<P> {
    State(None, None, map[], 0, 0, {}, 0, 0, 0)
  }

  predicate Pending<P>(s: State<P>, id: nat) {
    id in s.flights && s.flights[id].pending
  }

  predicate Enabled<P>(s: State<P>, e: Event<P>) {
    match e
    case Get => true
    case Fulfil(id, _) => Pending(s, id)
    case Reject(id) => Pending(s, id)
    case Finally(id) => id in s.flights && !s.flights[id].pending
    case Invalidate => true
  }

  function Next<P>(s: State<P>, e: Event<P>): State<P>
    requires Enabled(s, e)
  {
    match e
    case Get =>
      if s.request.Some? then s
      else s.(request := Some(s.next), flights := s.flights[s.next := Flight(s.epoch, true)], next := s.next + 1)
    case Fulfil(id, payload) =>
      s.(cache := Some(payload), writer := id, writerIssued := s.flights[id].issued,
         flights := s.flights[id := s.flights[id].(pending := false)])
    case Reject(id) => s.(flights := s.flights[id := s.flights[id].(pending := false)])
    case Finally(id) => s.(request := None, flights := s.flights - {id})
    case Invalidate =>
      s.(cache := None, request := None, epoch := s.epoch + 1, carried := s.flights.Keys,
         dirty := s.dirty + if s.request.Some? then 1 else 0)
  }

  /** The state after `events`, if each was possible where it happened. */
  function After<P>(events: seq<Event<P>>): Option<State<P>> {
    if events == [] then Some(Initial())
    else
      var before := After(events[..|events| - 1]);
      var e := events[|events| - 1];
      if before.None? || !Enabled(before.value, e) then None else Some(Next(before.value, e))
  }

  // ---------- what always holds ----------

  ghost predicate FlightsKnown<P>(s: State<P>) {
    && (forall id :: id in s.flights ==> id < s.next && s.flights[id].issued <= s.epoch)
    && (forall id :: id in s.flights && s.flights[id].issued < s.epoch ==> id in s.carried)
    && (s.request.Some? ==> s.request.value in s.flights && s.flights[s.request.value].issued == s.epoch)
  }

  /** Each request beyond the first is paid for by an invalidation that cut off a live one. */
  ghost predicate Budget<P>(s: State<P>) {
    |s.flights| + (if s.request.None? then 1 else 0) <= 1 + s.dirty
  }

  /** Nothing in flight at the last invalidation: the shared request is the only one. */
  ghost predicate Clean<P>(s: State<P>) {
    s.carried == {} ==> s.flights.Keys == if s.request.Some? then {s.request.value} else {}
  }

  ghost predicate CacheOrigin<P>(s: State<P>) {
    s.cache.Some? ==> s.writerIssued <= s.epoch && (s.writerIssued < s.epoch ==> s.writer in s.carried)
  }

  ghost predicate Inv<P>(s: State<P>) {
    FlightsKnown(s) && Budget(s) && Clean(s) && CacheOrigin(s)
  }

  lemma StepKeepsBudget<P>(s: State<P>, e: Event<P>)
    requires FlightsKnown(s) && Budget(s) && Enabled(s, e)
    ensures Budget(Next(s, e))
  {
    match e
    case Get =>
      if s.request.None? {
        assert Next(s, e).flights.Keys == s.flights.Keys + {s.next};
      }
    case Fulfil(id, _) => assert Next(s, e).flights.Keys == s.flights.Keys;
    case Reject(id) => assert Next(s, e).flights.Keys == s.flights.Keys;
    case Finally(id) => assert Next(s, e).flights.Keys == s.flights.Keys - {id};
    case Invalidate =>
  }

  lemma StepKeepsClean<P>(s: State<P>, e: Event<P>)
    requires FlightsKnown(s) && Clean(s) && Enabled(s, e)
    ensures Clean(Next(s, e))
  {
    match e
    case Get =>
      if s.request.None? {
        assert Next(s, e).flights.Keys == s.flights.Keys + {s.next};
      }
    case Fulfil(id, _) => assert Next(s, e).flights.Keys == s.flights.Keys;
    case Reject(id) => assert Next(s, e).flights.Keys == s.flights.Keys;
    case Finally(id) => assert Next(s, e).flights.Keys == s.flights.Keys - {id};
    case Invalidate =>
  }

  lemma StepKeepsInv<P>(s: State<P>, e: Event<P>)
    requires Inv(s) && Enabled(s, e)
    ensures Inv(Next(s, e))
  {
    StepKeepsBudget(s, e);
    StepKeepsClean(s, e);
  }

  /** Over every interleaving. */
  lemma {:induction false} RunKeepsInv<P>(events: seq<Event<P>>)
    requires After(events).Some?
    ensures Inv(After(events).value)
  {
    if events != [] {
      var n := |events| - 1;
      RunKeepsInv(events[..n]);
      StepKeepsInv(After(events[..n]).value, events[n]);
    }
  }

  // ---------- the cache ----------

  /** The payload of the latest successful completion since the last invalidation. */
  function LatestSuccess<P>(events: seq<Event<P>>): Option<P> {
    if events == [] then None
    else
      match events[|events| - 1]
      case Invalidate => None
      case Fulfil(_, payload) => Some(payload)
      case _ => LatestSuccess(events[..|events| - 1])
  }

  lemma {:induction false} CacheIsLatestSuccess<P>(events: seq<Event<P>>)
    requires After(events).Some?
    ensures After(events).value.cache == LatestSuccess(events)
  {
    if events != [] {
      CacheIsLatestSuccess(events[..|events| - 1]);
    }
  }

  /** Over every run: a cached payload was requested after the last invalidation unless its
      request was in flight at that invalidation; if nothing was in flight then, at most one
      request is outstanding, namely the shared one. In general each further outstanding
      request takes an invalidation that cut off a shared one. */
  lemma FreshUnlessCarried<P>(events: seq<Event<P>>)
    requires After(events).Some?
    ensures var s := After(events).value;
            && (s.cache.Some? && s.writer !in s.carried ==> s.writerIssued == s.epoch)
            && (s.carried == {} ==> s.flights.Keys == if s.request.Some? then {s.request.value} else {})
            && |s.flights| <= 1 + s.dirty
  {
    RunKeepsInv(events);
  }

  predicate Stale<P>(s: State<P>) {
    s.cache.Some? && s.writerIssued < s.epoch
  }

  /** A request of an earlier epoch that may still succeed. */
  ghost predicate OldPending<P>(s: State<P>) {
    exists id :: Pending(s, id) && s.flights[id].issued < s.epoch
  }

  ghost predicate Run<P(!new)>(s: State<P>, events: seq<Event<P>>, t: State<P>)
    decreases |events|
  {
    if events == [] then t == s
    else Enabled(s, events[0]) && Run(Next(s, events[0]), events[1..], t)
  }

  predicate NoInvalidation<P>(events: seq<Event<P>>) {
    forall i :: 0 <= i < |events| ==> !events[i].Invalidate?
  }

  lemma NoNewOldPending<P>(s: State<P>, e: Event<P>)
    requires Inv(s) && Enabled(s, e) && !e.Invalidate?
    ensures OldPending(Next(s, e)) ==> OldPending(s)
  {
    var t := Next(s, e);
    if OldPending(t) {
      var id :| Pending(t, id) && t.flights[id].issued < t.epoch;
      assert Pending(s, id) && s.flights[id].issued < s.epoch;
    }
  }

  lemma {:induction false} StaysFresh<P(!new)>(s: State<P>, events: seq<Event<P>>, t: State<P>)
    requires Inv(s) && !Stale(s) && !OldPending(s)
    requires Run(s, events, t) && NoInvalidation(events)
    ensures !Stale(t)
    decreases |events|
  {
    if events != [] {
      var e := events[0];
      var s1 := Next(s, e);
      StepKeepsInv(s, e);
      NoNewOldPending(s, e);
      if e.Fulfil? {
        assert Pending(s, e.id);
      }
      StaysFresh(s1, events[1..], t);
    }
  }

  ghost predicate CanGoStale<P(!new)>(s: State<P>) {
    exists events: seq<Event<P>>, t: State<P> :: Run(s, events, t) && NoInvalidation(events) && Stale(t)
  }

  /** Exactly when a fresh or empty cache can still be filled with a payload requested before
      the last invalidation, without a further invalidation: when such a request is pending. */
  lemma StaleIffOldPending<P(!new)>(s: State<P>, payload: P)
    requires Inv(s) && !Stale(s)
    ensures CanGoStale(s) <==> OldPending(s)
  {
    if OldPending(s) {
      var id :| Pending(s, id) && s.flights[id].issued < s.epoch;
      var e := Fulfil(id, payload);
      var t := Next(s, e);
      assert [e][1..] == [] && Run(t, [], t);
      assert Run(s, [e], t) && NoInvalidation([e]) && Stale(t);
    } else {
      forall events: seq<Event<P>>, t: State<P> | Run(s, events, t) && NoInvalidation(events) ensures !Stale(t) {
        StaysFresh(s, events, t);
      }
    }
  }

  /** A request cut off by an invalidation clears the newer shared request when it finishes:
      two requests of the same epoch are then outstanding. */
  lemma FinallyClearsNewer<P(!new)>() returns (t: State<P>)
    ensures Run(Initial<P>(), [Get, Invalidate, Get, Reject(0), Finally(0), Get], t)
    ensures t.flights.Keys == {1, 2} && t.flights[1] == t.flights[2] == Flight(1, true) && t.request == Some(2)
  {
    var s0 := Initial<P>();
    var s1 := Next(s0, Get);
    var s2 := Next(s1, Invalidate);
    var s3 := Next(s2, Get);
    var s4 := Next(s3, Reject(0));
    var s5 := Next(s4, Finally(0));
    t := Next(s5, Get);
    var tail: seq<Event<P>> := [Get];
    assert Run(s5, tail, t) by { assert tail[1..] == [] && Run(t, [], t); }
    assert Run(s4, [Finally(0)] + tail, t) by { assert ([Finally(0)] + tail)[1..] == tail; }
    var tail3 := [Reject(0)] + ([Finally(0)] + tail);
    assert Run(s3, tail3, t) by { assert tail3[1..] == [Finally(0)] + tail; }
    var tail2 := [Get] + tail3;
    assert Run(s2, tail2, t) by { assert tail2[1..] == tail3; }
    var tail1 := [Invalidate] + tail2;
    assert Run(s1, tail1, t) by { assert tail1[1..] == tail2; }
    var all := [Get] + tail1;
    assert Run(s0, all, t) by { assert all[1..] == tail1; }
    assert all == [Get, Invalidate, Get, Reject(0), Finally(0), Get];
  }

  // ---------- when sharing fails ----------

  /** An unfinished request that is not the shared one. */
  ghost predicate Orphan<P>(s: State<P>) {
    exists id :: id in s.flights && s.request != Some(id)
  }

  /** Two unfinished requests of the current epoch. */
  ghost predicate Doubled<P>(s: State<P>) {
    exists a, b :: a in s.flights && b in s.flights && a != b && s.flights[a].issued == s.flights[b].issued == s.epoch
  }

  ghost predicate CanDouble<P(!new)>(s: State<P>) {
    exists events: seq<Event<P>>, t: State<P> :: Run(s, events, t) && NoInvalidation(events) && Doubled(t)
  }

  lemma NoNewOrphan<P>(s: State<P>, e: Event<P>)
    requires Inv(s) && !Orphan(s) && Enabled(s, e) && !e.Invalidate?
    ensures !Orphan(Next(s, e))
  {
    var t := Next(s, e);
    if e.Finally? {
      assert s.request == Some(e.id);
    }
    forall id | id in t.flights ensures t.request == Some(id) {
      assert id in s.flights ==> s.request == Some(id);
    }
  }

  lemma {:induction false} StaysShared<P(!new)>(s: State<P>, events: seq<Event<P>>, t: State<P>)
    requires Inv(s) && !Orphan(s)
    requires Run(s, events, t) && NoInvalidation(events)
    ensures !Doubled(t)
    decreases |events|
  {
    if events != [] {
      StepKeepsInv(s, events[0]);
      NoNewOrphan(s, events[0]);
      StaysShared(Next(s, events[0]), events[1..], t);
    }
  }

  lemma {:induction false} RunCons<P(!new)>(s: State<P>, e: Event<P>, events: seq<Event<P>>, t: State<P>)
    requires Enabled(s, e) && Run(Next(s, e), events, t) && NoInvalidation(events) && !e.Invalidate?
    ensures Run(s, [e] + events, t) && NoInvalidation([e] + events)
  {
    assert ([e] + events)[1..] == events;
  }

  /** The orphan finishes and clears the shared request, if there is one; the next call then
      issues a second request in the epoch. */
  lemma OrphanDoubles<P(!new)>(s: State<P>, id: nat)
    requires Inv(s) && id in s.flights && s.request != Some(id)
    ensures CanDouble(s)
  {
    var s1 := Next(s, Get);
    StepKeepsInv(s, Get);
    var shared := s1.request.value;
    assert shared != id && shared in s1.flights && s1.flights[shared].issued == s.epoch;
    var s2 := if s1.flights[id].pending then Next(s1, Reject(id)) else s1;
    assert s1.flights[id].pending ==> Enabled(s1, Reject(id));
    StepKeepsIfReject(s1, id);
    var s3 := Next(s2, Finally(id));
    var t := Next(s3, Get);
    assert shared in t.flights && s3.next in t.flights && shared < s3.next;
    assert t.flights[shared].issued == t.flights[s3.next].issued == t.epoch;
    assert Doubled(t);
    assert Run(t, [], t) && NoInvalidation<P>([]);
    RunCons(s3, Get, [], t);
    RunCons(s2, Finally(id), [Get] + [], t);
    if s1.flights[id].pending {
      RunCons(s1, Reject(id), [Finally(id)] + ([Get] + []), t);
      RunCons(s, Get, [Reject(id)] + ([Finally(id)] + ([Get] + [])), t);
    } else {
      RunCons(s, Get, [Finally(id)] + ([Get] + []), t);
    }
  }

  lemma StepKeepsIfReject<P>(s: State<P>, id: nat)
    requires Inv(s) && id in s.flights
    ensures s.flights[id].pending ==> Inv(Next(s, Reject(id)))
  {
    if s.flights[id].pending {
      StepKeepsInv(s, Reject(id));
    }
  }

  /** Exactly when two requests of one epoch can come to be outstanding without a further
      invalidation: when an unfinished request is not the shared one. */
  lemma DoubledIffOrphan<P(!new)>(s: State<P>)
    requires Inv(s)
    ensures CanDouble(s) <==> Orphan(s)
  {
    if Orphan(s) {
      var id :| id in s.flights && s.request != Some(id);
      OrphanDoubles(s, id);
    } else {
      forall events: seq<Event<P>>, t: State<P> | Run(s, events, t) && NoInvalidation(events) ensures !Doubled(t) {
        StaysShared(s, events, t);
      }
    }
  }

  // ---------- the modules ----------

  /** nodes.ts. A request is named by the number of its issue. */
  class NodesModule<P> {
    var nodeModelsRequest: Option<nat>
    var nodeModelsCache: Option<P>
    var issued: nat
    ghost var s: State<P>

    ghost predicate Valid()
      reads this
    {
      Inv(s) && s.request == nodeModelsRequest && s.cache == nodeModelsCache && s.next == issued
    }

    constructor ()
      ensures Valid() && s == Initial<P>()
    {
      nodeModelsRequest, nodeModelsCache, issued, s := None, None, 0, Initial<P>();
    }

    method GetNodeModels() returns (id: nat)
      requires Valid()
      modifies this
      ensures Valid() && s == Next(old(s), Get) && s.request == Some(id) && id in s.flights
      ensures old(nodeModelsRequest).Some? ==> Some(id) == old(nodeModelsRequest) && s == old(s)
    {
      StepKeepsInv(s, Get);
      s := Next(s, Get);
      if nodeModelsRequest.Some? {
        return nodeModelsRequest.value;
      }
      id := issued;
      issued := issued + 1;
      nodeModelsRequest := Some(id);
    }

    method OnFulfilled(id: nat, payload: P)
      requires Valid() && Enabled(s, Fulfil(id, payload))
      modifies this
      ensures Valid() && s == Next(old(s), Fulfil(id, payload))
    {
      StepKeepsInv(s, Fulfil(id, payload));
      s := Next(s, Fulfil(id, payload));
      nodeModelsCache := Some(payload);
    }

    /** No callback runs between a rejection and the `finally`. */
    ghost method OnRejected(id: nat)
      requires Valid() && Enabled(s, Reject(id))
      modifies this`s
      ensures Valid() && s == Next(old(s), Reject(id))
    {
      StepKeepsInv(s, Reject(id));
      s := Next(s, Reject(id));
    }

    method OnFinally(id: nat)
      requires Valid() && Enabled(s, Finally(id))
      modifies this
      ensures Valid() && s == Next(old(s), Finally(id))
    {
      StepKeepsInv(s, Finally(id));
      s := Next(s, Finally(id));
      nodeModelsRequest := None;
    }

    method InvalidateNodeModelsCache()
      requires Valid()
      modifies this
      ensures Valid() && s == Next(old(s), Invalidate)
    {
      StepKeepsInv(s, Invalidate);
      s := Next(s, Invalidate);
      nodeModelsCache := None;
      nodeModelsRequest := None;
    }

    /** startNodeModel, stopNodeModel, restartNodeModel, updateNode: what their response does. */
    method OnMutation(succeeded: bool)
      requires Valid()
      modifies this
      ensures Valid() && s == if succeeded then Next(old(s), Invalidate) else old(s)
    {
      if succeeded {
        InvalidateNodeModelsCache();
      }
    }

    method GetCachedNodeModels() returns (r: Option<P>)
      requires Valid()
      ensures r == s.cache
    {
      r := nodeModelsCache;
    }
  }

  /** health.ts: the same sharing without invalidation, so never a second request. */
  class HealthModule {
    var healthRequest: Option<nat>
    var issued: nat
    ghost var s: State<()>

    ghost predicate Valid()
      reads this
    {
      && Inv(s) && s.epoch == 0 && s.carried == {}
      && s.request == healthRequest && s.next == issued
      && |s.flights| <= 1
    }

    constructor ()
      ensures Valid() && s == Initial<()>()
    {
      healthRequest, issued, s := None, 0, Initial<()>();
    }

    method GetHealth() returns (id: nat)
      requires Valid()
      modifies this
      ensures Valid() && s == Next(old(s), Get) && s.flights.Keys == {id}
      ensures old(healthRequest).Some? ==> Some(id) == old(healthRequest)
    {
      StepKeepsInv(s, Get);
      s := Next(s, Get);
      if healthRequest.Some? {
        return healthRequest.value;
      }
      id := issued;
      issued := issued + 1;
      healthRequest := Some(id);
    }

    ghost method OnSettled(id: nat)
      requires Valid() && Enabled(s, Reject(id))
      modifies this`s
      ensures Valid() && s == Next(old(s), Reject(id))
    {
      StepKeepsInv(s, Reject(id));
      s := Next(s, Reject(id));
      assert s.flights.Keys == old(s).flights.Keys;
    }

    method OnFinally(id: nat)
      requires Valid() && Enabled(s, Finally(id))
      modifies this
      ensures Valid() && s == Next(old(s), Finally(id)) && s.flights == map[]
    {
      StepKeepsInv(s, Finally(id));
      s := Next(s, Finally(id));
      healthRequest := None;
    }
  }
}
