/**
 The per-thread turn lock (api/routes/threads.py) as an interleaving of requests on one
 thread. `acquire_turn_lock` hands the lock out in arrival order; a handler releases it, or,
 for a stream, hands it to the generator that produces the response body.
 */
module TurnLock {
  import opened Sequences

  datatype Kind = Compact | Message | Stream

  /** How the body of a handler can end. */
  datatype Failure =
    | KeyFailure | ThreadChatFailure | ValueFailure     // the except clauses of the stream handler
    | RoutingFailure                                    // ProjectRoutingError: only the message handler has a clause
    | Unavailable                                       // HTTPException 503: document collections not configured
    | OtherFailure

  /** `Responding`: the response object exists, its body has not been started. `Stuck`: the
      request is over and nobody will release its lock. */
  datatype Phase = Waiting | InHandler | Responding | Streaming | Finished | Stuck

  datatype Request = Request(kind: Kind, phase: Phase, acquired: nat, released: nat)

  datatype State = State(requests: map<nat, Request>, queue: seq<nat>, locked: bool)

  datatype Event =
    | Arrive(id: nat, kind: Kind)
    | Grant(id: nat)                       // the lock is free and `id` is first in line
    | GiveUp(id: nat)                      // cancelled while waiting
    | Return(id: nat)                      // the handler's try body succeeds
    | Fail(id: nat, failure: Failure)      // it raises
    | StartBody(id: nat)                   // the server starts iterating the response body
    | DropBody(id: nat)                    // the client is gone before it does
    | EndBody(id: nat)                     // exhausted, failed or closed: the generator's finally runs

  const INITIAL := State(map[], [], false)

  predicate Caught(f: Failure) {
    f.KeyFailure? || f.ThreadChatFailure? || f.ValueFailure?
  }

  predicate In(s: State, id: nat, p: Phase) {
    id in s.requests && s.requests[id].phase == p
  }

  predicate Enabled(s: State, e: Event) {
    match e
    case Arrive(id, _) => id !in s.requests
    case Grant(id) => !s.locked && s.queue != [] && s.queue[0] == id && In(s, id, Waiting)
    case GiveUp(id) => In(s, id, Waiting)
    case Return(id) => In(s, id, InHandler)
    case Fail(id, _) => In(s, id, InHandler)
    case StartBody(id) => In(s, id, Responding)
    case DropBody(id) => In(s, id, Responding)
    case EndBody(id) => In(s, id, Streaming)
  }

  function Move(s: State, id: nat, p: Phase): State
    requires id in s.requests
  {
    s.(requests := s.requests[id := s.requests[id].(phase := p)])
  }

  function Release(s: State, id: nat): State
    requires id in s.requests
  {
    var r := s.requests[id];
    s.(requests := s.requests[id := r.(phase := Finished, released := r.released + 1)], locked := false)
  }

  function Take(s: State, id: nat): State
    requires id in s.requests
  {
    var r := s.requests[id];
    s.(requests := s.requests[id := r.(phase := InHandler, acquired := r.acquired + 1)], locked := true)
  }

  function Next(s: State, e: Event): State
    requires Enabled(s, e)
  {
    match e
    case Arrive(id, kind) =>
      var s1 := s.(requests := s.requests[id := Request(kind, Waiting, 0, 0)]);
      if !s.locked && s.queue == [] then Take(s1, id) else s1.(queue := s.queue + [id])
    case Grant(id) => Take(s.(queue := s.queue[1..]), id)
    case GiveUp(id) => Move(s.(queue := Without(s.queue, id)), id, Finished)
    case Return(id) => if s.requests[id].kind.Stream? then Move(s, id, Responding) else Release(s, id)
    case Fail(id, f) => if s.requests[id].kind.Stream? && !Caught(f) then Move(s, id, Stuck) else Release(s, id)
    case StartBody(id) => Move(s, id, Streaming)
    case DropBody(id) => Move(s, id, Stuck)
    case EndBody(id) => Release(s, id)
  }

  /** The state after a run; a run is a sequence of events each enabled where it happens. */
  ghost predicate Run(s: State, events: seq<Event>, t: State)
    decreases |events|
  {
    if events == [] then t == s
    else Enabled(s, events[0]) && Run(Next(s, events[0]), events[1..], t)
  }

  // ---------- the invariant ----------

  /** The request is between its acquire and its release. */
  predicate Holds(p: Phase) {
    p.InHandler? || p.Responding? || p.Streaming? || p.Stuck?
  }

  predicate Books(r: Request) {
    match r.phase
    case Waiting => r.acquired == 0 && r.released == 0
    case Finished => r.acquired == r.released && r.acquired <= 1
    case _ => r.acquired == 1 && r.released == 0
  }

  ghost predicate Queued(s: State) {
    Distinct(s.queue) && forall id :: id in s.queue <==> In(s, id, Waiting)
  }

  ghost predicate Booked(s: State) {
    forall id :: id in s.requests ==> Books(s.requests[id])
  }

  predicate Holder(s: State, id: nat) {
    id in s.requests && Holds(s.requests[id].phase)
  }

  ghost predicate OneHolder(s: State) {
    && (s.locked <==> exists id :: Holder(s, id))
    && (forall a, b :: Holder(s, a) && Holder(s, b) ==> a == b)
  }

  ghost predicate Inv(s: State) {
    Booked(s) && OneHolder(s) && Queued(s)
  }

  lemma ArriveKeepsQueue(s: State, id: nat, kind: Kind)
    requires Queued(s) && Enabled(s, Arrive(id, kind))
    ensures Queued(Next(s, Arrive(id, kind)))
  {
    var t := Next(s, Arrive(id, kind));
    assert id in s.queue <==> In(s, id, Waiting);
    forall x ensures x in t.queue <==> In(t, x, Waiting) { assert x in s.queue <==> In(s, x, Waiting); }
  }

  lemma GrantKeepsQueue(s: State, id: nat)
    requires Queued(s) && Enabled(s, Grant(id))
    ensures Queued(Next(s, Grant(id)))
  {
    var t := Next(s, Grant(id));
    assert s.queue == [id] + t.queue;
    forall x ensures x in t.queue <==> In(t, x, Waiting) { assert x in s.queue <==> In(s, x, Waiting); }
  }

  lemma GiveUpKeepsQueue(s: State, id: nat)
    requires Queued(s) && Enabled(s, GiveUp(id))
    ensures Queued(Next(s, GiveUp(id)))
  {
    var t := Next(s, GiveUp(id));
    WithoutDistinct(s.queue, id);
    forall x ensures x in t.queue <==> In(t, x, Waiting) { WithoutAt(s.queue, id, x); }
  }

  lemma StepKeepsQueue(s: State, e: Event)
    requires Queued(s) && Enabled(s, e)
    ensures Queued(Next(s, e))
  {
    if e.Arrive? {
      ArriveKeepsQueue(s, e.id, e.kind);
    } else if e.Grant? {
      GrantKeepsQueue(s, e.id);
    } else if e.GiveUp? {
      GiveUpKeepsQueue(s, e.id);
    } else {
      var t := Next(s, e);
      forall x ensures x in t.queue <==> In(t, x, Waiting) { assert x in s.queue <==> In(s, x, Waiting); }
    }
  }

  lemma StepKeepsBooks(s: State, e: Event)
    requires Booked(s) && Enabled(s, e)
    ensures Booked(Next(s, e))
  {
  }

  lemma StepKeepsHolder(s: State, e: Event)
    requires OneHolder(s) && Enabled(s, e)
    ensures OneHolder(Next(s, e))
  {
    var t := Next(s, e);
    if e.Arrive? || e.GiveUp? {
      forall x ensures Holder(t, x) <==> Holder(s, x) || (x == e.id && !s.locked && t.locked) { }
      if s.locked {
        var h :| Holder(s, h);
        assert Holder(t, h);
      } else if t.locked {
        assert Holder(t, e.id);
      }
    } else {
      forall x | x != e.id ensures Holder(t, x) <==> Holder(s, x) { }
      assert e.Grant? || Holder(s, e.id);
      assert t.locked <==> Holder(t, e.id);
    }
  }

  /** Every step of every request keeps: each request's acquisitions and releases match its
      phase, the waiting requests are the queue, and the lock is held exactly when one single
      request holds it. */
  lemma StepKeepsInv(s: State, e: Event)
    requires Inv(s) && Enabled(s, e)
    ensures Inv(Next(s, e))
  {
    hide Next, Enabled, Booked, OneHolder, Queued;
    StepKeepsBooks(s, e);
    StepKeepsHolder(s, e);
    StepKeepsQueue(s, e);
  }

  /** Over every interleaving. */
  lemma {:induction false} RunKeepsInv(s: State, events: seq<Event>, t: State)
    requires Inv(s) && Run(s, events, t)
    ensures Inv(t)
    decreases |events|
  {
    hide Next, Enabled, Inv;
    if events != [] {
      StepKeepsInv(s, events[0]);
      RunKeepsInv(Next(s, events[0]), events[1..], t);
    }
  }

  /** Mutual exclusion, spelled out for a run from the start: the lock is held exactly when one
      request is between acquire and release, there is never a second one, and a request
      that is over without being stuck has released what it acquired, once. */
  lemma MutualExclusion(events: seq<Event>, t: State, a: nat, b: nat)
    requires Run(INITIAL, events, t)
    ensures Holder(t, a) && Holder(t, b) ==> a == b
    ensures t.locked <==> exists id :: Holder(t, id)
    ensures In(t, a, Finished) ==> t.requests[a].released == t.requests[a].acquired <= 1
    ensures Holder(t, a) ==> t.requests[a].acquired == 1 && t.requests[a].released == 0
  {
    InitialInv();
    RunKeepsInv(INITIAL, events, t);
    assert a in t.requests ==> Books(t.requests[a]);
  }

  // ---------- arrival order ----------

  function Arrivals(events: seq<Event>): seq<nat> {
    if events == [] then []
    else (if events[0].Arrive? then [events[0].id] else []) + Arrivals(events[1..])
  }

  ghost function Waiters(s: State): set<nat> {
    set id | id in s.requests && s.requests[id].phase == Waiting
  }

  /** `arrived` lists all requests so far, and the queue is those of them that still wait, in order. */
  ghost predicate InOrder(s: State, arrived: seq<nat>) {
    Distinct(arrived) && Elements(arrived) == s.requests.Keys && s.queue == Select(arrived, Waiters(s))
  }

  lemma ArriveKeepsOrder(s: State, id: nat, kind: Kind, arrived: seq<nat>)
    requires InOrder(s, arrived) && Enabled(s, Arrive(id, kind))
    ensures InOrder(Next(s, Arrive(id, kind)), arrived + [id])
  {
    hide Select;
    var t := Next(s, Arrive(id, kind));
    ElementsSnoc(arrived, id);
    InElements(arrived, id);
    assert id !in arrived;
    SelectConcat(arrived, [id], Waiters(t));
    forall x | x in arrived ensures x in Waiters(t) <==> x in Waiters(s) { InElements(arrived, x); }
    SelectSame(arrived, Waiters(s), Waiters(t));
    SelectOne(id, Waiters(t));
  }

  lemma SelectOne(id: nat, keep: set<nat>)
    ensures Select([id], keep) == if id in keep then [id] else []
  {
    assert [id][1..] == [];
  }

  lemma LeaveKeepsOrder(s: State, e: Event, arrived: seq<nat>)
    requires Inv(s) && InOrder(s, arrived) && Enabled(s, e) && !e.Arrive?
    ensures InOrder(Next(s, e), arrived)
  {
    hide Select, Distinct, Inv;
    var t := Next(s, e);
    assert t.requests.Keys == s.requests.Keys;
    if e.Grant? || e.GiveUp? {
      assert Waiters(t) == Waiters(s) - {e.id};
      SelectWithout(arrived, Waiters(s), e.id);
      if e.Grant? {
        QueueDistinct(s);
        HeadWithout(s.queue);
      }
    } else {
      assert Waiters(t) == Waiters(s);
    }
  }

  lemma QueueDistinct(s: State)
    requires Inv(s)
    ensures Distinct(s.queue)
  {
  }

  lemma HeadWithout(q: seq<nat>)
    requires q != [] && Distinct(q)
    ensures Without(q, q[0]) == q[1..]
  {
    WithoutAbsent(q[1..], q[0]);
  }

  lemma {:induction false} RunKeepsOrder(s: State, arrived: seq<nat>, events: seq<Event>, t: State)
    requires Inv(s) && InOrder(s, arrived) && Run(s, events, t)
    ensures InOrder(t, arrived + Arrivals(events))
    decreases |events|
  {
    hide Next, Enabled, Inv, InOrder;
    if events == [] {
      assert arrived + [] == arrived;
    } else {
      var e := events[0];
      StepKeepsInv(s, e);
      if e.Arrive? {
        ArriveKeepsOrder(s, e.id, e.kind, arrived);
        RunKeepsOrder(Next(s, e), arrived + [e.id], events[1..], t);
        assert (arrived + [e.id]) + Arrivals(events[1..]) == arrived + ([e.id] + Arrivals(events[1..]));
      } else {
        LeaveKeepsOrder(s, e, arrived);
        RunKeepsOrder(Next(s, e), arrived, events[1..], t);
        assert [] + Arrivals(events[1..]) == Arrivals(events[1..]);
      }
    }
  }

  function Acquired(s: State, id: nat): nat {
    if id in s.requests then s.requests[id].acquired else 0
  }

  /** Over every run the lock is handed out in arrival order: at no step does a request acquire it
      while one that arrived earlier is still waiting. */
  lemma NoOvertaking(events: seq<Event>, s: State, e: Event, i: nat, j: nat)
    requires Run(INITIAL, events, s) && Enabled(s, e)
    requires var order := Arrivals(events + [e]);
             i < j < |order| && Acquired(Next(s, e), order[j]) > Acquired(s, order[j])
    ensures !In(s, Arrivals(events + [e])[i], Waiting)
  {
    hide Arrivals, Select, Run, Inv, Next, Enabled, Acquired, Waiters, Distinct;
    InitialInv();
    RunKeepsInv(INITIAL, events, s);
    RunKeepsOrder(INITIAL, [], events, s);
    var before, order := Arrivals(events), Arrivals(events + [e]);
    assert [] + before == before;
    ArrivalsSnoc(events, e);
    var x, y := order[j], order[i];
    AcquireMeans(s, e, x);
    WaitersAre(s, x);
    WaitersAre(s, y);
    if e.Grant? {
      assert order == before;
      SelectAt(before, Waiters(s), x);
      SelectHead(before, Waiters(s), i, j);
    } else {
      assert order == before + [e.id] && order[i] == before[i];
      SelectAt(before, Waiters(s), y);
    }
  }

  lemma WaitersAre(s: State, x: nat)
    ensures x in Waiters(s) <==> In(s, x, Waiting)
  {
  }

  /** A request acquires the lock as the head of the queue, or on arrival at an empty one. */
  lemma AcquireMeans(s: State, e: Event, x: nat)
    requires Enabled(s, e) && Acquired(Next(s, e), x) > Acquired(s, x)
    ensures e.Grant? || e.Arrive?
    ensures e.id == x
    ensures e.Grant? ==> s.queue != [] && s.queue[0] == x && In(s, x, Waiting)
    ensures e.Arrive? ==> s.queue == []
  {
  }

  lemma InitialInv()
    ensures Inv(INITIAL) && InOrder(INITIAL, [])
  {
  }

  lemma {:induction false} ArrivalsSnoc(events: seq<Event>, e: Event)
    ensures Arrivals(events + [e]) == Arrivals(events) + if e.Arrive? then [e.id] else []
  {
    if events == [] {
      assert [] + [e] == [e] && [e][1..] == [];
    } else {
      assert (events + [e])[1..] == events[1..] + [e];
      ArrivalsSnoc(events[1..], e);
      var head := if events[0].Arrive? then [events[0].id] else [];
      ConcatAssoc(head, Arrivals(events[1..]), if e.Arrive? then [e.id] else []);
    }
  }

  /** Nothing that is kept comes before the first element kept. */
  lemma {:induction false} SelectHead(s: seq<nat>, keep: set<nat>, i: nat, j: nat)
    requires i < j < |s| && Distinct(s) && s[j] in keep
    requires Select(s, keep) != [] && Select(s, keep)[0] == s[j]
    ensures s[i] !in keep
    decreases |s|
  {
    var head, first := s[0], Select(s, keep)[0];
    assert head in keep ==> first == head;
    assert head !in keep ==> Select(s, keep) == Select(s[1..], keep);
    if i > 0 {
      SelectHead(s[1..], keep, i - 1, j - 1);
    }
  }

  // ---------- when a lock is lost ----------

  /** The two ways out that release nothing: an exception the stream handler has no clause for,
      and a response body that is never started. */
  predicate Loses(s: State, e: Event) {
    || (e.Fail? && e.id in s.requests && s.requests[e.id].kind.Stream? && !Caught(e.failure))
    || e.DropBody?
  }

  /** In the terms of the handlers: a failing handler releases the lock except that of a stream when
      the failure is not one of the three it has clauses for. */
  lemma FailureReleases(s: State, id: nat, f: Failure)
    requires Inv(s) && In(s, id, InHandler)
    ensures var t := Next(s, Fail(id, f));
            var kept := s.requests[id].kind.Stream? && (f.RoutingFailure? || f.Unavailable? || f.OtherFailure?);
            && t.locked == kept && t.requests[id].released == (if kept then 0 else 1)
            && (Loses(s, Fail(id, f)) <==> kept)
  {
    assert Holder(s, id) && Books(s.requests[id]);
  }

  /** No other event loses the lock but a response body that is never started. */
  lemma OnlyTheseLose(s: State, e: Event)
    requires Enabled(s, e)
    ensures Loses(s, e) ==> e.Fail? || e.DropBody?
    ensures e.DropBody? ==> Loses(s, e)
  {
  }

  ghost predicate RunLoses(s: State, events: seq<Event>)
    decreases |events|
  {
    events != [] && Enabled(s, events[0]) && (Loses(s, events[0]) || RunLoses(Next(s, events[0]), events[1..]))
  }

  ghost predicate AnyStuck(s: State) {
    exists id :: In(s, id, Stuck)
  }

  lemma StepStuck(s: State, e: Event)
    requires Enabled(s, e)
    ensures AnyStuck(Next(s, e)) <==> AnyStuck(s) || Loses(s, e)
  {
    var t := Next(s, e);
    forall x | x != e.id ensures In(t, x, Stuck) <==> In(s, x, Stuck) { }
    assert !In(s, e.id, Stuck);
    assert In(t, e.id, Stuck) <==> Loses(s, e);
  }

  /** A run ends with a lock lost if and only if one of its events lost it: with the stream
      handler failing only in the three ways it has clauses for, and every returned body
      started, every acquisition is released. */
  lemma {:induction false} LostIffLosingEvent(s: State, events: seq<Event>, t: State)
    requires Run(s, events, t)
    ensures AnyStuck(t) <==> AnyStuck(s) || RunLoses(s, events)
    decreases |events|
  {
    hide Next, Enabled, Loses, AnyStuck;
    if events != [] {
      StepStuck(s, events[0]);
      LostIffLosingEvent(Next(s, events[0]), events[1..], t);
    }
  }

  /** Once lost, lost for good: in no continuation is the lock freed or taken again. */
  lemma {:induction false} LostForever(s: State, events: seq<Event>, t: State, h: nat)
    requires Inv(s) && In(s, h, Stuck) && Run(s, events, t)
    ensures In(t, h, Stuck) && t.locked
    ensures forall id :: id in t.requests ==>
              t.requests[id].acquired == if id in s.requests then s.requests[id].acquired else 0
    decreases |events|
  {
    assert Holder(s, h);
    if events != [] {
      var e := events[0];
      StepKeepsInv(s, e);
      LostOneStep(s, e, h);
      LostForever(Next(s, e), events[1..], t, h);
    }
  }

  lemma LostOneStep(s: State, e: Event, h: nat)
    requires Inv(s) && In(s, h, Stuck) && Enabled(s, e)
    ensures In(Next(s, e), h, Stuck)
    ensures s.requests.Keys <= Next(s, e).requests.Keys
    ensures forall id :: id in Next(s, e).requests ==>
              Next(s, e).requests[id].acquired == if id in s.requests then s.requests[id].acquired else 0
  {
    assert Holder(s, h);
  }

  /** The 503 of the document context, raised inside the stream handler: the next request on
      the thread never gets its turn. */
  lemma UnavailableStrandsTheThread(events: seq<Event>, t: State)
    requires var s := Next(Next(Next(INITIAL, Arrive(0, Stream)), Fail(0, Unavailable)), Arrive(1, Message));
             Run(s, events, t)
    ensures In(t, 0, Stuck) && t.locked && 1 in t.requests && t.requests[1].acquired == 0
  {
    var s0 := Next(INITIAL, Arrive(0, Stream));
    var s1 := Next(s0, Fail(0, Unavailable));
    var s := Next(s1, Arrive(1, Message));
    assert Run(INITIAL, [Arrive(0, Stream), Fail(0, Unavailable), Arrive(1, Message)], s) by {
      var es := [Arrive(0, Stream), Fail(0, Unavailable), Arrive(1, Message)];
      assert es[1..][1..][1..] == [] && es[1..][0] == es[1] && es[1..][1..][0] == es[2];
    }
    assert Inv(INITIAL);
    RunKeepsInv(INITIAL, [Arrive(0, Stream), Fail(0, Unavailable), Arrive(1, Message)], s);
    LostForever(s, events, t, 0);
    RequestsStay(s, events, t);
  }

  lemma {:induction false} RequestsStay(s: State, events: seq<Event>, t: State)
    requires Run(s, events, t)
    ensures s.requests.Keys <= t.requests.Keys
    decreases |events|
  {
    if events != [] {
      RequestsStay(Next(s, events[0]), events[1..], t);
    }
  }

  // ---------- recovery ----------

  function Rank(p: Phase): nat {
    match p
    case InHandler => 3
    case Responding => 2
    case Streaming => 1
    case _ => 0
  }

  lemma {:induction false} RunCons(s: State, e: Event, events: seq<Event>, t: State)
    requires Enabled(s, e) && Run(Next(s, e), events, t)
    ensures Run(s, [e] + events, t)
  {
    assert ([e] + events)[1..] == events;
  }

  /** The event that moves the holder on. */
  function Onward(s: State, h: nat): Event
    requires Holder(s, h) && !In(s, h, Stuck)
  {
    match s.requests[h].phase
    case InHandler => Return(h)
    case Responding => StartBody(h)
    case _ => EndBody(h)
  }

  lemma OnwardStep(s: State, h: nat)
    requires Inv(s) && Holder(s, h) && !AnyStuck(s)
    ensures Enabled(s, Onward(s, h)) && !AnyStuck(Next(s, Onward(s, h)))
    ensures var t := Next(s, Onward(s, h));
            && t.queue == s.queue
            && (t.locked ==> Holder(t, h) && Rank(t.requests[h].phase) < Rank(s.requests[h].phase))
  {
    assert !In(s, h, Stuck);
    StepStuck(s, Onward(s, h));
  }

  /** From a state where nothing is lost, the requests under way can all be brought to an end. */
  lemma {:induction false} Drain(s: State, h: nat) returns (events: seq<Event>, t: State)
    requires Inv(s) && !AnyStuck(s) && (s.locked ==> Holder(s, h))
    ensures Run(s, events, t) && !t.locked && t.queue == []
    decreases 4 * |s.queue| + if s.locked then Rank(s.requests[h].phase) else 0
  {
    if s.locked {
      OnwardStep(s, h);
      var e := Onward(s, h);
      StepKeepsInv(s, e);
      events, t := Drain(Next(s, e), h);
      RunCons(s, e, events, t);
      events := [e] + events;
    } else if s.queue != [] {
      var e := Grant(s.queue[0]);
      assert s.queue[0] in s.queue;
      StepKeepsInv(s, e);
      StepStuck(s, e);
      events, t := Drain(Next(s, e), s.queue[0]);
      RunCons(s, e, events, t);
      events := [e] + events;
    } else {
      events, t := [], s;
    }
  }

  ghost predicate Freeable(s: State) {
    exists events: seq<Event>, t: State :: Run(s, events, t) && !t.locked && t.queue == []
  }

  /** The thread can be freed again if and only if no lock has been lost on it. */
  lemma FreeableIffNothingLost(s: State)
    requires Inv(s)
    ensures Freeable(s) <==> !AnyStuck(s)
  {
    if AnyStuck(s) {
      var h :| In(s, h, Stuck);
      forall events: seq<Event>, t: State | Run(s, events, t) ensures t.locked {
        LostForever(s, events, t, h);
      }
    } else {
      var h: nat := 0;
      if s.locked {
        var k: nat :| Holder(s, k);
        h := k;
      }
      var events, t := Drain(s, h);
      assert Run(s, events, t) && !t.locked && t.queue == [];
    }
  }
}
