/**
 The progress stream of an agent run (`_agent_tool_progress_stream` in
 api/routes/openai_chat_completion.py) over the trace recorder (core/agent_tools/tracing.py):
 the runner emits trace events and closes the recorder when it ends, the response generator
 replays the recorded events, drains the queue and finishes. Their steps interleave freely.
 */
module AgentProgress {
  import opened Wrappers

  /** Event ids are the recorder's sequence numbers. */
  datatype TraceEvent = TraceEvent(id: nat, payload: string)

  datatype Result =
    | Returned(verification: Option<string>, response: string)
    | Raised(error: string)      // an Exception
    | Cancelled                  // anything wider

  datatype Sent =
    | Trace(event: TraceEvent)
    | ErrorPayload(error: string)
    | Verification(v: string)
    | Final(response: string)
    | DoneMarker

  /** `Replaying(i)`: inside the index loop of the recorder's stream; `Draining`: waiting on or
      reading its queue; `Awaiting`: past the close marker, at the runner's task. */
  datatype Phase = Replaying(i: nat) | Draining | Awaiting | Over(propagated: bool)

  /** `queue` holds None for the close marker. `popped` and `replayed` are history. */
  datatype State = State(
    events: seq<TraceEvent>,
    queue: seq<Option<TraceEvent>>,
    closed: bool,
    result: Option<Result>,
    phase: Phase,
    seen: set<nat>,
    sent: seq<Sent>,
    popped: nat,
    replayed: nat)

  datatype Event = Emit(payload: string) | End(result: Result) | Consume

  const INITIAL := State([], [], false, None, Replaying(0), {}, [], 0, 0)

  predicate Enabled(s: State, e: Event) {
    match e
    case Emit(_) => s.result.None?
    case End(_) => s.result.None?
    case Consume => ConsumerReady(s)
  }

  /** Reading the queue blocks while it is empty, awaiting the task blocks until it has ended. */
  predicate ConsumerReady(s: State) {
    match s.phase
    case Replaying(_) => true
    case Draining => s.queue != []
    case Awaiting => s.result.Some?
    case Over(_) => false
  }

  function Tail(r: Result): seq<Sent> {
    match r
    case Raised(e) => [ErrorPayload(e), DoneMarker]
    case Returned(v, response) =>
      (if v.Some? then [Verification(v.value)] else []) + [Final(response), DoneMarker]
    case Cancelled => []
  }

  function Traces(events: seq<TraceEvent>): seq<Sent> {
    if events == [] then [] else Traces(events[..|events| - 1]) + [Trace(events[|events| - 1])]
  }

  /** recorder.close */
  function Close(s: State): State {
    if s.closed then s else s.(closed := true, queue := s.queue + [None])
  }

  function Consumed(s: State): State
    requires ConsumerReady(s)
  {
    match s.phase
    case Replaying(i) =>
      if i < |s.events|
      then s.(phase := Replaying(i + 1), seen := s.seen + {s.events[i].id}, sent := s.sent + [Trace(s.events[i])])
      else s.(phase := Draining, replayed := i)
    case Draining =>
      var rest := s.(queue := s.queue[1..]);
      (match s.queue[0]
       case None => rest.(phase := Awaiting)
       case Some(e) =>
         if e.id in s.seen then rest.(popped := s.popped + 1)
         else rest.(popped := s.popped + 1, seen := s.seen + {e.id}, sent := s.sent + [Trace(e)]))
    case Awaiting => s.(phase := Over(s.result.value.Cancelled?), sent := s.sent + Tail(s.result.value))
    case Over(_) => s
  }

  function Next(s: State, e: Event): State
    requires Enabled(s, e)
  {
    match e
    case Emit(payload) =>
      var ev := TraceEvent(|s.events|, payload);
      s.(events := s.events + [ev], queue := if s.closed then s.queue else s.queue + [Some(ev)])
    case End(r) => Close(s.(result := Some(r)))
    case Consume => Consumed(s)
  }

  ghost predicate Run(s: State, steps: seq<Event>, t: State)
    decreases |steps|
  {
    if steps == [] then t == s
    else Enabled(s, steps[0]) && Run(Next(s, steps[0]), steps[1..], t)
  }

  // ---------- the invariant ----------

  function Wrapped(events: seq<TraceEvent>): seq<Option<TraceEvent>> {
    seq(|events|, i requires 0 <= i < |events| => Some(events[i]))
  }

  /** How many events have been sent. */
  function Progress(s: State): nat {
    match s.phase
    case Replaying(i) => i
    case _ => if s.popped < s.replayed then s.replayed else s.popped
  }

  ghost predicate Numbered(s: State) {
    forall i :: 0 <= i < |s.events| ==> s.events[i].id == i
  }

  /** What is still queued is what was emitted and not yet popped, then the close marker. */
  ghost predicate QueueAgrees(s: State) {
    && s.popped <= |s.events|
    && (s.closed <==> s.result.Some?)
    && (s.phase.Replaying? || s.phase.Draining? ==>
          s.queue == Wrapped(s.events[s.popped..]) + if s.closed then [None] else [])
    && (s.phase.Awaiting? || s.phase.Over? ==> s.closed && s.popped == |s.events| && s.queue == [])
    && (s.phase.Replaying? ==> s.popped == 0)
    && s.replayed <= |s.events|
  }

  ghost predicate SentAgrees(s: State) {
    && Progress(s) <= |s.events|
    && (forall id: nat :: id in s.seen <==> id < Progress(s))
    && s.sent == Traces(s.events[..Progress(s)]) + if s.phase.Over? && s.result.Some? then Tail(s.result.value) else []
  }

  ghost predicate Inv(s: State) {
    && Numbered(s) && QueueAgrees(s) && SentAgrees(s)
    && (s.phase.Over? ==> s.phase.propagated == (s.result == Some(Cancelled)))
  }

  lemma TracesSnoc(events: seq<TraceEvent>, k: nat)
    requires k < |events|
    ensures Traces(events[..k + 1]) == Traces(events[..k]) + [Trace(events[k])]
  {
    assert events[..k + 1][..k] == events[..k];
  }

  lemma InitialInv()
    ensures Inv(INITIAL)
  {
    var none: seq<TraceEvent> := [];
    assert none[0..] == [] && none[..0] == [] && Wrapped(none) == [];
  }

  lemma EmitKeepsInv(s: State, payload: string)
    requires Inv(s) && s.result.None?
    ensures Inv(Next(s, Emit(payload)))
  {
    var t := Next(s, Emit(payload));
    assert t.events[..Progress(s)] == s.events[..Progress(s)];
    assert t.events[t.popped..] == s.events[s.popped..] + [t.events[|s.events|]];
    assert Wrapped(t.events[t.popped..]) == Wrapped(s.events[s.popped..]) + [Some(t.events[|s.events|])];
  }

  lemma ReplayKeepsInv(s: State)
    requires Inv(s) && s.phase.Replaying?
    ensures Inv(Consumed(s))
  {
    if s.phase.i < |s.events| {
      TracesSnoc(s.events, s.phase.i);
    }
  }

  lemma DrainKeepsInv(s: State)
    requires Inv(s) && s.phase.Draining? && s.queue != []
    ensures Inv(Consumed(s))
  {
    hide Traces;
    var t := Consumed(s);
    QueueHead(s);
    if s.popped < |s.events| && Progress(s) == s.popped {
      TracesSnoc(s.events, s.popped);
    }
  }

  lemma QueueHead(s: State)
    requires QueueAgrees(s) && s.phase.Draining? && s.queue != []
    ensures s.popped == |s.events| ==> s.closed && s.queue == [None]
    ensures s.popped < |s.events| ==>
              && s.queue[0] == Some(s.events[s.popped])
              && s.queue[1..] == Wrapped(s.events[s.popped + 1..]) + if s.closed then [None] else []
  {
    var rest := s.events[s.popped..];
    if rest == [] {
      assert Wrapped(rest) == [];
    } else {
      assert Wrapped(rest)[1..] == Wrapped(s.events[s.popped + 1..]);
    }
  }

  lemma StepKeepsInv(s: State, e: Event)
    requires Inv(s) && Enabled(s, e)
    ensures Inv(Next(s, e))
  {
    match e
    case Emit(payload) => EmitKeepsInv(s, payload);
    case End(r) =>
    case Consume =>
      if s.phase.Replaying? {
        ReplayKeepsInv(s);
      } else if s.phase.Draining? {
        DrainKeepsInv(s);
      }
  }

  lemma {:induction false} RunKeepsInv(s: State, steps: seq<Event>, t: State)
    requires Inv(s) && Run(s, steps, t)
    ensures Inv(t)
    decreases |steps|
  {
    if steps != [] {
      StepKeepsInv(s, steps[0]);
      RunKeepsInv(Next(s, steps[0]), steps[1..], t);
    }
  }

  /** Over every interleaving: what a finished stream has sent is every trace event in order,
      each once, then the tail of the runner's outcome; before that, a prefix of the events. */
  lemma SentIsTracesThenTail(steps: seq<Event>, t: State)
    requires Run(INITIAL, steps, t)
    ensures !t.phase.Over? ==> exists k: nat :: k <= |t.events| && t.sent == Traces(t.events[..k])
    ensures t.phase.Over? ==> t.result.Some? && t.sent == Traces(t.events) + Tail(t.result.value)
    ensures t.phase.Over? ==> (t.phase.propagated <==> t.result == Some(Cancelled))
    // the tail, for each outcome of the runner
    ensures t.phase.Over? ==>
              var r, traces := t.result.value, Traces(t.events);
              && (r.Returned? && r.verification.Some? ==>
                    t.sent == traces + [Verification(r.verification.value), Final(r.response), DoneMarker])
              && (r.Returned? && r.verification.None? ==> t.sent == traces + [Final(r.response), DoneMarker])
              && (r.Raised? ==> t.sent == traces + [ErrorPayload(r.error), DoneMarker])
              && (r.Cancelled? ==> t.sent == traces)
  {
    InitialInv();
    RunKeepsInv(INITIAL, steps, t);
    if t.phase.Over? {
      assert t.events[..|t.events|] == t.events;
    } else {
      assert t.sent == Traces(t.events[..Progress(t)]);
    }
  }

  /** The k-th trace payload is the k-th event. */
  lemma {:induction false} TracesAt(events: seq<TraceEvent>)
    ensures |Traces(events)| == |events| && forall k :: 0 <= k < |events| ==> Traces(events)[k] == Trace(events[k])
  {
    if events != [] {
      TracesAt(events[..|events| - 1]);
    }
  }

  lemma {:induction false} NoDoneInTraces(events: seq<TraceEvent>)
    ensures multiset(Traces(events))[DoneMarker] == 0
  {
    if events != [] {
      NoDoneInTraces(events[..|events| - 1]);
    }
  }

  predicate EndsWith(sent: seq<Sent>, r: Result) {
    && |sent| >= 2 && sent[|sent| - 1] == DoneMarker
    && (r.Raised? ==> sent[|sent| - 2] == ErrorPayload(r.error))
    && (r.Returned? ==> sent[|sent| - 2] == Final(r.response))
  }

  lemma TailEnds(r: Result)
    ensures !r.Cancelled? ==> EndsWith(Tail(r), r)
    ensures multiset(Tail(r))[DoneMarker] == if r.Cancelled? then 0 else 1
  {
  }

  /** A finished stream has sent exactly one DONE, as its last payload, right after the one error
      or the one final; it has sent none exactly when the failure is passed on. */
  lemma OneDone(steps: seq<Event>, t: State)
    requires Run(INITIAL, steps, t) && t.phase.Over?
    ensures t.result.Some? && (t.phase.propagated <==> t.result.value.Cancelled?)
    ensures multiset(t.sent)[DoneMarker] == if t.phase.propagated then 0 else 1
    ensures !t.phase.propagated ==> EndsWith(t.sent, t.result.value)
  {
    hide Run, Tail, Traces;
    SentIsTracesThenTail(steps, t);
    NoDoneInTraces(t.events);
    TailEnds(t.result.value);
    var traces, tail := Traces(t.events), Tail(t.result.value);
    assert multiset(traces + tail) == multiset(traces) + multiset(tail);
  }

  // ---------- no waiting forever ----------

  function Remaining(s: State): nat {
    match s.phase
    case Replaying(i) => (if i <= |s.events| then |s.events| - i else 0) + |s.queue| + 3
    case Draining => |s.queue| + 2
    case Awaiting => 1
    case Over(_) => 0
  }

  /** Once the runner has ended, the consumer can always take its next step, and each step
      brings the end nearer. */
  lemma ConsumerProgress(s: State)
    requires Inv(s) && s.result.Some? && !s.phase.Over?
    ensures ConsumerReady(s)
    ensures var t := Consumed(s); t.result == s.result && t.events == s.events && Remaining(t) < Remaining(s)
  {
    if s.phase.Draining? {
      assert s.queue[|s.queue| - 1] == None;
    }
  }

  /** So it finishes, within a number of steps fixed by what is recorded and queued. */
  lemma {:induction false} ConsumerFinishes(s: State) returns (steps: seq<Event>, t: State)
    requires Inv(s) && s.result.Some?
    ensures Run(s, steps, t) && t.phase.Over? && |steps| <= Remaining(s)
    ensures t.events == s.events && forall i :: 0 <= i < |steps| ==> steps[i].Consume?
    decreases Remaining(s)
  {
    if s.phase.Over? {
      steps, t := [], s;
    } else {
      ConsumerProgress(s);
      StepKeepsInv(s, Consume);
      var rest;
      rest, t := ConsumerFinishes(Consumed(s));
      steps := [Consume] + rest;
      assert steps[1..] == rest;
    }
  }
}
