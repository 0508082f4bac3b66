/**
 The observable history of plugin background tasks: which start callbacks completed or
 raised, and which stop callbacks were attempted. Everything here is about finite traces;
 `PluginHost` ties the traces to the mutable task records.
 */
module TaskTrace {
  import opened Wrappers
  import opened Sequences

  /** Python separates `Exception` from the wider `BaseException` (cancellation, exit). */
  datatype Failure = Exception(code: int) | BaseException(code: int)

  datatype Outcome = Normal | Raises(error: Failure)

  datatype Event<T> =
    | Started(task: T)
    | StartRaised(task: T, error: Failure)
    | StopTried(task: T, outcome: Outcome)

  function StartEvent<T>(t: T, o: Outcome): Event<T> {
    match o
    case Normal => Started(t)
    case Raises(f) => StartRaised(t, f)
  }

  // ---------- what a trace says ----------

  function Advance<T(==)>(live: seq<T>, e: Event<T>): seq<T> {
    match e
    case Started(t) => live + [t]
    case StartRaised(_, _) => live
    case StopTried(t, _) => Without(live, t)
  }

  /** The tasks that are up after `log`, oldest completed start first. */
  function Live<T(==)>(log: seq<Event<T>>): seq<T> {
    if log == [] then [] else Advance(Live(log[..|log| - 1]), log[|log| - 1])
  }

  /** A task is started only when it is down, and stopped only when it is up. */
  predicate Alternates<T(==)>(log: seq<Event<T>>) {
    log == [] ||
    (&& Alternates(log[..|log| - 1])
     && (log[|log| - 1].StopTried? <==> log[|log| - 1].task in Live(log[..|log| - 1])))
  }

  function StartCount<T(==)>(log: seq<Event<T>>, t: T): nat {
    if log == [] then 0 else
      StartCount(log[..|log| - 1], t) + if log[|log| - 1] == Started(t) then 1 else 0
  }

  function StopCount<T(==)>(log: seq<Event<T>>, t: T): nat {
    if log == [] then 0 else
      var e := log[|log| - 1];
      StopCount(log[..|log| - 1], t) + if e.StopTried? && e.task == t then 1 else 0
  }

  /** Position of the last completed start of `t`, or -1. */
  function LastStart<T(==)>(log: seq<Event<T>>, t: T): int {
    if log == [] then -1
    else if log[|log| - 1] == Started(t) then |log| - 1
    else LastStart(log[..|log| - 1], t)
  }

  /** The tasks whose start completed, in completion order. */
  function Starts<T>(log: seq<Event<T>>): seq<T> {
    if log == [] then [] else
      Starts(log[..|log| - 1]) + if log[|log| - 1].Started? then [log[|log| - 1].task] else []
  }

  /** The tasks whose stop callback was called, in call order. */
  function StopAttempts<T>(log: seq<Event<T>>): seq<T> {
    if log == [] then [] else
      StopAttempts(log[..|log| - 1]) + if log[|log| - 1].StopTried? then [log[|log| - 1].task] else []
  }

  predicate OnlyStops<T>(log: seq<Event<T>>) {
    forall i :: 0 <= i < |log| ==> log[i].StopTried?
  }

  predicate NoStops<T>(log: seq<Event<T>>) {
    forall i :: 0 <= i < |log| ==> !log[i].StopTried?
  }

  /** The error of the earliest stop that raised. */
  function FirstStopError<T>(log: seq<Event<T>>): Option<Failure> {
    if log == [] then None
    else if log[0].StopTried? && log[0].outcome.Raises? then Some(log[0].outcome.error)
    else FirstStopError(log[1..])
  }

  // ---------- lemmas on traces ----------

  lemma Snoc<T>(log: seq<Event<T>>, e: Event<T>)
    ensures (log + [e])[..|log|] == log && (log + [e])[|log|] == e
    ensures Live(log + [e]) == Advance(Live(log), e)
    ensures Alternates(log + [e]) <==> Alternates(log) && (e.StopTried? <==> e.task in Live(log))
  {
    assert (log + [e])[..|log + [e]| - 1] == log;
  }

  /** Along an alternating trace a task is up exactly when its completed starts exceed its
      attempted stops by one; otherwise they are equal, and no task is up twice. */
  lemma {:induction false} UpMeansOneMoreStart<T>(log: seq<Event<T>>, t: T)
    requires Alternates(log)
    ensures StartCount(log, t) == StopCount(log, t) + if t in Live(log) then 1 else 0
    ensures Distinct(Live(log))
  {
    if log != [] {
      var before := log[..|log| - 1];
      UpMeansOneMoreStart(before, t);
      match log[|log| - 1]
      case Started(u) =>
      case StartRaised(_, _) =>
      case StopTried(u, _) =>
        WithoutAt(Live(before), u, t);
        WithoutDistinct(Live(before), u);
    }
  }

  /** `Live` really is ordered by the time of the last completed start. */
  lemma {:induction false} LiveIsOrderedByStart<T>(log: seq<Event<T>>)
    requires Alternates(log)
    ensures forall i, j :: 0 <= i < j < |Live(log)| ==> LastStart(log, Live(log)[i]) < LastStart(log, Live(log)[j])
    ensures forall t :: t in Live(log) ==> 0 <= LastStart(log, t)
    ensures forall t :: LastStart(log, t) < |log|
  {
    if log != [] {
      var before := log[..|log| - 1];
      LiveIsOrderedByStart(before);
      var live := Live(before);
      var key := t => LastStart(before, t);
      match log[|log| - 1]
      case Started(u) =>
        forall i, j | 0 <= i < j < |Live(log)|
          ensures LastStart(log, Live(log)[i]) < LastStart(log, Live(log)[j])
        {
          assert Live(log) == live + [u] && live[i] in live;
          assert LastStart(log, live[i]) == LastStart(before, live[i]);
          if j < |live| {
            assert live[j] in live;
            assert LastStart(log, live[j]) == LastStart(before, live[j]);
          }
        }
      case StartRaised(_, _) =>
      case StopTried(u, _) =>
        assert OrderedBy(live, key);
        WithoutKeepsOrder(live, u, key);
        assert forall i, j :: 0 <= i < j < |Live(log)| ==> key(Live(log)[i]) < key(Live(log)[j]);
        forall t { WithoutAt(live, u, t); }
    }
  }

  /** Without a stop in between, the live tasks are the old ones followed by the completed starts. */
  lemma {:induction false} LiveAfterStarts<T>(log: seq<Event<T>>, more: seq<Event<T>>)
    requires NoStops(more)
    ensures Live(log + more) == Live(log) + Starts(more)
  {
    if more == [] {
      assert log + more == log;
    } else {
      var n := |more| - 1;
      LiveAfterStarts(log, more[..n]);
      assert log + more == (log + more[..n]) + [more[n]];
      Snoc(log + more[..n], more[n]);
    }
  }

  /** First-error collection distributes over concatenation: this is why the error a nested
      loop re-raises is the first one of the flattened order. */
  lemma {:induction false} FirstStopErrorConcat<T>(a: seq<Event<T>>, b: seq<Event<T>>)
    ensures FirstStopError(a + b) == if FirstStopError(a).Some? then FirstStopError(a) else FirstStopError(b)
  {
    if a == [] {
      assert a + b == b;
    } else {
      assert (a + b)[1..] == a[1..] + b;
      FirstStopErrorConcat(a[1..], b);
    }
  }

  /** The collected error is absent iff no stop raised, and otherwise it belongs to a stop
      before which none raised. */
  lemma {:induction false} FirstStopErrorIsFirst<T>(log: seq<Event<T>>)
    requires OnlyStops(log)
    ensures FirstStopError(log).None? <==> forall i :: 0 <= i < |log| ==> log[i].outcome.Normal?
    ensures FirstStopError(log).Some? ==>
              exists k :: && 0 <= k < |log|
                          && log[k].outcome == Raises(FirstStopError(log).value)
                          && forall i :: 0 <= i < k ==> log[i].outcome.Normal?
  {
    if log != [] && log[0].outcome.Normal? {
      FirstStopErrorIsFirst(log[1..]);
      assert forall i :: 0 < i < |log| ==> log[i] == log[1..][i - 1];
      if FirstStopError(log).Some? {
        var k :| && 0 <= k < |log[1..]|
                 && log[1..][k].outcome == Raises(FirstStopError(log[1..]).value)
                 && forall i :: 0 <= i < k ==> log[1..][i].outcome.Normal?;
        assert log[k + 1].outcome == Raises(FirstStopError(log).value);
        assert forall i :: 0 < i < k + 1 ==> log[i] == log[1..][i - 1];
      }
    }
  }

  lemma EndsWithLater<T>(a: seq<Event<T>>, b: seq<Event<T>>, t: T, f: Failure)
    requires EndsWithRaise(b, t, f)
    ensures EndsWithRaise(a + b, t, f)
  {
  }

  lemma StopAttemptsSnoc<T>(log: seq<Event<T>>, e: Event<T>)
    ensures StopAttempts(log + [e]) == StopAttempts(log) + if e.StopTried? then [e.task] else []
  {
    Snoc(log, e);
  }

  lemma {:induction false} StopAttemptsConcat<T>(a: seq<Event<T>>, b: seq<Event<T>>)
    ensures StopAttempts(a + b) == StopAttempts(a) + StopAttempts(b)
  {
    if b == [] {
      assert a + b == a;
    } else {
      var n := |b| - 1;
      StopAttemptsConcat(a, b[..n]);
      assert a + b == (a + b[..n]) + [b[n]];
      StopAttemptsSnoc(a + b[..n], b[n]);
      ConcatAssoc(StopAttempts(a), StopAttempts(b[..n]), if b[n].StopTried? then [b[n].task] else []);
    }
  }

  /** In a trace of stops only, the k-th attempt is the k-th event. */
  lemma {:induction false} StopAttemptsAt<T>(log: seq<Event<T>>)
    requires OnlyStops(log)
    ensures |StopAttempts(log)| == |log| && forall k :: 0 <= k < |log| ==> StopAttempts(log)[k] == log[k].task
  {
    if log != [] {
      StopAttemptsAt(log[..|log| - 1]);
    }
  }

  /** `stops` attempted the kept elements of `s`, last element first. */
  ghost predicate Mirrors<T>(stops: seq<Event<T>>, s: seq<T>, keep: set<T>) {
    OnlyStops(stops) && StopAttempts(stops) == Reversed(Select(s, keep))
  }

  lemma MirrorsNil<T>(keep: set<T>)
    ensures Mirrors<T>([], [], keep) && FirstStopError<T>([]) == None && Elements<T>([]) == {}
  {
  }

  lemma MirrorsMeans<T>(stops: seq<Event<T>>, s: seq<T>, keep: set<T>)
    requires Mirrors(stops, s, keep)
    ensures OnlyStops(stops) && StopAttempts(stops) == Reversed(Select(s, keep))
  {
  }

  lemma MirrorsSkip<T>(stops: seq<Event<T>>, s: seq<T>, i: nat, keep: set<T>)
    requires i < |s| && s[i] !in keep
    requires Mirrors(stops, s[i + 1..], keep)
    ensures Mirrors(stops, s[i..], keep)
  {
    assert s[i..][1..] == s[i + 1..];
    assert Select(s[i..], keep) == [] + Select(s[i + 1..], keep) == Select(s[i + 1..], keep);
  }

  lemma MirrorsStop<T>(stops: seq<Event<T>>, s: seq<T>, i: nat, keep: set<T>, o: Outcome)
    requires i < |s| && s[i] in keep
    requires Mirrors(stops, s[i + 1..], keep)
    ensures Mirrors(stops + [StopTried(s[i], o)], s[i..], keep)
    ensures FirstStopError(stops + [StopTried(s[i], o)]) ==
              if FirstStopError(stops).None? && o.Raises? then Some(o.error) else FirstStopError(stops)
  {
    var e := StopTried(s[i], o);
    var done := Select(s[i + 1..], keep);
    StopAttemptsSnoc(stops, e);
    FirstStopErrorConcat(stops, [e]);
    assert [e][1..] == [] && ([s[i]] + done)[1..] == done;
    assert s[i..][1..] == s[i + 1..];
  }

  lemma MirrorsSame<T>(stops: seq<Event<T>>, s: seq<T>, keep: set<T>, keep': set<T>)
    requires Mirrors(stops, s, keep)
    requires forall x :: x in s ==> (x in keep <==> x in keep')
    ensures Mirrors(stops, s, keep')
  {
    SelectSame(s, keep, keep');
  }

  /** Two runs of stops, the later one for the earlier part of the sequence. */
  lemma MirrorsConcat<T>(later: seq<Event<T>>, earlier: seq<Event<T>>, a: seq<T>, b: seq<T>, keep: set<T>)
    requires Mirrors(later, b, keep) && Mirrors(earlier, a, keep)
    ensures Mirrors(later + earlier, a + b, keep)
  {
    StopAttemptsConcat(later, earlier);
    SelectConcat(a, b, keep);
    ReversedConcat(Select(a, keep), Select(b, keep));
  }

  /** A run of start callbacks that completed for exactly `s[a..b]`, in order. */
  ghost predicate Climbs<T>(more: seq<Event<T>>, s: seq<T>, a: nat, b: nat) {
    a <= b <= |s| && NoStops(more) && Starts(more) == s[a..b]
  }

  lemma ClimbsStart<T>(more: seq<Event<T>>, s: seq<T>, a: nat, b: nat)
    requires Climbs(more, s, a, b) && b < |s|
    ensures Climbs(more + [StartEvent(s[b], Normal)], s, a, b + 1)
    ensures Elements(s[a..b + 1]) == Elements(s[a..b]) + {s[b]}
  {
    Snoc(more, Started(s[b]));
    assert s[a..b + 1] == s[a..b] + [s[b]];
    ElementsSnoc(s[a..b], s[b]);
  }

  lemma ClimbsRaise<T>(more: seq<Event<T>>, s: seq<T>, a: nat, b: nat, t: T, f: Failure)
    requires Climbs(more, s, a, b)
    ensures Climbs(more + [StartEvent(t, Raises(f))], s, a, b)
    ensures EndsWithRaise(more + [StartEvent(t, Raises(f))], t, f)
  {
    Snoc(more, StartRaised(t, f));
  }

  lemma ClimbsNil<T>(s: seq<T>, a: nat)
    requires a <= |s|
    ensures Climbs<T>([], s, a, a) && Elements(s[a..a]) == {}
  {
  }

  /** A finished run over `s` followed by a run over `t`. */
  lemma ClimbsConcat<T>(more: seq<Event<T>>, s: seq<T>, next: seq<Event<T>>, t: seq<T>, b: nat)
    requires Climbs(more, s, 0, |s|) && Climbs(next, t, 0, b)
    ensures Climbs(more + next, s + t, 0, |s| + b)
  {
    StartsConcat(more, next);
    assert (s + t)[0..|s| + b] == s[0..|s|] + t[0..b];
  }

  lemma ClimbsWiden<T>(more: seq<Event<T>>, s: seq<T>, b: nat, rest: seq<T>)
    requires Climbs(more, s, 0, b)
    ensures Climbs(more, s + rest, 0, b) && (b < |s| ==> (s + rest)[b] == s[b])
  {
    assert (s + rest)[0..b] == s[0..b];
  }

  lemma {:induction false} StartsConcat<T>(a: seq<Event<T>>, b: seq<Event<T>>)
    ensures Starts(a + b) == Starts(a) + Starts(b)
  {
    if b == [] {
      assert a + b == a;
    } else {
      var n := |b| - 1;
      StartsConcat(a, b[..n]);
      assert a + b == (a + b[..n]) + [b[n]];
      Snoc(a + b[..n], b[n]);
    }
  }

  predicate EndsWithRaise<T(==)>(log: seq<Event<T>>, t: T, f: Failure) {
    log != [] && log[|log| - 1] == StartRaised(t, f)
  }

  // ---------- the trace and the task flags ----------

  /** Nothing at or after position `k` runs. */
  ghost predicate QuietFrom<T>(listed: seq<T>, running: set<T>, k: nat) {
    forall j :: k <= j < |listed| ==> listed[j] !in running
  }

  lemma QuietLater<T>(listed: seq<T>, running: set<T>, k: nat, k': nat)
    requires QuietFrom(listed, running, k) && k <= k'
    ensures QuietFrom(listed, running, k')
  {
  }

  /** `running` is the set of tasks whose flag is set, `listed` the registry's tasks in order:
      the flags say what the trace says, nothing outside the registry runs, and the registry
      lists the running tasks in the order in which they were started. */
  ghost predicate Agrees<T>(listed: seq<T>, running: set<T>, log: seq<Event<T>>) {
    && Distinct(listed)
    && Alternates(log)
    && running == Elements(Live(log))
    && Live(log) == Select(listed, running)
  }

  lemma AgreesListed<T>(listed: seq<T>, running: set<T>, log: seq<Event<T>>)
    requires Agrees(listed, running, log)
    ensures forall t :: t in running ==> t in listed
  {
    forall t | t in running ensures t in listed {
      SelectAt(listed, running, t);
    }
  }

  /** Registering tasks that are down at the end, or dropping a stretch that is down, changes nothing. */
  lemma AgreesAppend<T>(listed: seq<T>, running: set<T>, log: seq<Event<T>>, more: seq<T>)
    requires Agrees(listed, running, log) && Distinct(listed + more)
    requires forall t :: t in more ==> t !in running
    ensures Agrees(listed + more, running, log)
    ensures QuietFrom(listed + more, running, |listed|)
  {
    SelectConcat(listed, more, running);
    SelectNone(more, running);
    assert forall j :: |listed| <= j < |listed + more| ==> (listed + more)[j] in more;
  }

  lemma AgreesDrop<T>(a: seq<T>, b: seq<T>, c: seq<T>, running: set<T>, log: seq<Event<T>>)
    requires Agrees(a + b + c, running, log)
    requires forall t :: t in b ==> t !in running
    ensures Agrees(a + c, running, log)
  {
    SelectConcat(a + b, c, running);
    SelectConcat(a, b, running);
    SelectConcat(a, c, running);
    SelectNone(b, running);
    var all, rest := a + b + c, a + c;
    forall i, j | 0 <= i < j < |rest| ensures rest[i] != rest[j] {
      assert rest[i] == all[if i < |a| then i else i + |b|];
      assert rest[j] == all[if j < |a| then j else j + |b|];
    }
  }

  lemma AgreesStop<T>(listed: seq<T>, running: set<T>, log: seq<Event<T>>, t: T, o: Outcome)
    requires Agrees(listed, running, log) && t in running
    ensures Agrees(listed, running - {t}, log + [StopTried(t, o)])
  {
    Snoc(log, StopTried(t, o));
    SelectWithout(listed, running, t);
    ElementsWithout(Live(log), t);
  }

  lemma AgreesStart<T>(listed: seq<T>, running: set<T>, log: seq<Event<T>>, k: nat)
    requires Agrees(listed, running, log)
    requires k < |listed| && QuietFrom(listed, running, k)
    ensures Agrees(listed, running + {listed[k]}, log + [Started(listed[k])])
    ensures QuietFrom(listed, running + {listed[k]}, k + 1)
  {
    var t := listed[k];
    assert t !in running;
    assert t !in Live(log) by { InElements(Live(log), t); }
    Snoc(log, Started(t));
    SelectGrows(listed, running, k);
    ElementsSnoc(Live(log), t);
  }

  lemma AgreesStartRaised<T>(listed: seq<T>, running: set<T>, log: seq<Event<T>>, t: T, f: Failure)
    requires Agrees(listed, running, log) && t !in running
    ensures Agrees(listed, running, log + [StartRaised(t, f)])
  {
    assert t !in Live(log) by { InElements(Live(log), t); }
    Snoc(log, StartRaised(t, f));
  }
}
