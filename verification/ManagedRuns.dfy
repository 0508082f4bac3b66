/**
 The two users of the load/restore protocol: the benchmark runner (core/benchmarks/runner.py)
 and the workflow runner (core/threads/workflows.py). Failures inside a run are exceptions
 that reach the runner's own handlers; cancellation of the whole run is not modelled.
 */
module ManagedRuns {
  import opened Wrappers
  import opened ModelWait
  import opened ModelLifecycle

  lemma ReplayNone(run: Residency, alias: Aliases)
    ensures Replay(run, [], alias) == run
  {
  }

  lemma {:induction false} ReplayCanonical(run: Residency, attempts: seq<Attempt>, alias: Aliases)
    requires Canonical(run, alias)
    ensures Canonical(Replay(run, attempts, alias), alias)
  {
    if attempts != [] {
      ReplayCanonical(run, attempts[..|attempts| - 1], alias);
    }
  }

  /** Without a snapshot, load and restore together amount to stopping the target. */
  lemma EmptySnapshotStopsTarget(run: Residency, load: seq<Attempt>, node: string, model: string, alias: Aliases)
    requires node in run && FollowsLoad(load, node, model, [])
    ensures Undone(Replay(run, load, alias), node, model, [], alias) == run[node := run[node] - {alias(node, model)}]
  {
    LoadStaysInside(run, load, node, model, [], alias);
    var now := Replay(run, load, alias);
    assert Names(node, [], alias) == {};
    assert now[node] - {alias(node, model)} + {} == run[node] - {alias(node, model)};
  }

  /** What is lost when a load with this snapshot is undone by a restore that gets through: nothing
      if the snapshot was a list, else the target. */
  function LostBy(w: Waiting, node: string, model: string, alias: Aliases): set<string> {
    if w.isList then {} else {alias(node, model)}
  }

  lemma LoadUndone(run: Residency, load: seq<Attempt>, node: string, model: string, prior: seq<string>, w: Waiting,
                   alias: Aliases)
    requires Canonical(run, alias) && SnapshotIs(run, node, w, Some(prior)) && FollowsLoad(load, node, model, prior)
    ensures node in run
    ensures Undone(Replay(run, load, alias), node, model, prior, alias) ==
            run[node := run[node] - LostBy(w, node, model, alias)]
  {
    hide Replay, Effect, Undone, Canonical, Names;
    if w.isList {
      LoadStaysInside(run, load, node, model, prior, alias);
      SnapshotNames(run, node, prior, alias);
      UndoneGivesBack(run, Replay(run, load, alias), node, model, prior, alias);
      assert run[node] - {} == run[node];
    } else {
      EmptySnapshotStopsTarget(run, load, node, model, alias);
    }
  }

  lemma LosesNothing(run: Residency, node: string, gone: set<string>)
    requires node in run
    ensures run[node := run[node] - gone] == run <==> gone !! run[node]
  {
    var left := run[node := run[node] - gone];
    assert left[node] == run[node] <==> gone !! run[node];
    assert left == run ==> left[node] == run[node];
  }

  // ---------- benchmark runner ----------

  datatype Job = Job(node: string, model: string, managedLoad: bool, restoreAfter: bool, timeout: real)

  predicate Restores(job: Job) {
    job.managedLoad && job.restoreAfter && job.node != ""
  }

  /** The requests of a benchmark run: a snapshot, the load if the snapshot did not raise, and the
      restore in any case, with the empty list if it did. */
  datatype JobTrace = JobTrace(snapshot: Option<seq<string>>, load: seq<Attempt>, polls: nat, loaded: bool,
                               restore: seq<Attempt>)

  function Prior(h: JobTrace): seq<string> {
    if h.snapshot.Some? then h.snapshot.value else []
  }

  ghost predicate JobMade(run: Residency, job: Job, w: Waiting, h: JobTrace) {
    && (if job.managedLoad then SnapshotIs(run, job.node, w, h.snapshot) else h.snapshot == None)
    && (if h.snapshot.Some?
        then LoadMade(h.load, job.node, job.model, h.snapshot.value, job.timeout, w, h.polls, h.loaded)
        else h.load == [] && !h.loaded)
    && if Restores(job)
       then FollowsRestore(h.restore, job.node, job.model, Prior(h))
       else h.restore == []
  }

  /** When the restore gets through, the node is as it was at the start if and only if the snapshot
      request was answered with a list or the target was not running. */
  lemma JobRestores(run: Residency, job: Job, w: Waiting, h: JobTrace, alias: Aliases)
    requires Canonical(run, alias) && JobMade(run, job, w, h) && job.node in run
    requires Restores(job) && AllApplied(h.restore)
    ensures Replay(run, h.load + h.restore, alias) == run <==>
              (w.answers && w.isList) || alias(job.node, job.model) !in run[job.node]
  {
    assert FollowsLoad([], job.node, job.model, []);
    hide Replay, Effect, FollowsLoad, FollowsRestore, FullSnapshot, Undone, Canonical, AllApplied, Waited;
    ReplayConcat(run, h.load, h.restore, alias);
    RestoreMeansUndone(Replay(run, h.load, alias), h.restore, job.node, job.model, Prior(h), alias);
    var target := alias(job.node, job.model);
    if h.snapshot.Some? {
      LoadUndone(run, h.load, job.node, job.model, Prior(h), w, alias);
      LosesNothing(run, job.node, LostBy(w, job.node, job.model, alias));
    } else {
      EmptySnapshotStopsTarget(run, [], job.node, job.model, alias);
      LosesNothing(run, job.node, {target});
    }
  }

  /** The failing case, concretely: the snapshot request raises, nothing is loaded, and the
      fault-free restore stops the model that was running. */
  lemma LostSnapshotStopsTarget(w: Waiting, timeout: real)
    requires !w.answers
    ensures var run := map["n" := {"m"}];
            var restore := [Attempt("n", "m", Stop, true, false)];
            && JobMade(run, Job("n", "m", true, true, timeout), w, JobTrace(None, [], 0, false, restore))
            && AllApplied(restore) && Replay(run, restore, (n, m) => m) == map["n" := {}]
  {
    var run := map["n" := {"m"}];
    var a := Attempt("n", "m", Stop, true, false);
    var alias: Aliases := (n, m) => m;
    ReplaySnoc(run, [], a, alias);
    assert [] + [a] == [a];
    assert Replay(run, [], alias) == run;
    assert {"m"} - {"m"} == {};
  }

  /** execute_run as far as it concerns the node. */
  method ExecuteRun(fleet: Fleet, job: Job, w: Waiting) returns (ghost h: JobTrace)
    requires fleet.Valid() && ClockRuns(w.clock)
    modifies fleet
    ensures fleet.Valid() && fleet.attempts == old(fleet.attempts) + h.load + h.restore
    ensures fleet.running == Replay(old(fleet.running), h.load + h.restore, fleet.alias)
    ensures JobMade(old(fleet.running), job, w, h)
    ensures h.restore != [] <==> job.managedLoad && job.restoreAfter && job.node != ""
    ensures Restores(job) && job.node in old(fleet.running) && AllApplied(h.restore) ==>
              (fleet.running == old(fleet.running) <==>
                (w.answers && w.isList) || fleet.alias(job.node, job.model) !in old(fleet.running)[job.node])
  {
    hide Replay, Effect, FollowsLoad, FollowsRestore, FullSnapshot, Undone, Canonical, Matches, ClockRuns, AllApplied,
         LoadMade, SnapshotIs;
    h := JobTrace(None, [], 0, false, []);
    var priorModels: seq<string> := [];
    ghost var run, log := fleet.running, fleet.attempts;
    ReplayNone(run, fleet.alias);
    if job.managedLoad {
      var snapshot := fleet.SnapshotRunningModels(job.node, w);
      h := h.(snapshot := snapshot);
      if snapshot.Some? {
        priorModels := snapshot.value;
        var ok, load, n := fleet.LoadExclusive(job.node, job.model, priorModels, job.timeout, w);
        h := h.(load := load, polls := n, loaded := ok);
      }
    }
    assert fleet.attempts == log + h.load;
    ReplayNone(fleet.running, fleet.alias);
    if job.managedLoad && job.restoreAfter {
      var restore := fleet.RestoreExclusive(job.node, job.model, priorModels);
      h := h.(restore := restore);
    }
    ReplayConcat(run, h.load, h.restore, fleet.alias);
    assert fleet.attempts == log + h.load + h.restore;
    if Restores(job) && job.node in run && AllApplied(h.restore) {
      JobRestores(run, job, w, h, fleet.alias);
    }
  }

  // ---------- workflow runner: one step ----------

  /** `routed`: the routing policy found a place. `chatWorks`: everything after loading went well. */
  datatype Step = Step(routed: bool, node: string, model: string, startupNeeded: bool, startNow: bool, chatWorks: bool)

  datatype Managed = Managed(node: string, model: string, prior: seq<string>)

  datatype Loading = NotNeeded | Loaded(managed: Managed) | LoadFailed

  /** The requests of one step: the load, if there was a snapshot, and its undoing if it failed. */
  datatype StepTrace = StepTrace(snapshot: Option<seq<string>>, load: seq<Attempt>, polls: nat, undo: seq<Attempt>,
                                 loading: Loading)

  const IDLE := StepTrace(None, [], 0, [], NotNeeded)

  predicate Needed(step: Step, manage: bool) {
    step.startupNeeded || manage
  }

  predicate Deferred(step: Step) {
    step.startupNeeded && !step.startNow
  }

  /** What `_ensure_model_loaded` does from `run`, request by request. */
  ghost predicate StepMade(run: Residency, step: Step, manage: bool, timeout: real, w: Waiting, h: StepTrace) {
    if !Needed(step, manage) then h == IDLE
    else if Deferred(step) then h == IDLE.(loading := LoadFailed)
    else
      && SnapshotIs(run, step.node, w, h.snapshot)
      && if h.snapshot.None? then h == IDLE.(loading := LoadFailed)
         else
           var prior := h.snapshot.value;
           && LoadMade(h.load, step.node, step.model, prior, timeout, w, h.polls, !h.loading.LoadFailed?)
           && if h.loading.LoadFailed? then FollowsRestore(h.undo, step.node, step.model, prior)
              else h.undo == [] && h.loading == Loaded(Managed(step.node, step.model, prior))
  }

  /** _ensure_model_loaded: a load that fails is restored on the spot. */
  method EnsureModelLoaded(fleet: Fleet, step: Step, manage: bool, timeout: real, w: Waiting)
    returns (r: Loading, ghost h: StepTrace)
    requires fleet.Valid() && ClockRuns(w.clock)
    modifies fleet
    ensures fleet.Valid() && fleet.attempts == old(fleet.attempts) + (h.load + h.undo)
    ensures fleet.running == Replay(old(fleet.running), h.load + h.undo, fleet.alias)
    ensures r.Loaded? ==> r.managed.node != ""
    ensures r.NotNeeded? <==> !step.startupNeeded && !manage
    ensures step.startupNeeded && !step.startNow ==> r.LoadFailed? && h.load == h.undo == []
    ensures r == h.loading && StepMade(old(fleet.running), step, manage, timeout, w, h)
  {
    hide Replay, Effect, FollowsLoad, FollowsRestore, FullSnapshot, Undone, Canonical, Matches, ClockRuns, Waited,
         LoadMade;
    ReplayNone(fleet.running, fleet.alias);
    h := IDLE;
    assert h.load + h.undo == [] && fleet.attempts + (h.load + h.undo) == fleet.attempts;
    if !step.startupNeeded && !manage {
      return NotNeeded, h;
    }
    h := h.(loading := LoadFailed);
    if step.startupNeeded && !step.startNow {
      return LoadFailed, h;
    }
    var snapshot := fleet.SnapshotRunningModels(step.node, w);
    if snapshot.None? {
      return LoadFailed, h;
    }
    var prior := snapshot.value;
    ghost var run, log := fleet.running, fleet.attempts;
    var ok, load, n := fleet.LoadExclusive(step.node, step.model, prior, timeout, w);
    r := if ok then Loaded(Managed(step.node, step.model, prior)) else LoadFailed;
    h := StepTrace(snapshot, load, n, [], r);
    assert load + [] == load;
    if !ok {
      var undo := fleet.RestoreExclusive(step.node, step.model, prior);
      h := h.(undo := undo);
      ReplayConcat(run, load, undo, fleet.alias);
      assert log + load + undo == log + (load + undo);
    }
  }

  /** The effect of a step, undone: a load that failed leaves, and a load that worked is restored
      to, the residency before it, short of the target if the snapshot was not a list. */
  lemma StepUndone(run: Residency, step: Step, manage: bool, timeout: real, w: Waiting, h: StepTrace, alias: Aliases)
    requires Canonical(run, alias) && StepMade(run, step, manage, timeout, w, h) && AllApplied(h.undo)
    ensures var now := Replay(run, h.load + h.undo, alias);
            && (h.snapshot.None? ==> now == run && !h.loading.Loaded?)
            && (h.snapshot.Some? ==>
                  && step.node in run
                  && var back := run[step.node := run[step.node] - LostBy(w, step.node, step.model, alias)];
                  && (h.loading.LoadFailed? ==> now == back)
                  && (h.loading.Loaded? ==>
                        && h.loading.managed == Managed(step.node, step.model, h.snapshot.value)
                        && Undone(now, step.node, step.model, h.snapshot.value, alias) == back))
  {
    hide Replay, Effect, FollowsLoad, FollowsRestore, FullSnapshot, Undone, Canonical, AllApplied, Waited;
    ReplayNone(run, alias);
    assert h.undo == [] ==> h.load + h.undo == h.load;
    if h.snapshot.Some? {
      var prior := h.snapshot.value;
      LoadUndone(run, h.load, step.node, step.model, prior, w, alias);
      if h.loading.LoadFailed? {
        ReplayConcat(run, h.load, h.undo, alias);
        RestoreMeansUndone(Replay(run, h.load, alias), h.undo, step.node, step.model, prior, alias);
      }
    }
  }

  // ---------- workflow runner: all steps ----------

  function Made(hs: seq<StepTrace>): seq<Attempt> {
    if hs == [] then []
    else
      var h := hs[|hs| - 1];
      Made(hs[..|hs| - 1]) + (h.load + h.undo)
  }

  predicate Works(step: Step, h: StepTrace) {
    !h.loading.LoadFailed? && step.chatWorks
  }

  predicate AllWork(steps: seq<Step>, hs: seq<StepTrace>) {
    |hs| <= |steps| && forall j :: 0 <= j < |hs| ==> Works(steps[j], hs[j])
  }

  /** `hs` are the traces of the steps that were routed: each ran from where the ones before it,
      which all worked, had left the nodes. */
  ghost predicate History(run: Residency, steps: seq<Step>, manage: bool, timeout: real, waits: seq<Waiting>,
                          hs: seq<StepTrace>, alias: Aliases)
    requires |waits| == |steps|
  {
    hs == [] ||
    var k := |hs| - 1;
    && k < |steps| && steps[k].routed && AllWork(steps, hs[..k])
    && History(run, steps, manage, timeout, waits, hs[..k], alias)
    && StepMade(Replay(run, Made(hs[..k]), alias), steps[k], manage, timeout, waits[k], hs[k])
  }

  function Stack(hs: seq<StepTrace>): seq<Managed> {
    if hs == [] then []
    else
      var h := hs[|hs| - 1];
      Stack(hs[..|hs| - 1]) + if h.loading.Loaded? then [h.loading.managed] else []
  }

  /** The requests of `_restore_managed_loads`: one whole restore for each entry, last entry first. */
  ghost predicate FinishMade(finish: seq<Attempt>, stack: seq<Managed>) {
    if stack == [] then finish == []
    else
      var top := stack[|stack| - 1];
      var n := |top.prior| + 1;
      && n <= |finish| && FollowsRestore(finish[..n], top.node, top.model, top.prior)
      && FinishMade(finish[n..], stack[..|stack| - 1])
  }

  /** Restoring a stack of managed loads, last load first. */
  function UndoAll(run: Residency, stack: seq<Managed>, alias: Aliases): Residency {
    if stack == [] then run
    else
      var top := stack[|stack| - 1];
      UndoAll(Undone(run, top.node, top.model, top.prior, alias), stack[..|stack| - 1], alias)
  }

  lemma {:induction false} FinishUndoes(run: Residency, finish: seq<Attempt>, stack: seq<Managed>, alias: Aliases)
    requires FinishMade(finish, stack) && AllApplied(finish)
    ensures Replay(run, finish, alias) == UndoAll(run, stack, alias)
    decreases |stack|
  {
    hide Replay, Effect, FollowsRestore, Undone;
    if stack == [] {
      ReplayNone(run, alias);
    } else {
      var top := stack[|stack| - 1];
      var n := |top.prior| + 1;
      var first, rest := finish[..n], finish[n..];
      assert finish == first + rest;
      ReplayConcat(run, first, rest, alias);
      RestoreMeansUndone(run, first, top.node, top.model, top.prior, alias);
      FinishUndoes(Replay(run, first, alias), rest, stack[..|stack| - 1], alias);
    }
  }

  predicate NamedNodes(stack: seq<Managed>) {
    forall i :: 0 <= i < |stack| ==> stack[i].node != ""
  }

  /** _restore_managed_loads */
  method RestoreManagedLoads(fleet: Fleet, stack: seq<Managed>) returns (ghost finish: seq<Attempt>)
    requires fleet.Valid() && NamedNodes(stack)
    modifies fleet
    ensures fleet.Valid() && fleet.attempts == old(fleet.attempts) + finish && FinishMade(finish, stack)
    ensures fleet.running == Replay(old(fleet.running), finish, fleet.alias)
  {
    hide Replay, Effect, FollowsRestore, Undone, Canonical, FinishMade;
    FinishNone();
    finish := [];
    ReplayNone(fleet.running, fleet.alias);
    ghost var run, log := fleet.running, fleet.attempts;
    var i := |stack|;
    assert stack[i..] == [];
    while i > 0
      invariant 0 <= i <= |stack|
      invariant fleet.Valid() && fleet.attempts == log + finish
      invariant fleet.running == Replay(run, finish, fleet.alias)
      invariant FinishMade(finish, stack[i..])
    {
      i := i - 1;
      var top := stack[i];
      var more := fleet.RestoreExclusive(top.node, top.model, top.prior);
      ReplayConcat(run, finish, more, fleet.alias);
      FinishMore(finish, stack[i + 1..], more, top);
      assert stack[i..] == [top] + stack[i + 1..];
      finish := finish + more;
    }
    assert stack[0..] == stack;
  }

  lemma FinishNone()
    ensures FinishMade([], [])
  {
  }

  lemma RestoreLength(more: seq<Attempt>, m: Managed)
    requires FollowsRestore(more, m.node, m.model, m.prior)
    ensures |more| == |m.prior| + 1
  {
  }

  lemma {:induction false} FinishMore(finish: seq<Attempt>, stack: seq<Managed>, more: seq<Attempt>, m: Managed)
    requires FinishMade(finish, stack) && FollowsRestore(more, m.node, m.model, m.prior)
    ensures FinishMade(finish + more, [m] + stack)
    decreases |stack|
  {
    hide FollowsRestore;
    RestoreLength(more, m);
    var all := [m] + stack;
    if stack == [] {
      assert finish + more == more && all == [m];
      assert more[..|more|] == more && more[|more|..] == [] && all[..0] == [];
    } else {
      var top := stack[|stack| - 1];
      var n := |top.prior| + 1;
      FinishMore(finish[n..], stack[..|stack| - 1], more, m);
      assert (finish + more)[..n] == finish[..n] && (finish + more)[n..] == finish[n..] + more;
      assert all[..|all| - 1] == [m] + stack[..|stack| - 1];
    }
  }

  // ---------- what a workflow leaves behind ----------

  /** A step has loaded on `n` with its snapshot answered by a list. */
  predicate FullAt(steps: seq<Step>, waits: seq<Waiting>, hs: seq<StepTrace>, n: string)
    requires |hs| <= |steps| == |waits|
  {
    hs != [] &&
    var k := |hs| - 1;
    FullAt(steps, waits, hs[..k], n) || (hs[k].loading.Loaded? && waits[k].isList && steps[k].node == n)
  }

  /** The targets loaded on `n` with a snapshot that was not a list, before any such step. */
  function Lost(steps: seq<Step>, waits: seq<Waiting>, hs: seq<StepTrace>, n: string, alias: Aliases): set<string>
    requires |hs| <= |steps| == |waits|
  {
    if hs == [] then {}
    else
      var k := |hs| - 1;
      Lost(steps, waits, hs[..k], n, alias) +
      if hs[k].snapshot.Some? && steps[k].node == n && !FullAt(steps, waits, hs[..k], n)
      then LostBy(waits[k], n, steps[k].model, alias) else {}
  }

  /** In the terms of the steps: a step has loaded on `n` with a list. */
  lemma {:induction false} FullAtMeans(steps: seq<Step>, waits: seq<Waiting>, hs: seq<StepTrace>, n: string)
    requires |hs| <= |steps| == |waits|
    ensures FullAt(steps, waits, hs, n) <==>
              exists i :: 0 <= i < |hs| && hs[i].loading.Loaded? && waits[i].isList && steps[i].node == n
  {
    if hs != [] {
      var k := |hs| - 1;
      FullAtMeans(steps, waits, hs[..k], n);
      assert forall i :: 0 <= i < k ==> hs[..k][i] == hs[i];
    }
  }

  /** A step had a snapshot of `n` that was not a list, its target is reported as `m`, and no step
      before it had loaded on `n` with a list. */
  ghost predicate LosesAt(steps: seq<Step>, waits: seq<Waiting>, hs: seq<StepTrace>, n: string, m: string, j: nat,
                          alias: Aliases)
    requires |hs| <= |steps| == |waits| && j < |hs|
  {
    && hs[j].snapshot.Some? && !waits[j].isList && steps[j].node == n && m == alias(n, steps[j].model)
    && forall i :: 0 <= i < j ==> !(hs[i].loading.Loaded? && waits[i].isList && steps[i].node == n)
  }

  /** Exactly the targets of such steps are lost. */
  lemma {:induction false} LostMeans(steps: seq<Step>, waits: seq<Waiting>, hs: seq<StepTrace>, n: string, m: string,
                                     alias: Aliases)
    requires |hs| <= |steps| == |waits|
    ensures m in Lost(steps, waits, hs, n, alias) <==>
              exists j :: 0 <= j < |hs| && LosesAt(steps, waits, hs, n, m, j, alias)
  {
    if hs != [] {
      var k := |hs| - 1;
      var front := hs[..k];
      LostMeans(steps, waits, front, n, m, alias);
      FullAtMeans(steps, waits, front, n);
      assert forall i :: 0 <= i < k ==> front[i] == hs[i];
      assert forall j :: 0 <= j < k ==>
               (LosesAt(steps, waits, hs, n, m, j, alias) <==> LosesAt(steps, waits, front, n, m, j, alias));
      assert LosesAt(steps, waits, hs, n, m, k, alias) <==>
               && hs[k].snapshot.Some? && steps[k].node == n && !FullAt(steps, waits, front, n)
               && m in LostBy(waits[k], n, steps[k].model, alias);
    }
  }

  /** The same nodes, each running no more than in `now`. */
  predicate Below(s: Residency, now: Residency) {
    s.Keys == now.Keys && forall n :: n in s ==> s[n] <= now[n]
  }

  /** What the stack makes of a residency `s` below `now`: what was missing stays missing, unless
      a restore with a full list brings it back. */
  function Back(run: Residency, now: Residency, s: Residency, steps: seq<Step>, waits: seq<Waiting>, hs: seq<StepTrace>,
                alias: Aliases): Residency
    requires |hs| <= |steps| == |waits| && now.Keys == s.Keys == run.Keys
  {
    map n | n in run ::
      run[n] - Lost(steps, waits, hs, n, alias) - if FullAt(steps, waits, hs, n) then {} else now[n] - s[n]
  }

  /** Undoing the stack from anywhere below `now` leads back to `run`, short of what is lost. */
  ghost predicate LeadsBack(run: Residency, now: Residency, steps: seq<Step>, waits: seq<Waiting>, hs: seq<StepTrace>,
                            alias: Aliases)
    requires |hs| <= |steps| == |waits|
  {
    && now.Keys == run.Keys
    && (forall n :: n in run && !FullAt(steps, waits, hs, n) ==> run[n] - Lost(steps, waits, hs, n, alias) <= now[n])
    && forall s :: Below(s, now) ==> UndoAll(s, Stack(hs), alias) == Back(run, now, s, steps, waits, hs, alias)
  }

  lemma StackSnoc(hs: seq<StepTrace>, h: StepTrace)
    ensures Stack(hs + [h]) == Stack(hs) + if h.loading.Loaded? then [h.loading.managed] else []
    ensures Made(hs + [h]) == Made(hs) + (h.load + h.undo)
  {
    assert (hs + [h])[..|hs|] == hs;
  }

  lemma UndoAllSnoc(run: Residency, stack: seq<Managed>, m: Managed, alias: Aliases)
    ensures UndoAll(run, stack + [m], alias) == UndoAll(Undone(run, m.node, m.model, m.prior, alias), stack, alias)
  {
    assert (stack + [m])[..|stack|] == stack;
  }

  lemma {:induction false} LeadsBackNone(run: Residency, steps: seq<Step>, waits: seq<Waiting>, alias: Aliases)
    requires |waits| == |steps|
    ensures LeadsBack(run, run, steps, waits, [], alias)
  {
    forall s | Below(s, run) ensures UndoAll(s, Stack([]), alias) == Back(run, run, s, steps, waits, [], alias) {
      assert forall n :: n in run ==> run[n] - {} - (run[n] - s[n]) == s[n];
    }
  }

  /** The bookkeeping of one step more. */
  lemma LossesSnoc(steps: seq<Step>, waits: seq<Waiting>, hs: seq<StepTrace>, h: StepTrace, n: string, alias: Aliases)
    requires |hs| < |steps| == |waits|
    ensures var k := |hs|;
            && FullAt(steps, waits, hs + [h], n) ==
                 (FullAt(steps, waits, hs, n) || (h.loading.Loaded? && waits[k].isList && steps[k].node == n))
            && Lost(steps, waits, hs + [h], n, alias) ==
                 Lost(steps, waits, hs, n, alias) +
                 if h.snapshot.Some? && steps[k].node == n && !FullAt(steps, waits, hs, n)
                 then LostBy(waits[k], n, steps[k].model, alias) else {}
  {
    assert (hs + [h])[..|hs|] == hs;
  }

  /** One step more, with no snapshot. */
  lemma LeadsBackIdle(run: Residency, now: Residency, steps: seq<Step>, waits: seq<Waiting>, hs: seq<StepTrace>,
                      h: StepTrace, alias: Aliases)
    requires |hs| < |steps| == |waits| && LeadsBack(run, now, steps, waits, hs, alias)
    requires h.snapshot.None? && !h.loading.Loaded?
    ensures LeadsBack(run, now, steps, waits, hs + [h], alias)
  {
    hide UndoAll, Stack, FullAt, Lost;
    StackSnoc(hs, h);
    assert Stack(hs) + [] == Stack(hs);
    forall n ensures FullAt(steps, waits, hs + [h], n) == FullAt(steps, waits, hs, n)
                     && Lost(steps, waits, hs + [h], n, alias) == Lost(steps, waits, hs, n, alias) {
      LossesSnoc(steps, waits, hs, h, n, alias);
    }
    forall s | Below(s, now)
      ensures UndoAll(s, Stack(hs + [h]), alias) == Back(run, now, s, steps, waits, hs + [h], alias)
    {
      assert Back(run, now, s, steps, waits, hs + [h], alias) == Back(run, now, s, steps, waits, hs, alias);
    }
  }

  /** One step more, whose load failed and was undone. */
  lemma LeadsBackFailed(run: Residency, now: Residency, next: Residency, steps: seq<Step>, waits: seq<Waiting>,
                        hs: seq<StepTrace>, h: StepTrace, alias: Aliases)
    requires |hs| < |steps| == |waits| && LeadsBack(run, now, steps, waits, hs, alias)
    requires h.snapshot.Some? && h.loading.LoadFailed?
    requires var node := steps[|hs|].node;
             node in now && next == now[node := now[node] - LostBy(waits[|hs|], node, steps[|hs|].model, alias)]
    ensures LeadsBack(run, next, steps, waits, hs + [h], alias)
  {
    hide UndoAll, Stack, FullAt, Lost, LostBy;
    StackSnoc(hs, h);
    assert Stack(hs) + [] == Stack(hs);
    forall n
      ensures n in run && !FullAt(steps, waits, hs + [h], n) ==>
                run[n] - Lost(steps, waits, hs + [h], n, alias) <= next[n]
    {
      LossesSnoc(steps, waits, hs, h, n, alias);
    }
    forall s | Below(s, next)
      ensures UndoAll(s, Stack(hs + [h]), alias) == Back(run, next, s, steps, waits, hs + [h], alias)
    {
      assert Below(s, now);
      forall n | n in run
        ensures Back(run, next, s, steps, waits, hs + [h], alias)[n] == Back(run, now, s, steps, waits, hs, alias)[n]
      {
        LossesSnoc(steps, waits, hs, h, n, alias);
      }
      assert Back(run, next, s, steps, waits, hs + [h], alias) == Back(run, now, s, steps, waits, hs, alias);
    }
  }

  /** One step more, whose load stands. */
  lemma LeadsBackLoaded(run: Residency, now: Residency, next: Residency, steps: seq<Step>, waits: seq<Waiting>,
                        hs: seq<StepTrace>, h: StepTrace, alias: Aliases)
    requires |hs| < |steps| == |waits| && LeadsBack(run, now, steps, waits, hs, alias)
    requires var step, w := steps[|hs|], waits[|hs|];
             && h.snapshot.Some? && h.loading == Loaded(Managed(step.node, step.model, h.snapshot.value))
             && LoadStands(now, next, step.node, step.model, h.snapshot.value, w, alias)
    ensures LeadsBack(run, next, steps, waits, hs + [h], alias)
  {
    hide UndoAll, Stack, FullAt, Lost, Undone, LoadStands;
    var step, w, prior := steps[|hs|], waits[|hs|], h.snapshot.value;
    StackSnoc(hs, h);
    LoadStandsKeys(now, next, step.node, step.model, prior, w, alias);
    forall n
      ensures n in run && !FullAt(steps, waits, hs + [h], n) ==>
                run[n] - Lost(steps, waits, hs + [h], n, alias) <= next[n]
    {
      LossesSnoc(steps, waits, hs, h, n, alias);
    }
    forall s | Below(s, next)
      ensures UndoAll(s, Stack(hs + [h]), alias) == Back(run, next, s, steps, waits, hs + [h], alias)
    {
      UndoAllSnoc(s, Stack(hs), h.loading.managed, alias);
      var u := Undone(s, step.node, step.model, prior, alias);
      UndoneBelow(now, next, s, step.node, step.model, prior, w, alias);
      forall n | n in run
        ensures Back(run, next, s, steps, waits, hs + [h], alias)[n] == Back(run, now, u, steps, waits, hs, alias)[n]
      {
        LossesSnoc(steps, waits, hs, h, n, alias);
        if n == step.node && !w.isList && !FullAt(steps, waits, hs, n) {
          SameLoss(run[n] - Lost(steps, waits, hs, n, alias), now[n], now[n] - u[n], next[n] - s[n],
                   alias(n, step.model));
        }
      }
      assert Back(run, next, s, steps, waits, hs + [h], alias) == Back(run, now, u, steps, waits, hs, alias);
    }
  }

  lemma SameLoss(kept: set<string>, now: set<string>, a: set<string>, b: set<string>, t: string)
    requires kept <= now && a + {t} == b + {t} && (t in now ==> t in a)
    ensures kept - a == kept - {t} - b
  {
    forall x | x in kept ensures x in a <==> x == t || x in b {
      assert x in a + {t} <==> x in b + {t};
    }
  }

  /** `next` is `now` after a load, good or not: see `LoadStaysInside`. */
  ghost predicate LoadStands(now: Residency, next: Residency, node: string, model: string, prior: seq<string>,
                             w: Waiting, alias: Aliases)
  {
    && node in now && next.Keys == now.Keys
    && (forall n :: n in now && n != node ==> next[n] == now[n])
    && next[node] <= now[node] + {alias(node, model)}
    && (w.isList ==> Names(node, prior, alias) == now[node])
    && (!w.isList ==> prior == [] && now[node] <= next[node])
  }

  lemma LoadStandsKeys(now: Residency, next: Residency, node: string, model: string, prior: seq<string>, w: Waiting,
                       alias: Aliases)
    requires LoadStands(now, next, node, model, prior, w, alias)
    ensures node in now && next.Keys == now.Keys
    ensures forall n :: n in now && (n != node || !w.isList) ==> now[n] <= next[n]
  {
  }

  lemma UndoneBelow(now: Residency, next: Residency, s: Residency, node: string, model: string, prior: seq<string>,
                    w: Waiting, alias: Aliases)
    requires LoadStands(now, next, node, model, prior, w, alias) && Below(s, next)
    ensures var u := Undone(s, node, model, prior, alias);
            && Below(u, now)
            && (forall n :: n in now && n != node ==> now[n] - u[n] == next[n] - s[n])
            && (w.isList ==> now[node] - u[node] == {})
            && (!w.isList ==> alias(node, model) !in u[node])
            && (!w.isList ==>
                  (now[node] - u[node]) + {alias(node, model)} == (next[node] - s[node]) + {alias(node, model)})
  {
    var target := alias(node, model);
    if !w.isList {
      assert Names(node, [], alias) == {};
      assert s[node] - {target} + {} == s[node] - {target};
    }
  }

  lemma LoadStandsHere(now: Residency, load: seq<Attempt>, node: string, model: string, prior: seq<string>, w: Waiting,
                       alias: Aliases)
    requires Canonical(now, alias) && SnapshotIs(now, node, w, Some(prior)) && FollowsLoad(load, node, model, prior)
    ensures LoadStands(now, Replay(now, load, alias), node, model, prior, w, alias)
  {
    LoadStaysInside(now, load, node, model, prior, alias);
    if w.isList {
      SnapshotNames(now, node, prior, alias);
    } else {
      assert Names(node, [], alias) == {};
    }
  }

  predicate UndosApplied(hs: seq<StepTrace>) {
    forall j :: 0 <= j < |hs| ==> AllApplied(hs[j].undo)
  }

  /** From wherever a workflow has got to, undoing its stack leads back. */
  lemma {:induction false} HistoryLeadsBack(run: Residency, steps: seq<Step>, manage: bool, timeout: real,
                                            waits: seq<Waiting>, hs: seq<StepTrace>, alias: Aliases)
    requires |waits| == |steps| && Canonical(run, alias)
    requires History(run, steps, manage, timeout, waits, hs, alias) && UndosApplied(hs)
    ensures |hs| <= |steps|
    ensures LeadsBack(run, Replay(run, Made(hs), alias), steps, waits, hs, alias)
  {
    hide Replay, Effect, Undone, Canonical, LeadsBack, LoadStands, FollowsLoad, FollowsRestore, FullSnapshot,
         AllApplied, Waited;
    if hs == [] {
      ReplayNone(run, alias);
      LeadsBackNone(run, steps, waits, alias);
    } else {
      var k := |hs| - 1;
      var front, h := hs[..k], hs[k];
      HistoryLeadsBack(run, steps, manage, timeout, waits, front, alias);
      var now := Replay(run, Made(front), alias);
      var next := Replay(now, h.load + h.undo, alias);
      assert hs == front + [h];
      ReplayConcat(run, Made(front), h.load + h.undo, alias);
      ReplayCanonical(run, Made(front), alias);
      var step, w := steps[k], waits[k];
      StepUndone(now, step, manage, timeout, w, h, alias);
      if h.snapshot.None? {
        LeadsBackIdle(run, now, steps, waits, front, h, alias);
      } else if h.loading.LoadFailed? {
        LeadsBackFailed(run, now, next, steps, waits, front, h, alias);
      } else {
        assert h.load + h.undo == h.load;
        LoadStandsHere(now, h.load, step.node, step.model, h.snapshot.value, w, alias);
        LeadsBackLoaded(run, now, next, steps, waits, front, h, alias);
      }
    }
  }

  /** What a workflow leaves behind when its restores get through. */
  function Left(run: Residency, steps: seq<Step>, waits: seq<Waiting>, hs: seq<StepTrace>, alias: Aliases): Residency
    requires |hs| <= |steps| == |waits|
  {
    map n | n in run :: run[n] - Lost(steps, waits, hs, n, alias)
  }

  /** Exactly what a workflow leaves behind, whichever step failed and however, when every restore
      request gets through. */
  lemma WorkflowLeaves(run: Residency, steps: seq<Step>, manage: bool, timeout: real, waits: seq<Waiting>,
                       hs: seq<StepTrace>, finish: seq<Attempt>, alias: Aliases)
    requires |waits| == |steps| && Canonical(run, alias)
    requires History(run, steps, manage, timeout, waits, hs, alias) && UndosApplied(hs)
    requires FinishMade(finish, Stack(hs)) && AllApplied(finish)
    ensures |hs| <= |steps|
    ensures Replay(run, Made(hs) + finish, alias) == Left(run, steps, waits, hs, alias)
  {
    hide Replay, Effect, Undone, Canonical, UndoAll, Made, Stack, FinishMade, AllApplied, History, Lost, FullAt;
    HistoryLeadsBack(run, steps, manage, timeout, waits, hs, alias);
    var now := Replay(run, Made(hs), alias);
    ReplayConcat(run, Made(hs), finish, alias);
    FinishUndoes(now, finish, Stack(hs), alias);
    assert Below(now, now);
    forall n | n in run
      ensures Back(run, now, now, steps, waits, hs, alias)[n] == Left(run, steps, waits, hs, alias)[n]
    {
      var lost := run[n] - Lost(steps, waits, hs, n, alias);
      assert now[n] - now[n] == {} && lost - {} == lost;
    }
    assert Back(run, now, now, steps, waits, hs, alias) == Left(run, steps, waits, hs, alias);
  }

  /** All nodes run what they ran at the start if and only if no target that is lost on a node was
      running there; in particular if every snapshot that was answered was answered with a list. */
  lemma LeftIsRun(run: Residency, steps: seq<Step>, waits: seq<Waiting>, hs: seq<StepTrace>, alias: Aliases)
    requires |hs| <= |steps| == |waits|
    ensures Left(run, steps, waits, hs, alias) == run <==>
              forall n :: n in run ==> Lost(steps, waits, hs, n, alias) !! run[n]
    ensures (forall j :: 0 <= j < |hs| && hs[j].snapshot.Some? ==> waits[j].isList) ==>
              Left(run, steps, waits, hs, alias) == run
  {
    hide Lost, FullAt;
    var left := Left(run, steps, waits, hs, alias);
    forall n | n in run ensures left[n] == run[n] <==> Lost(steps, waits, hs, n, alias) !! run[n] {
    }
    if forall n :: n in run ==> Lost(steps, waits, hs, n, alias) !! run[n] {
      assert forall n :: n in run ==> left[n] == run[n];
      assert left == run;
    }
    if forall j :: 0 <= j < |hs| && hs[j].snapshot.Some? ==> waits[j].isList {
      forall n | n in run ensures Lost(steps, waits, hs, n, alias) == {} {
        NothingLost(steps, waits, hs, n, alias);
      }
    }
  }

  lemma {:induction false} NothingLost(steps: seq<Step>, waits: seq<Waiting>, hs: seq<StepTrace>, n: string,
                                       alias: Aliases)
    requires |hs| <= |steps| == |waits|
    requires forall j :: 0 <= j < |hs| && hs[j].snapshot.Some? ==> waits[j].isList
    ensures Lost(steps, waits, hs, n, alias) == {}
  {
    if hs != [] {
      NothingLost(steps, waits, hs[..|hs| - 1], n, alias);
    }
  }

  /** The failing case, concretely: the snapshot of a running target is answered with something
      else than a list, the start raises, and undoing it stops the target. */
  lemma WorkflowLosesTarget(w: Waiting, timeout: real)
    requires w.answers && !w.isList
    ensures var run, step := map["n" := {"m"}], Step(true, "n", "m", false, false, true);
            && History(run, [step], true, timeout, [w], [LOSING], (n, m) => m)
            && UndosApplied([LOSING]) && FinishMade([], Stack([LOSING]))
            && Replay(run, Made([LOSING]), (n, m) => m) == map["n" := {}]
  {
    hide Replay, Effect, Waited, History, Made, Stack, Canonical, FullSnapshot;
    var run, step := map["n" := {"m"}], Step(true, "n", "m", false, false, true);
    var alias: Aliases := (n, m) => m;
    NothingMade(run, [step], true, timeout, [w], alias);
    LosingMade(run, step, timeout, w);
    OneStepMore(run, [step], true, timeout, [w], [], LOSING, alias);
    assert [] + [LOSING] == [LOSING];
    PlainNames(run);
    StepUndone(run, step, true, timeout, w, LOSING, alias);
    assert {"m"} - {"m"} == {};
  }

  const LOSING := StepTrace(Some([]), [Attempt("n", "m", Start, false, true)], 0,
                            [Attempt("n", "m", Stop, true, false)], LoadFailed)

  lemma LosingMade(run: Residency, step: Step, timeout: real, w: Waiting)
    requires "n" in run && w.answers && !w.isList && step == Step(true, "n", "m", false, false, true)
    ensures StepMade(run, step, true, timeout, w, LOSING) && AllApplied(LOSING.undo)
  {
  }

  lemma PlainNames(run: Residency)
    ensures Canonical(run, (n, m) => m)
  {
  }

  /** run_workflow as far as it concerns the nodes: the requests are those of the steps tried, each
      from where the ones before it left the nodes, and then one restore for each load that stood,
      last load first; the run is good exactly when every step was tried and worked. */
  method RunWorkflow(fleet: Fleet, steps: seq<Step>, manage: bool, timeout: real, waits: seq<Waiting>)
    returns (ok: bool, ghost hs: seq<StepTrace>, ghost finish: seq<Attempt>)
    requires fleet.Valid() && |waits| == |steps|
    requires forall i :: 0 <= i < |waits| ==> ClockRuns(waits[i].clock)
    modifies fleet
    ensures fleet.Valid() && fleet.attempts == old(fleet.attempts) + (Made(hs) + finish)
    ensures fleet.running == Replay(old(fleet.running), Made(hs) + finish, fleet.alias)
    ensures History(old(fleet.running), steps, manage, timeout, waits, hs, fleet.alias)
    ensures FinishMade(finish, Stack(hs))
    ensures |hs| <= |steps| && forall i :: 0 <= i < |hs| ==> steps[i].routed
    // good exactly when every step was routed, loaded if needed, and chatted
    ensures ok <==>
              && steps != [] && |hs| == |steps|
              && forall i :: 0 <= i < |hs| ==> steps[i].chatWorks && !hs[i].loading.LoadFailed?
    // a step that fails is the last one tried
    ensures forall i :: 0 <= i < |hs| - 1 ==> steps[i].chatWorks && !hs[i].loading.LoadFailed?
    ensures !ok && steps != [] ==>
              || (|hs| < |steps| && !steps[|hs|].routed)
              || (hs != [] && (hs[|hs| - 1].loading.LoadFailed? || !steps[|hs| - 1].chatWorks))
    ensures UndosApplied(hs) && AllApplied(finish) ==>
              && fleet.running == Left(old(fleet.running), steps, waits, hs, fleet.alias)
              && (fleet.running == old(fleet.running) <==>
                    forall n :: n in old(fleet.running) ==>
                      Lost(steps, waits, hs, n, fleet.alias) !! old(fleet.running)[n])
  {
    hide Replay, Effect, Canonical, ClockRuns, Made, Stack, FinishMade, UndosApplied, AllApplied, Left, Lost,
         StepMade, History;
    ghost var run, log := fleet.running, fleet.attempts;
    ok, hs, finish := true, [], [];
    var stack: seq<Managed> := [];
    NothingMade(run, steps, manage, timeout, waits, fleet.alias);
    var i := 0;
    while i < |steps| && ok
      invariant 0 <= i <= |steps| && |hs| <= |steps|
      invariant fleet.Valid() && fleet.attempts == log + Made(hs)
      invariant fleet.running == Replay(run, Made(hs), fleet.alias)
      invariant History(run, steps, manage, timeout, waits, hs, fleet.alias)
      invariant stack == Stack(hs) && NamedNodes(stack)
      invariant forall j :: 0 <= j < |hs| ==> steps[j].routed
      invariant forall j :: 0 <= j < |hs| - 1 ==> steps[j].chatWorks && !hs[j].loading.LoadFailed?
      invariant ok ==> |hs| == i && AllWork(steps, hs)
      invariant !ok ==> i < |steps| && if |hs| == i then !steps[i].routed else |hs| == i + 1 && !AllWork(steps, hs)
      decreases |steps| - i, ok
    {
      var step := steps[i];
      if !step.routed {
        ok := false;
      } else {
        var loading, h := EnsureModelLoaded(fleet, step, manage, timeout, waits[i]);
        OneStepMore(run, steps, manage, timeout, waits, hs, h, fleet.alias);
        assert (log + Made(hs)) + (h.load + h.undo) == log + (Made(hs) + (h.load + h.undo));
        hs := hs + [h];
        assert hs[i] == h;
        if loading.Loaded? {
          stack := stack + [loading.managed];
        }
        assert stack == Stack(hs);
        if loading.LoadFailed? || !step.chatWorks {
          ok := false;
        } else {
          i := i + 1;
        }
      }
    }
    finish := RestoreManagedLoads(fleet, stack);
    ReplayConcat(run, Made(hs), finish, fleet.alias);
    assert (log + Made(hs)) + finish == log + (Made(hs) + finish);
    ok := ok && steps != [];
    if UndosApplied(hs) && AllApplied(finish) {
      WorkflowLeaves(run, steps, manage, timeout, waits, hs, finish, fleet.alias);
      LeftIsRun(run, steps, waits, hs, fleet.alias);
    }
  }

  lemma NothingMade(run: Residency, steps: seq<Step>, manage: bool, timeout: real, waits: seq<Waiting>, alias: Aliases)
    requires |waits| == |steps|
    ensures History(run, steps, manage, timeout, waits, [], alias) && Made([]) == [] && Stack([]) == []
    ensures Replay(run, Made([]), alias) == run
  {
  }

  lemma OneStepMore(run: Residency, steps: seq<Step>, manage: bool, timeout: real, waits: seq<Waiting>,
                    hs: seq<StepTrace>,
                    h: StepTrace, alias: Aliases)
    requires |waits| == |steps| && |hs| < |steps| && steps[|hs|].routed && AllWork(steps, hs)
    requires History(run, steps, manage, timeout, waits, hs, alias)
    requires StepMade(Replay(run, Made(hs), alias), steps[|hs|], manage, timeout, waits[|hs|], h)
    ensures History(run, steps, manage, timeout, waits, hs + [h], alias)
    ensures Made(hs + [h]) == Made(hs) + (h.load + h.undo)
    ensures Stack(hs + [h]) == if h.loading.Loaded? then Stack(hs) + [h.loading.managed] else Stack(hs)
    ensures Replay(run, Made(hs + [h]), alias) == Replay(Replay(run, Made(hs), alias), h.load + h.undo, alias)
  {
    hide Replay, StepMade;
    assert (hs + [h])[..|hs|] == hs;
    StackSnoc(hs, h);
    ReplayConcat(run, Made(hs), h.load + h.undo, alias);
  }

}
