/**
 Plugin background tasks over the life of the application: startup, the activate and
 deactivate routes, and shutdown. Every callback may return, raise an `Exception`, or raise
 a wider `BaseException`. Route calls run one at a time.
 */
module PluginHost {
  import opened Wrappers
  import opened Sequences
  import opened TaskTrace

  datatype Status = Loading | Enabled | Disabled | Incompatible | Failed

  /** What a plugin's `register` does, call by call. */
  datatype Registration = AddTask(taskId: string) | AddRouter(prefix: Option<string>) | RaiseError

  datatype Plugin = Plugin(manifestLoads: bool, compatible: bool, configValid: bool, register: seq<Registration>)

  datatype PluginConfig = NotConfigured | NoPath | Configured(plugin: Plugin)

  datatype Reply = Ok | NotFound | BadRequest | ServerError | Propagates(error: Failure)

  datatype Request = Activation(id: string, config: PluginConfig) | Deactivation(id: string)

  class Task {
    const id: string
    var running: bool

    constructor (id: string)
      ensures this.id == id && !running
    {
      this.id := id;
      running := false;
    }
  }

  class Record {
    const id: string
    var status: Status
    var tasks: seq<Task>
    var routers: seq<string>

    constructor (id: string, status: Status)
      ensures this.id == id && this.status == status && tasks == [] && routers == []
    {
      this.id := id;
      this.status := status;
      tasks, routers := [], [];
    }
  }

  /** What a run of `register` has collected, and whether it got through. */
  datatype Surface = Surface(ok: bool, taskIds: seq<string>, routers: seq<string>)

  function Surfaced(id: string, steps: seq<Registration>, taken: set<string>): Surface {
    if steps == [] then Surface(true, [], [])
    else SurfaceStep(id, Surfaced(id, steps[..|steps| - 1], taken), steps[|steps| - 1], taken)
  }

  function SurfaceStep(id: string, s: Surface, step: Registration, taken: set<string>): Surface {
    if !s.ok then s else
      match step
      case RaiseError => s.(ok := false)
      case AddTask(t) => if t in s.taskIds then s.(ok := false) else s.(taskIds := s.taskIds + [t])
      case AddRouter(p) =>
        var q := Prefix(id, p);
        if q != "/" + id || q in taken || q in s.routers then s.(ok := false) else s.(routers := s.routers + [q])
  }

  function Prefix(id: string, p: Option<string>): string {
    if p.Some? && p.value != "" then p.value else "/" + id
  }

  /** Reserving route prefixes keeps a record's routers inside its own namespace, once. */
  lemma {:induction false} SurfacedRouters(id: string, steps: seq<Registration>, taken: set<string>)
    ensures Distinct(Surfaced(id, steps, taken).routers) && Distinct(Surfaced(id, steps, taken).taskIds)
    ensures forall q :: q in Surfaced(id, steps, taken).routers ==> q == "/" + id && q !in taken
  {
    if steps != [] {
      SurfacedRouters(id, steps[..|steps| - 1], taken);
    }
  }

  lemma SurfacedNext(id: string, steps: seq<Registration>, taken: set<string>, k: nat)
    requires k < |steps|
    ensures Surfaced(id, steps[..k + 1], taken) == SurfaceStep(id, Surfaced(id, steps[..k], taken), steps[k], taken)
  {
    assert steps[..k + 1][..k] == steps[..k];
  }

  /** Once a registration step has raised, the later ones never run. */
  lemma {:induction false} SurfacedStuck(id: string, steps: seq<Registration>, taken: set<string>, k: nat)
    requires k <= |steps| && !Surfaced(id, steps[..k], taken).ok
    ensures Surfaced(id, steps, taken) == Surfaced(id, steps[..k], taken)
    decreases |steps| - k
  {
    if k == |steps| {
      assert steps[..k] == steps;
    } else {
      SurfacedNext(id, steps, taken, k);
      SurfacedStuck(id, steps, taken, k + 1);
    }
  }

  /** The prefix a router is asked for is the plugin's own namespace. */
  predicate OwnNamespace(id: string, prefix: Option<string>) {
    prefix.None? || prefix.value == "" || prefix.value == "/" + id
  }

  /** `register` gets through: it does not raise, adds no task twice, and adds at most one router,
      in the plugin's own namespace if that is free. */
  predicate Acceptable(id: string, steps: seq<Registration>, taken: set<string>) {
    && (forall i :: 0 <= i < |steps| ==> !steps[i].RaiseError?)
    && (forall i, j :: 0 <= i < j < |steps| && steps[i].AddTask? && steps[j].AddTask? ==>
          steps[i].taskId != steps[j].taskId)
    && (forall i :: 0 <= i < |steps| && steps[i].AddRouter? ==>
          OwnNamespace(id, steps[i].prefix) && "/" + id !in taken)
    && (forall i, j :: 0 <= i < j < |steps| ==> !(steps[i].AddRouter? && steps[j].AddRouter?))
  }

  /** The k-th task id is that of the k-th AddTask step, at `at[k]`, and there is one for each. */
  ghost predicate TasksAt(steps: seq<Registration>, taskIds: seq<string>, at: seq<nat>) {
    && Ascending(at, |steps|) && |at| == |taskIds|
    && (forall k :: 0 <= k < |at| ==> steps[at[k]] == AddTask(taskIds[k]))
    && (forall i :: 0 <= i < |steps| && steps[i].AddTask? ==> i in at)
  }

  /** The tasks and routers that the steps register. */
  ghost predicate Registers(id: string, steps: seq<Registration>, taskIds: seq<string>, routers: seq<string>) {
    && (exists at: seq<nat> :: TasksAt(steps, taskIds, at))
    && routers == if AddsRouter(steps) then ["/" + id] else []
  }

  /** The registration is refused at step `k`: the steps before it have registered what they do. */
  ghost predicate RefusedAt(id: string, steps: seq<Registration>, taken: set<string>, k: nat,
                            taskIds: seq<string>, routers: seq<string>)
  {
    && k < |steps| && Acceptable(id, steps[..k], taken) && !Acceptable(id, steps[..k + 1], taken)
    && Registers(id, steps[..k], taskIds, routers)
  }

  predicate AddsTask(steps: seq<Registration>, taskId: string) {
    exists i :: 0 <= i < |steps| && steps[i] == AddTask(taskId)
  }

  predicate AddsRouter(steps: seq<Registration>) {
    exists i :: 0 <= i < |steps| && steps[i].AddRouter?
  }

  /** What one step more has to do. */
  predicate StepAcceptable(id: string, front: seq<Registration>, step: Registration, taken: set<string>) {
    match step
    case RaiseError => false
    case AddTask(t) => !AddsTask(front, t)
    case AddRouter(p) => OwnNamespace(id, p) && "/" + id !in taken && !AddsRouter(front)
  }

  lemma AcceptableSnoc(id: string, front: seq<Registration>, step: Registration, taken: set<string>)
    ensures Acceptable(id, front + [step], taken) <==>
              Acceptable(id, front, taken) && StepAcceptable(id, front, step, taken)
  {
    var n, all := |front|, front + [step];
    assert all[n] == step && forall i :: 0 <= i < n ==> all[i] == front[i];
    if Acceptable(id, all, taken) {
      assert Acceptable(id, front, taken);
      assert step.AddTask? ==> forall i :: 0 <= i < n && all[i].AddTask? ==> all[i].taskId != all[n].taskId;
    }
  }

  lemma RegistersSnoc(id: string, front: seq<Registration>, step: Registration, s: Surface)
    requires Registers(id, front, s.taskIds, s.routers) && !step.RaiseError?
    ensures step.AddTask? ==> (step.taskId in s.taskIds <==> AddsTask(front, step.taskId))
    ensures step.AddTask? ==> Registers(id, front + [step], s.taskIds + [step.taskId], s.routers)
    ensures step.AddRouter? ==> Registers(id, front + [step], s.taskIds, ["/" + id])
  {
    hide TasksAt, AddsRouter, AddsTask;
    var at: seq<nat> :| TasksAt(front, s.taskIds, at);
    RoutersOf(front, step);
    if step.AddTask? {
      TaskKnown(front, s.taskIds, at, step.taskId);
      TaskMore(front, s.taskIds, at, step.taskId);
      assert AddTask(step.taskId) == step;
    } else {
      TaskNone(front, s.taskIds, at, step);
    }
  }

  lemma TaskNone(front: seq<Registration>, taskIds: seq<string>, at: seq<nat>, step: Registration)
    requires TasksAt(front, taskIds, at) && !step.AddTask?
    ensures TasksAt(front + [step], taskIds, at)
  {
    var n, all := |front|, front + [step];
    assert all[n] == step && forall i :: 0 <= i < n ==> all[i] == front[i];
  }

  lemma RoutersOf(front: seq<Registration>, step: Registration)
    ensures AddsRouter(front + [step]) <==> AddsRouter(front) || step.AddRouter?
  {
    var n, all := |front|, front + [step];
    assert all[n] == step && forall i :: 0 <= i < n ==> all[i] == front[i];
  }

  lemma RegistersNothing(id: string)
    ensures Registers(id, [], [], [])
  {
    assert TasksAt([], [], []);
  }

  lemma StepSurface(id: string, front: seq<Registration>, step: Registration, s: Surface, taken: set<string>)
    requires s.ok && Registers(id, front, s.taskIds, s.routers)
    ensures var t := SurfaceStep(id, s, step, taken);
            && (t.ok <==> StepAcceptable(id, front, step, taken))
            && (t.ok ==> Registers(id, front + [step], t.taskIds, t.routers))
  {
    hide Registers, AddsRouter, AddsTask;
    RoutersBefore(id, front, s);
    if !step.RaiseError? && !(step.AddRouter? && AddsRouter(front)) {
      RegistersSnoc(id, front, step, s);
      assert [] + ["/" + id] == ["/" + id];
    }
  }

  lemma RoutersBefore(id: string, front: seq<Registration>, s: Surface)
    requires Registers(id, front, s.taskIds, s.routers)
    ensures s.routers == if AddsRouter(front) then ["/" + id] else []
  {
  }

  lemma {:induction false} SurfacedAccepts(id: string, steps: seq<Registration>, taken: set<string>)
    ensures var s := Surfaced(id, steps, taken);
            && (s.ok <==> Acceptable(id, steps, taken))
            && (s.ok ==> Registers(id, steps, s.taskIds, s.routers))
  {
    hide Acceptable, Registers, SurfaceStep, StepAcceptable;
    if steps == [] {
      RegistersNothing(id);
      AcceptableNone(id, taken);
    } else {
      var k := |steps| - 1;
      var front, step := steps[..k], steps[k];
      assert steps == front + [step];
      var s := Surfaced(id, front, taken);
      SurfacedAccepts(id, front, taken);
      AcceptableSnoc(id, front, step, taken);
      if s.ok {
        StepSurface(id, front, step, s, taken);
      } else {
        StaysRefused(id, s, step, taken);
      }
    }
  }

  lemma AcceptableNone(id: string, taken: set<string>)
    ensures Acceptable(id, [], taken)
  {
  }

  lemma StaysRefused(id: string, s: Surface, step: Registration, taken: set<string>)
    requires !s.ok
    ensures SurfaceStep(id, s, step, taken) == s
  {
  }

  lemma TaskKnown(steps: seq<Registration>, taskIds: seq<string>, at: seq<nat>, taskId: string)
    requires TasksAt(steps, taskIds, at)
    ensures taskId in taskIds <==> AddsTask(steps, taskId)
  {
    if i :| 0 <= i < |steps| && steps[i] == AddTask(taskId) {
      var k :| 0 <= k < |at| && at[k] == i;
      assert taskIds[k] == taskId;
    }
    if taskId in taskIds {
      var k :| 0 <= k < |taskIds| && taskIds[k] == taskId;
      assert steps[at[k]] == AddTask(taskId);
    }
  }

  lemma TaskMore(steps: seq<Registration>, taskIds: seq<string>, at: seq<nat>, taskId: string)
    requires TasksAt(steps, taskIds, at)
    ensures TasksAt(steps + [AddTask(taskId)], taskIds + [taskId], at + [|steps|])
  {
    var more, all := at + [|steps|], steps + [AddTask(taskId)];
    assert more[|at|] == |steps|;
    forall i | 0 <= i < |all| && all[i].AddTask? ensures i in more {
      if i < |steps| {
        assert steps[i].AddTask?;
        var k :| 0 <= k < |at| && at[k] == i;
        assert more[k] == i;
      }
    }
  }

  /** A registration succeeds exactly when its steps are acceptable, and then registers what they
      say; otherwise it is refused at a step, having registered what the steps before it say. */
  lemma {:induction false} SurfacedMeans(id: string, steps: seq<Registration>, taken: set<string>)
    ensures var s := Surfaced(id, steps, taken);
            && (s.ok <==> Acceptable(id, steps, taken))
            && (s.ok ==> Registers(id, steps, s.taskIds, s.routers))
            && (!s.ok ==> exists k: nat :: RefusedAt(id, steps, taken, k, s.taskIds, s.routers))
  {
    hide Acceptable, Registers, SurfaceStep;
    SurfacedAccepts(id, steps, taken);
    if !Surfaced(id, steps, taken).ok {
      assert steps != [];
      var n := |steps| - 1;
      var front := steps[..n];
      SurfacedMeans(id, front, taken);
      var s := Surfaced(id, front, taken);
      if s.ok {
        assert steps[..n + 1] == steps;
        RefusedKeeps(id, s, steps[n], taken);
        assert RefusedAt(id, steps, taken, n, s.taskIds, s.routers);
      } else {
        var k: nat :| RefusedAt(id, front, taken, k, s.taskIds, s.routers);
        StaysRefused(id, s, steps[n], taken);
        assert front[..k] == steps[..k] && front[..k + 1] == steps[..k + 1];
        assert RefusedAt(id, steps, taken, k, s.taskIds, s.routers);
      }
    }
  }

  lemma RefusedKeeps(id: string, s: Surface, step: Registration, taken: set<string>)
    requires !SurfaceStep(id, s, step, taken).ok
    ensures SurfaceStep(id, s, step, taken) == s.(ok := false)
  {
  }

  /** Any outcome the environment likes: the callbacks are plugin code. */
  method RunCallback() returns (o: Outcome)
  {
    o := *;
  }

  // ---------- the registry's tasks, flattened ----------

  ghost function AllTasks(rs: seq<Record>): seq<Task>
    reads rs`tasks
  {
    if rs == [] then [] else rs[0].tasks + AllTasks(rs[1..])
  }

  ghost function EnabledTasks(rs: seq<Record>): seq<Task>
    reads rs`tasks, rs`status
  {
    if rs == [] then [] else (if rs[0].status == Enabled then rs[0].tasks else []) + EnabledTasks(rs[1..])
  }

  /** Ids are dictionary keys, and a record offers routers only under its own prefix, once. */
  ghost predicate WellKept(rs: seq<Record>)
    reads rs`routers
  {
    && (forall i, j :: 0 <= i < j < |rs| ==> rs[i].id != rs[j].id)
    && (forall i :: 0 <= i < |rs| ==> OwnRouters(rs[i]))
  }

  ghost predicate OwnRouters(r: Record)
    reads r`routers
  {
    Distinct(r.routers) && forall p :: p in r.routers ==> p == "/" + r.id
  }

  lemma WellKeptDrop(rs: seq<Record>, i: nat)
    requires WellKept(rs) && i < |rs|
    ensures WellKept(rs[..i] + rs[i + 1..])
    ensures forall r :: r in rs[..i] + rs[i + 1..] <==> r in rs && r.id != rs[i].id
  {
    var rest := rs[..i] + rs[i + 1..];
    assert forall k :: 0 <= k < |rest| ==> rest[k] == rs[if k < i then k else k + 1];
    forall r | r in rs && r.id != rs[i].id ensures r in rest {
      var k :| 0 <= k < |rs| && rs[k] == r;
      assert rest[if k < i then k else k - 1] == r;
    }
  }

  lemma WellKeptAppend(rs: seq<Record>, r: Record)
    requires WellKept(rs) && OwnRouters(r) && forall k :: 0 <= k < |rs| ==> rs[k].id != r.id
    ensures WellKept(rs + [r])
  {
  }

  lemma AllTasksConcat(a: seq<Record>, b: seq<Record>)
    ensures AllTasks(a + b) == AllTasks(a) + AllTasks(b)
  {
    if a == [] {
      assert a + b == b;
    } else {
      assert (a + b)[1..] == a[1..] + b;
    }
  }

  lemma EnabledTasksConcat(a: seq<Record>, b: seq<Record>)
    ensures EnabledTasks(a + b) == EnabledTasks(a) + EnabledTasks(b)
  {
    if a == [] {
      assert a + b == b;
    } else {
      assert (a + b)[1..] == a[1..] + b;
    }
  }

  lemma AllTasksAt(rs: seq<Record>, i: nat)
    requires i < |rs|
    ensures AllTasks(rs) == AllTasks(rs[..i]) + rs[i].tasks + AllTasks(rs[i + 1..])
  {
    assert rs == rs[..i] + rs[i..];
    AllTasksConcat(rs[..i], rs[i..]);
    assert rs[i..][1..] == rs[i + 1..];
  }

  lemma AllTasksAppend(rs: seq<Record>, r: Record)
    ensures AllTasks(rs + [r]) == AllTasks(rs) + r.tasks
  {
    AllTasksConcat(rs, [r]);
    assert AllTasks([r]) == r.tasks + AllTasks([]);
  }

  class Host {
    var records: seq<Record>                 // plugin_registry.records, insertion order
    var routePrefixes: set<string>           // plugin_registry.route_prefixes
    var included: set<(string, string)>      // app.state.plugin_routers_included
    var mounted: seq<(string, string)>       // every include_router made for a plugin
    ghost var log: seq<Event<Task>>
    ghost var everyTask: set<Task>           // tasks of registered and of replaced records

    ghost function Running(): set<Task>
      reads this`everyTask, everyTask
    {
      set t | t in everyTask && t.running
    }

    ghost predicate Valid()
      reads this`records, this`log, this`everyTask, this`included, this`mounted
      reads records`tasks, records`routers, everyTask
    {
      && Elements(AllTasks(records)) <= everyTask
      && Agrees(AllTasks(records), Running(), log)
      && WellKept(records)
      && MountsAgree()
    }

    ghost predicate MountsAgree()
      reads this`included, this`mounted
    {
      Distinct(mounted) && included == Elements(mounted)
    }

    lemma ValidParts()
      ensures Valid() <==> && Elements(AllTasks(records)) <= everyTask
                           && Agrees(AllTasks(records), Running(), log)
                           && WellKept(records)
                           && MountsAgree()
    {
    }

    constructor ()
      ensures Valid() && records == [] && mounted == [] && log == [] && everyTask == {}
    {
      records, routePrefixes, included, mounted := [], {}, {}, [];
      log, everyTask := [], {};
    }

    function Find(id: string): (r: Option<Record>)
      reads this
      ensures r.Some? ==> r.value in records && r.value.id == id
      ensures r.None? ==> forall k :: 0 <= k < |records| ==> records[k].id != id
    {
      FindIn(records, id)
    }

    static function FindIn(rs: seq<Record>, id: string): (r: Option<Record>)
      ensures r.Some? ==> r.value in rs && r.value.id == id
      ensures r.None? ==> forall k :: 0 <= k < |rs| ==> rs[k].id != id
    {
      if rs == [] then None
      else if rs[0].id == id then Some(rs[0])
      else FindIn(rs[1..], id)
    }

    /** A task's flag against its history. */
    lemma RunningIsOneMoreStart(t: Task)
      requires Valid() && t in everyTask
      ensures StartCount(log, t) == StopCount(log, t) + if t.running then 1 else 0
    {
      UpMeansOneMoreStart(log, t);
      InElements(Live(log), t);
      assert t.running <==> t in Running();
    }

    /** A task of a record that was replaced is not running. */
    lemma RunningIsRegistered(t: Task)
      requires Valid() && t in everyTask && t.running
      ensures exists r :: r in records && t in r.tasks
    {
      assert t in Running();
      AgreesListed(AllTasks(records), Running(), log);
      InSomeRecord(records, t);
    }

    static lemma InSomeRecord(rs: seq<Record>, t: Task)
      requires t in AllTasks(rs)
      ensures exists r :: r in rs && t in r.tasks
    {
      if t in rs[0].tasks {
        assert rs[0] in rs;
      } else {
        InSomeRecord(rs[1..], t);
        var r :| r in rs[1..] && t in r.tasks;
        assert r in rs;
      }
    }

    // ---------- one callback ----------

    method StopOne(task: Task) returns (o: Outcome)
      requires Valid() && task in everyTask && task.running
      modifies this`log, task`running
      ensures Valid()
      ensures log == old(log) + [StopTried(task, o)]
      ensures Running() == old(Running()) - {task}
    {
      o := RunCallback();
      AgreesStop(AllTasks(records), Running(), log, task, o);
      log := log + [StopTried(task, o)];
      task.running := false;
      assert Running() == old(Running()) - {task};
    }

    /** `k` is the task's place in the registry; nothing at or after it is up. */
    method StartOne(task: Task, ghost k: nat) returns (o: Outcome)
      requires Valid()
      requires k < |AllTasks(records)| && AllTasks(records)[k] == task
      requires QuietFrom(AllTasks(records), Running(), k)
      modifies this`log, task`running
      ensures Valid() && (o.Normal? ==> QuietFrom(AllTasks(records), Running(), k + 1))
      ensures log == old(log) + [StartEvent(task, o)]
      ensures Running() == old(Running()) + if o.Normal? then {task} else {}
    {
      o := RunCallback();
      ghost var all := AllTasks(records);
      assert task in Elements(all);
      if o.Normal? {
        AgreesStart(all, Running(), log, k);
        log := log + [Started(task)];
        task.running := true;
        assert Running() == old(Running()) + {task};
      } else {
        AgreesStartRaised(all, Running(), log, task, o.error);
        log := log + [StartRaised(task, o.error)];
        assert Running() == old(Running());
      }
    }

    lemma TasksOf(record: Record)
      requires record in records
      ensures Elements(record.tasks) <= Elements(AllTasks(records))
    {
      var i :| 0 <= i < |records| && records[i] == record;
      AllTasksAt(records, i);
      ElementsConcat(AllTasks(records[..i]), record.tasks);
      ElementsConcat(AllTasks(records[..i]) + record.tasks, AllTasks(records[i + 1..]));
    }

    // ---------- one record (main.py) ----------

    /** Every running task gets exactly one stop attempt, last task first, whatever the
        attempts do; the error raised is the first one met. */
    method StopTasks(record: Record) returns (error: Option<Failure>)
      requires Valid() && record in records
      modifies this`log, everyTask`running
      ensures Valid()
      ensures old(log) <= log && Mirrors(log[|old(log)|..], record.tasks, old(Running()))
      ensures Running() == old(Running()) - Elements(record.tasks)
      ensures error == FirstStopError(log[|old(log)|..])
    {
      TasksOf(record);
      ghost var up := Running();
      ghost var stops: seq<Event<Task>> := [];
      MirrorsNil(up);
      hide *;
      var tasks := record.tasks;
      error := None;
      var i := |tasks|;
      while i > 0
        invariant 0 <= i <= |tasks|
        invariant Valid()
        invariant log == old(log) + stops && Mirrors(stops, tasks[i..], up)
        invariant Running() == up - Elements(tasks[i..])
        invariant error == FirstStopError(stops)
      {
        i := i - 1;
        ListedOnce(record, i);
        ElementsFrom(tasks, i);
        var o := StopIfRunning(tasks[i]);
        assert Running() == up - Elements(tasks[i..]);
        if o.Some? {
          MirrorsStop(stops, tasks, i, up, o.value);
          ConcatSnoc(old(log), stops, StopTried(tasks[i], o.value));
          stops := stops + [StopTried(tasks[i], o.value)];
          if o.value.Raises? && error.None? {
            error := Some(o.value.error);
          }
        } else {
          MirrorsSkip(stops, tasks, i, up);
        }
      }
      assert log[|old(log)|..] == stops && tasks[0..] == tasks;
    }

    method StopIfRunning(task: Task) returns (o: Option<Outcome>)
      requires Valid() && task in everyTask
      modifies this`log, task`running
      ensures Valid()
      ensures o.Some? <==> task in old(Running())
      ensures log == old(log) + if o.Some? then [StopTried(task, o.value)] else []
      ensures Running() == old(Running()) - {task}
    {
      if !task.running {
        return None;
      }
      var outcome := StopOne(task);
      o := Some(outcome);
    }

    /** A record lists a task once. */
    lemma ListedOnce(record: Record, i: nat)
      requires Valid() && record in records && i < |record.tasks|
      ensures record.tasks[i] in everyTask && record.tasks[i] !in Elements(record.tasks[i + 1..])
    {
      var j :| 0 <= j < |records| && records[j] == record;
      AllTasksAt(records, j);
      TasksOf(record);
      assert record.tasks[i] in Elements(record.tasks);
      var off := |AllTasks(records[..j])|;
      forall k | i < k < |record.tasks| ensures record.tasks[i] != record.tasks[k] {
        assert AllTasks(records)[off + i] == record.tasks[i];
        assert AllTasks(records)[off + k] == record.tasks[k];
      }
    }

    /** Where a record's tasks sit in the flattened registry. */
    lemma Slots(idx: nat)
      requires Valid() && idx < |records|
      ensures |AllTasks(records[..idx])| + |records[idx].tasks| + |AllTasks(records[idx + 1..])| == |AllTasks(records)|
      ensures forall i :: 0 <= i < |records[idx].tasks| ==>
                AllTasks(records)[|AllTasks(records[..idx])| + i] == records[idx].tasks[i]
      ensures forall i :: 0 <= i < |records[idx].tasks| ==> records[idx].tasks[i] in everyTask
    {
      AllTasksAt(records, idx);
      TasksOf(records[idx]);
      assert forall i :: 0 <= i < |records[idx].tasks| ==> records[idx].tasks[i] in Elements(records[idx].tasks);
    }

    /** Starts an enabled record's tasks in order, skipping the `a` that are already up, and
        gives up at the first start that raises: the tasks below `b` are then up, the one at
        `b` is not. */
    method StartTasks(record: Record, ghost idx: nat, ghost a: nat)
      returns (error: Option<Failure>, ghost b: nat)
      requires Valid() && idx < |records| && records[idx] == record
      requires a <= |record.tasks| && forall i :: 0 <= i < a ==> record.tasks[i] in Running()
      requires QuietFrom(AllTasks(records), Running(), |AllTasks(records[..idx])| + a)
      modifies this`log, everyTask`running
      ensures Valid()
      ensures old(log) <= log && Climbs(log[|old(log)|..], record.tasks, a, b)
      ensures Running() == old(Running()) + Elements(record.tasks[a..b])
      ensures QuietFrom(AllTasks(records), Running(), |AllTasks(records[..idx])| + b)
      ensures record.status != Enabled ==> error.None? && b == a && log == old(log)
      ensures record.status == Enabled && error.None? ==> b == |record.tasks|
      ensures error.Some? ==> b < |record.tasks| && EndsWithRaise(log[|old(log)|..], record.tasks[b], error.value)
      ensures a <= b && |log| == |old(log)| + (b - a) + if error.Some? then 1 else 0
    {
      hide *;
      var tasks := record.tasks;
      error, b := None, a;
      ClimbsNil(tasks, a);
      assert log[|old(log)|..] == [];
      if record.status != Enabled {
        return;
      }
      Slots(idx);
      ghost var off := |AllTasks(records[..idx])|;
      ghost var more: seq<Event<Task>> := [];
      var i := 0;
      while i < |tasks|
        invariant 0 <= i <= |tasks| && b == if i < a then a else i
        invariant Valid()
        invariant log == old(log) + more && Climbs(more, tasks, a, b) && a <= b && |more| == b - a
        invariant Running() == old(Running()) + Elements(tasks[a..b])
        invariant QuietFrom(AllTasks(records), Running(), off + b)
      {
        var o := StartIfDown(tasks[i], if i < a then 0 else off + i, i < a);
        if o.Some? {
          ConcatSnoc(old(log), more, StartEvent(tasks[i], o.value));
          if o.value.Raises? {
            ClimbsRaise(more, tasks, a, b, tasks[i], o.value.error);
            more := more + [StartEvent(tasks[i], o.value)];
            error := Some(o.value.error);
            break;
          }
          ClimbsStart(more, tasks, a, b);
          more := more + [StartEvent(tasks[i], o.value)];
          b := i + 1;
        }
        i := i + 1;
      }
      ConcatBack(old(log), more);
    }

    method StartIfDown(task: Task, ghost k: nat, ghost up: bool) returns (o: Option<Outcome>)
      requires Valid() && task in everyTask
      requires up ==> task in Running()
      requires !up ==> k < |AllTasks(records)| && AllTasks(records)[k] == task
      requires !up ==> QuietFrom(AllTasks(records), Running(), k)
      modifies this`log, task`running
      ensures Valid() && (o.None? <==> up)
      ensures up ==> log == old(log) && Running() == old(Running())
      ensures !up ==> log == old(log) + [StartEvent(task, o.value)]
      ensures !up ==> Running() == old(Running()) + if o.value.Normal? then {task} else {}
      ensures !up && o.value.Normal? ==> QuietFrom(AllTasks(records), Running(), k + 1)
    {
      if task.running {
        return None;
      }
      var outcome := StartOne(task, k);
      o := Some(outcome);
    }

    // ---------- the whole registry (main.py) ----------

    /** Startup: the enabled records' tasks in registry order, up to the first that raises. */
    method StartEnabled() returns (error: Option<Failure>, ghost b: nat)
      requires Valid() && Running() == {}
      modifies this`log, everyTask`running
      ensures Valid()
      ensures old(log) <= log && Climbs(log[|old(log)|..], EnabledTasks(records), 0, b)
      ensures error.None? ==> b == |EnabledTasks(records)|
      ensures error.Some? ==> && b < |EnabledTasks(records)|
                              && EndsWithRaise(log[|old(log)|..], EnabledTasks(records)[b], error.value)
      ensures |log| == |old(log)| + b + if error.Some? then 1 else 0
    {
      hide *;
      error, b := None, 0;
      ghost var more: seq<Event<Task>> := [];
      ClimbsNil<Task>([], 0);
      var i := 0;
      EnabledUpTo(0);
      while i < |records|
        invariant 0 <= i <= |records|
        invariant Valid()
        invariant error.None? && b == |EnabledTasks(records[..i])|
        invariant log == old(log) + more && Climbs(more, EnabledTasks(records[..i]), 0, b) && |more| == b
        invariant QuietFrom(AllTasks(records), Running(), |AllTasks(records[..i])|)
      {
        var record := records[i];
        ghost var before := log;
        ghost var n: nat;
        error, n := StartTasks(record, i, 0);
        EnabledUpTo(i);
        ghost var next := log[|before|..];
        ConcatAssoc(old(log), more, next);
        if record.status == Enabled {
          ClimbsConcat(more, EnabledTasks(records[..i]), next, record.tasks, n);
        } else {
          QuietLater(AllTasks(records), Running(), |AllTasks(records[..i])|, |AllTasks(records[..i + 1])|);
          assert next == [] && more + next == more;
          assert EnabledTasks(records[..i + 1]) == EnabledTasks(records[..i]);
        }
        if error.Some? {
          EndsWithLater(more, next, record.tasks[n], error.value);
          more := more + next;
          ClimbsWiden(more, EnabledTasks(records[..i]) + record.tasks, b + n, EnabledTasks(records[i + 1..]));
          assert (EnabledTasks(records[..i]) + record.tasks)[b + n] == record.tasks[n];
          b := b + n;
          ConcatBack(old(log), more);
          assert log == old(log) + more && Climbs(more, EnabledTasks(records), 0, b);
          return;
        }
        more := more + next;
        b := |EnabledTasks(records[..i + 1])|;
        i := i + 1;
      }
      assert records[..|records|] == records;
      ConcatBack(old(log), more);
    }

    lemma EnabledUpTo(i: nat)
      requires i <= |records|
      ensures i == 0 ==> records[..0] == [] && AllTasks(records[..0]) == [] && EnabledTasks(records[..0]) == []
      ensures i == 0 && Running() == {} ==> QuietFrom(AllTasks(records), Running(), 0)
      ensures i < |records| ==> AllTasks(records[..i + 1]) == AllTasks(records[..i]) + records[i].tasks
      ensures i < |records| ==>
                EnabledTasks(records[..i + 1]) ==
                EnabledTasks(records[..i]) + if records[i].status == Enabled then records[i].tasks else []
      ensures i < |records| && records[i].status == Enabled ==>
                EnabledTasks(records) ==
                EnabledTasks(records[..i]) + records[i].tasks + EnabledTasks(records[i + 1..])
    {
      if i < |records| {
        assert records[..i + 1] == records[..i] + [records[i]];
        AllTasksAppend(records[..i], records[i]);
        EnabledTasksConcat(records[..i], [records[i]]);
        assert EnabledTasks([records[i]]) ==
               (if records[i].status == Enabled then records[i].tasks else []) + EnabledTasks([]);
        assert records == records[..i + 1] + records[i + 1..];
        EnabledTasksConcat(records[..i + 1], records[i + 1..]);
      }
    }

    /** Shutdown: every running task gets exactly one stop attempt, newest start first,
        whatever the attempts do; the error raised is that of the first attempt that raised. */
    method StopAll() returns (error: Option<Failure>)
      requires Valid()
      modifies this`log, everyTask`running
      ensures Valid() && Running() == {}
      ensures old(log) <= log && OnlyStops(log[|old(log)|..])
      ensures StopAttempts(log[|old(log)|..]) == Reversed(old(Live(log)))
      ensures error == FirstStopError(log[|old(log)|..])
    {
      hide *;
      ghost var up := Running();
      ghost var stops: seq<Event<Task>> := [];
      BeforeStopping();
      MirrorsNil(up);
      error := None;
      var i := |records|;
      while i > 0
        invariant 0 <= i <= |records|
        invariant Valid()
        invariant log == old(log) + stops && Mirrors(stops, AllTasks(records[i..]), up)
        invariant Running() == up - Elements(AllTasks(records[i..]))
        invariant error == FirstStopError(stops)
      {
        i := i - 1;
        ghost var before := log;
        var e := StopTasks(records[i]);
        ghost var next := log[|before|..];
        OneRecordLess(i, up, next);
        MirrorsConcat(stops, next, records[i].tasks, AllTasks(records[i + 1..]), up);
        FirstStopErrorConcat(stops, next);
        ConcatAssoc(old(log), stops, next);
        stops := stops + next;
        if e.Some? && error.None? {
          error := e;
        }
      }
      assert records[0..] == records;
      ConcatBack(old(log), stops);
      MirrorsMeans(stops, AllTasks(records), up);
    }

    lemma BeforeStopping()
      requires Valid()
      ensures Live(log) == Select(AllTasks(records), Running())
      ensures Running() <= Elements(AllTasks(records))
      ensures AllTasks(records[|records|..]) == []
    {
      AgreesListed(AllTasks(records), Running(), log);
    }

    lemma OneRecordLess(i: nat, up: set<Task>, next: seq<Event<Task>>)
      requires Valid() && i < |records|
      requires Mirrors(next, records[i].tasks, up - Elements(AllTasks(records[i + 1..])))
      ensures Mirrors(next, records[i].tasks, up)
      ensures AllTasks(records[i..]) == records[i].tasks + AllTasks(records[i + 1..])
      ensures Elements(AllTasks(records[i..])) == Elements(records[i].tasks) + Elements(AllTasks(records[i + 1..]))
    {
      assert records[i..][1..] == records[i + 1..];
      AllTasksAt(records, i);
      var rest := AllTasks(records[i + 1..]);
      ElementsConcat(records[i].tasks, rest);
      forall t | t in records[i].tasks ensures t !in Elements(rest) {
        var j :| 0 <= j < |records[i].tasks| && records[i].tasks[j] == t;
        var off := |AllTasks(records[..i])|;
        assert AllTasks(records)[off + j] == t;
        forall k | 0 <= k < |rest| ensures rest[k] != t {
          assert AllTasks(records)[off + |records[i].tasks| + k] == rest[k];
        }
      }
      MirrorsSame(next, records[i].tasks, up - Elements(rest), up);
    }

    // ---------- loading (loader.py, context.py, registry.py) ----------

    static ghost function Ids(tasks: seq<Task>): seq<string> {
      if tasks == [] then [] else Ids(tasks[..|tasks| - 1]) + [tasks[|tasks| - 1].id]
    }

    static lemma IdsSnoc(tasks: seq<Task>, t: Task)
      ensures Ids(tasks + [t]) == Ids(tasks) + [t.id]
    {
      assert (tasks + [t])[..|tasks|] == tasks;
    }

    static lemma IdsAt(tasks: seq<Task>)
      ensures |Ids(tasks)| == |tasks| && forall i :: 0 <= i < |tasks| ==> Ids(tasks)[i] == tasks[i].id
    {
      if tasks != [] {
        IdsAt(tasks[..|tasks| - 1]);
      }
    }

    static function HasId(tasks: seq<Task>, id: string): (b: bool)
      ensures b <==> exists i :: 0 <= i < |tasks| && tasks[i].id == id
    {
      tasks != [] && (tasks[0].id == id || HasId(tasks[1..], id))
    }

    /** What a record under registration shows of `s`, and which prefixes that reserves. */
    ghost predicate Shows(record: Record, s: Surface, taken: set<string>)
      reads record, this`routePrefixes
    {
      && Ids(record.tasks) == s.taskIds && record.routers == s.routers
      && routePrefixes == taken + Elements(record.routers)
    }

    /** Runs the plugin's `register` against a new record. */
    method Register(record: Record, steps: seq<Registration>) returns (ok: bool)
      requires record.tasks == [] && record.routers == []
      modifies record, this`routePrefixes
      ensures record.status == old(record.status)
      ensures ok <==> Acceptable(record.id, steps, old(routePrefixes))
      ensures ok ==> Registers(record.id, steps, Ids(record.tasks), record.routers)
      ensures !ok ==>
                exists k: nat :: RefusedAt(record.id, steps, old(routePrefixes), k, Ids(record.tasks), record.routers)
      ensures routePrefixes == old(routePrefixes) + Elements(record.routers)
      ensures OwnRouters(record) && (forall q :: q in record.routers ==> q !in old(routePrefixes))
      ensures Distinct(Ids(record.tasks))
      ensures forall i :: 0 <= i < |record.tasks| ==> fresh(record.tasks[i]) && !record.tasks[i].running
    {
      ok := true;
      ghost var taken := routePrefixes;
      var i := 0;
      assert Shows(record, Surfaced(record.id, steps[..i], taken), taken);
      while i < |steps| && ok
        invariant 0 <= i <= |steps|
        invariant record.status == old(record.status)
        invariant ok == Surfaced(record.id, steps[..i], taken).ok
        invariant Shows(record, Surfaced(record.id, steps[..i], taken), taken)
        invariant forall j :: 0 <= j < |record.tasks| ==> fresh(record.tasks[j]) && !record.tasks[j].running
      {
        hide *;
        SurfacedNext(record.id, steps, taken, i);
        ok := RegisterOne(record, steps[i], Surfaced(record.id, steps[..i], taken), taken);
        i := i + 1;
      }
      assert steps[..|steps|] == steps;
      if !ok {
        SurfacedStuck(record.id, steps, taken, i);
      }
      SurfacedMeans(record.id, steps, taken);
      SurfacedRouters(record.id, steps, taken);
    }

    method RegisterOne(record: Record, step: Registration, ghost s: Surface, ghost taken: set<string>)
      returns (ok: bool)
      requires s.ok && Shows(record, s, taken)
      modifies record`tasks, record`routers, this`routePrefixes
      ensures ok == SurfaceStep(record.id, s, step, taken).ok
      ensures Shows(record, SurfaceStep(record.id, s, step, taken), taken)
      ensures forall j :: 0 <= j < |record.tasks| ==>
                (j < |old(record.tasks)| && record.tasks[j] == old(record.tasks)[j])
                || (fresh(record.tasks[j]) && !record.tasks[j].running)
    {
      ok := false;
      match step {
        case RaiseError =>
        case AddTask(t) =>
          IdsAt(record.tasks);
          if !HasId(record.tasks, t) {
            var task := new Task(t);
            IdsSnoc(record.tasks, task);
            record.tasks := record.tasks + [task];
            ok := true;
          }
        case AddRouter(p) =>
          var q := Prefix(record.id, p);
          InElements(record.routers, q);
          if q == "/" + record.id && q !in routePrefixes {
            routePrefixes := routePrefixes + {q};
            ElementsSnoc(record.routers, q);
            record.routers := record.routers + [q];
            ok := true;
          }
      }
    }

    /** The tasks of the record registered under `id`. */
    ghost function TasksOfId(id: string): set<Task>
      reads this`records, records`tasks
    {
      var r := FindIn(records, id);
      if r.Some? then Elements(r.value.tasks) else {}
    }

    /** The status a load ends in. */
    static function LoadedStatus(id: string, plugin: Plugin, taken: set<string>): Status {
      if !plugin.manifestLoads then Failed
      else if !plugin.compatible then Incompatible
      else if !plugin.configValid then Disabled
      else if Acceptable(id, plugin.register, taken) then Enabled
      else Failed
    }

    /** What a load makes of a plugin: an enabled record has the tasks and the router that `register`
        adds; one refused by a step has the tasks of the steps before it; any other has none. */
    static ghost predicate Loaded(record: Record, id: string, plugin: Plugin, taken: set<string>)
      reads record
    {
      var registers := plugin.manifestLoads && plugin.compatible && plugin.configValid;
      && record.id == id && record.status == LoadedStatus(id, plugin, taken)
      && (record.status == Enabled ==> Registers(id, plugin.register, Ids(record.tasks), record.routers))
      && (record.status != Enabled ==> record.routers == [])
      && (!registers ==> record.tasks == [])
      && (registers && record.status == Failed ==>
            exists k: nat, routers ::
              RefusedAt(id, plugin.register, taken, k, Ids(record.tasks), routers))
    }

    method BuildRecord(id: string, plugin: Plugin) returns (record: Record)
      modifies this`routePrefixes
      ensures fresh(record) && Loaded(record, id, plugin, old(routePrefixes))
      ensures OwnRouters(record) && Distinct(record.tasks)
      ensures forall i :: 0 <= i < |record.tasks| ==> fresh(record.tasks[i]) && !record.tasks[i].running
    {
      hide Acceptable, Registers, RefusedAt, Surfaced;
      ghost var taken := routePrefixes;
      record := new Record(id, Loading);
      if !plugin.manifestLoads {
        record.status := Failed;
      } else if !plugin.compatible {
        record.status := Incompatible;
      } else if !plugin.configValid {
        record.status := Disabled;
      } else {
        var ok := Register(record, plugin.register);
        DistinctTasks(record.tasks);
        if ok {
          record.status := Enabled;
        } else {
          record.status := Failed;
          routePrefixes := routePrefixes - set i | 0 <= i < |record.routers| :: record.routers[i];
          record.routers := [];
        }
      }
    }

    static lemma DistinctTasks(tasks: seq<Task>)
      requires Distinct(Ids(tasks))
      ensures Distinct(tasks)
    {
      IdsAt(tasks);
      forall i, j | 0 <= i < j < |tasks| ensures tasks[i] != tasks[j] {
        assert Ids(tasks)[i] != Ids(tasks)[j];
      }
    }

    /** Loads a plugin that has no record: whatever goes wrong, a record for it is appended,
        all of its tasks are down, and routers are offered only by an enabled record. */
    method LoadOne(id: string, plugin: Plugin) returns (record: Record)
      requires Valid() && FindIn(records, id).None?
      modifies this`records, this`routePrefixes, this`everyTask
      ensures Valid() && Running() == old(Running())
      ensures fresh(record) && Loaded(record, id, plugin, old(routePrefixes))
      ensures record.status == Incompatible <==> plugin.manifestLoads && !plugin.compatible
      ensures record.status == Disabled <==> plugin.manifestLoads && plugin.compatible && !plugin.configValid
      ensures record.status == Enabled <==>
                && plugin.manifestLoads && plugin.compatible && plugin.configValid
                && Acceptable(id, plugin.register, old(routePrefixes))
      ensures record.status == Enabled ==> Registers(id, plugin.register, Ids(record.tasks), record.routers)
      ensures record.status != Loading
      ensures records == old(records) + [record]
      ensures everyTask == old(everyTask) + Elements(record.tasks) && fresh(Elements(record.tasks))
      ensures QuietFrom(AllTasks(records), Running(), |AllTasks(old(records))|)
    {
      record := BuildRecord(id, plugin);
      assert forall t :: t in Elements(record.tasks) ==> t in record.tasks;
      hide *;
      Append(record);
    }

    /** Bookkeeping of `LoadOne`: the new record joins the registry. */
    method Append(record: Record)
      requires Valid() && FindIn(records, record.id).None?
      requires OwnRouters(record) && Distinct(record.tasks)
      requires forall i :: 0 <= i < |record.tasks| ==> record.tasks[i] !in everyTask && !record.tasks[i].running
      modifies this`records, this`everyTask
      ensures Valid() && Running() == old(Running())
      ensures records == old(records) + [record]
      ensures everyTask == old(everyTask) + Elements(record.tasks)
      ensures QuietFrom(AllTasks(records), Running(), |AllTasks(old(records))|)
    {
      hide *;
      AppendAgrees(record);
      WellKeptAppend(records, record);
      records := records + [record];
      everyTask := everyTask + Elements(record.tasks);
      SameRunning(record.tasks);
      ValidParts();
    }

    twostate lemma SameRunning(new more: seq<Task>)
      requires everyTask == old(everyTask) + Elements(more)
      requires forall i :: 0 <= i < |more| ==> !more[i].running
      requires forall t :: t in old(everyTask) ==> t.running == old(t.running)
      ensures Running() == old(Running())
    {
    }

    lemma AppendAgrees(record: Record)
      requires Valid() && Distinct(record.tasks)
      requires forall i :: 0 <= i < |record.tasks| ==> record.tasks[i] !in everyTask
      ensures Agrees(AllTasks(records + [record]), Running(), log)
      ensures Elements(AllTasks(records + [record])) <= everyTask + Elements(record.tasks)
      ensures QuietFrom(AllTasks(records + [record]), Running(), |AllTasks(records)|)
      ensures WellKept(records) && MountsAgree()
    {
      var listed, more := AllTasks(records), record.tasks;
      assert Distinct(listed + more) by {
        assert forall i :: 0 <= i < |listed| ==> listed[i] in Elements(listed);
      }
      AgreesAppend(listed, Running(), log, more);
      AllTasksAppend(records, record);
      ElementsConcat(listed, more);
    }

    /** registry.remove_record: the record's tasks must be down, which is what the routes ensure. */
    method RemoveRecord(id: string)
      requires Valid() && TasksOfId(id) !! Running()
      modifies this`records, this`routePrefixes
      ensures Valid() && Running() == old(Running())
      ensures FindIn(records, id).None?
      ensures forall r :: r in records <==> r in old(records) && r.id != id
      ensures records == DropId(old(records), id) && routePrefixes == old(Freed(id))
    {
      hide *;
      TasksOfIdAt(id);
      FreedIs(id);
      var found := Find(id);
      if found.None? {
        DropIdNone(records, id);
        routePrefixes := routePrefixes - {"/" + id};
        return;
      }
      ValidParts();
      var i := IndexOf(id);
      DropAgrees(i);
      WellKeptDrop(records, i);
      DropIdAt(records, i);
      routePrefixes := routePrefixes - set k | 0 <= k < |records[i].routers| :: records[i].routers[k];
      records := records[..i] + records[i + 1..];
      ValidParts();
    }

    /** The route prefixes without those of the record under `id`. */
    ghost function Freed(id: string): set<string>
      reads this`records, this`routePrefixes, records`routers
    {
      var r := FindIn(records, id);
      routePrefixes - if r.Some? then Elements(r.value.routers) else {"/" + id}
    }

    lemma FreedIs(id: string)
      ensures FindIn(records, id).None? ==> Freed(id) == routePrefixes - {"/" + id}
      ensures FindIn(records, id).Some? ==>
                var rs := FindIn(records, id).value.routers;
                && Freed(id) == routePrefixes - Elements(rs)
                && Freed(id) == routePrefixes - set k | 0 <= k < |rs| :: rs[k]
    {
    }

    static ghost function DropId(rs: seq<Record>, id: string): seq<Record> {
      if rs == [] then [] else (if rs[0].id == id then [] else [rs[0]]) + DropId(rs[1..], id)
    }

    static lemma DropIdNone(rs: seq<Record>, id: string)
      requires forall k :: 0 <= k < |rs| ==> rs[k].id != id
      ensures DropId(rs, id) == rs
    {
    }

    static lemma {:induction false} DropIdAt(rs: seq<Record>, i: nat)
      requires i < |rs| && forall k :: 0 <= k < |rs| && k != i ==> rs[k].id != rs[i].id
      ensures DropId(rs, rs[i].id) == rs[..i] + rs[i + 1..]
    {
      if i == 0 {
        DropIdNone(rs[1..], rs[0].id);
      } else {
        DropIdAt(rs[1..], i - 1);
        assert rs[1..][..i - 1] == rs[1..i] && rs[1..][i..] == rs[i + 1..];
        assert [rs[0]] + rs[1..i] == rs[..i];
      }
    }

    lemma TasksOfIdAt(id: string)
      ensures Find(id) == FindIn(records, id)
      ensures FindIn(records, id).Some? ==> TasksOfId(id) == Elements(FindIn(records, id).value.tasks)
      ensures FindIn(records, id).None? ==> TasksOfId(id) == {}
    {
    }

    lemma DropAgrees(i: nat)
      requires Valid() && i < |records| && Elements(records[i].tasks) !! Running()
      ensures Agrees(AllTasks(records[..i] + records[i + 1..]), Running(), log)
      ensures Elements(AllTasks(records[..i] + records[i + 1..])) <= everyTask
      ensures WellKept(records) && MountsAgree()
    {
      var a, b, c := AllTasks(records[..i]), records[i].tasks, AllTasks(records[i + 1..]);
      AllTasksAt(records, i);
      AllTasksConcat(records[..i], records[i + 1..]);
      assert forall t :: t in b ==> t in Elements(b);
      AgreesDrop(a, b, c, Running(), log);
      ElementsConcat(a + b, c);
      ElementsConcat(a, b);
      ElementsConcat(a, c);
    }

    method IndexOf(id: string) returns (i: nat)
      requires WellKept(records) && FindIn(records, id).Some?
      ensures i < |records| && records[i] == FindIn(records, id).value && records[i].id == id
      ensures forall k :: 0 <= k < |records| && k != i ==> records[k].id != id
    {
      i := 0;
      while records[i].id != id
        invariant 0 <= i < |records| && FindIn(records[i..], id) == FindIn(records, id)
        invariant forall k :: 0 <= k < i ==> records[k].id != id
        decreases |records| - i
      {
        assert records[i..][1..] == records[i + 1..];
        i := i + 1;
      }
    }

    // ---------- the routes (plugins.py) ----------

    /** registry.mark_failed on a registered record. */
    method MarkFailed(record: Record)
      requires Valid() && record in records
      modifies record`status, record`routers, this`routePrefixes
      ensures Valid() && record.status == Failed && record.routers == []
      ensures routePrefixes == old(routePrefixes) - Elements(old(record.routers))
    {
      record.status := Failed;
      routePrefixes := routePrefixes - set i | 0 <= i < |record.routers| :: record.routers[i];
      record.routers := [];
    }

    /** Mounts one router and notes its (plugin, prefix) pair. */
    method Mount(key: (string, string))
      requires MountsAgree() && key !in included
      modifies this`included, this`mounted
      ensures MountsAgree() && mounted == old(mounted) + [key] && included == old(included) + {key}
    {
      InElements(mounted, key);
      ElementsSnoc(mounted, key);
      mounted := mounted + [key];
      included := included + {key};
    }

    /** _include_plugin_routers: a (plugin, prefix) pair that is mounted is never mounted again. */
    method IncludeRouters(record: Record)
      requires Valid()
      modifies this`included, this`mounted
      ensures Valid() && old(mounted) <= mounted
      ensures forall p :: p in record.routers ==> (record.id, p) in included
      ensures forall k :: k in included ==> k in old(included) || (k.0 == record.id && k.1 in record.routers)
    {
      var i := 0;
      while i < |record.routers|
        invariant 0 <= i <= |record.routers| && MountsAgree() && old(mounted) <= mounted
        invariant forall j :: 0 <= j < i ==> (record.id, record.routers[j]) in included
        invariant forall k :: k in included ==> k in old(included) || (k.0 == record.id && k.1 in record.routers)
      {
        var key := (record.id, record.routers[i]);
        if key !in included {
          Mount(key);
        }
        i := i + 1;
      }
    }

    method MountOwn(record: Record)
      requires MountsAgree() && Distinct(record.routers)
      requires forall p :: p in record.routers ==> (record.id, p) !in included
      modifies this`included, this`mounted
      ensures MountsAgree()
      ensures forall k :: k in included <==> k in old(included) || (k.0 == record.id && k.1 in record.routers)
    {
      hide MountsAgree;
      var i := 0;
      while i < |record.routers|
        invariant 0 <= i <= |record.routers| && MountsAgree()
        invariant forall k :: k in included <==> k in old(included) || (k.0 == record.id && k.1 in record.routers[..i])
      {
        Mount((record.id, record.routers[i]));
        i := i + 1;
      }
    }

    predicate Offers(record: Record, k: (string, string))
      reads record
    {
      record.status == Enabled && record.id == k.0 && k.1 in record.routers
    }

    /** _register_routers: application creation mounts what the enabled records offer. No
        check against `included` is made here, and none is needed. */
    method RegisterRouters()
      requires Valid() && mounted == []
      modifies this`included, this`mounted
      ensures Valid()
      ensures forall k :: k in included <==>
                exists j :: 0 <= j < |records| && Offers(records[j], k)
    {
      included := {};
      var i := 0;
      while i < |records|
        invariant 0 <= i <= |records| && MountsAgree()
        invariant forall k :: k in included <==> exists j :: 0 <= j < i && Offers(records[j], k)
      {
        if records[i].status == Enabled {
          assert OwnRouters(records[i]);
          MountOwn(records[i]);
        }
        i := i + 1;
      }
    }

    ghost predicate Quiet(id: string)
      reads this`records, this`everyTask, records`tasks, everyTask
    {
      TasksOfId(id) !! Running()
    }

    /** POST /plugins/{id}/activate. `startError` is what starting the new record raised; the
        callbacks called are `stops` for the record it replaces, then `ups` and `undo`. */
    method Activate(id: string, config: PluginConfig)
      returns (reply: Reply, startError: Option<Failure>,
               ghost stops: seq<Event<Task>>, ghost ups: seq<Event<Task>>, ghost b: nat, ghost undo: seq<Event<Task>>)
      requires Valid()
      modifies this, everyTask`running
      ensures Valid() && log == old(log) + stops + ups + undo && old(mounted) <= mounted
      ensures fresh(everyTask - old(everyTask)) && old(everyTask) <= everyTask
      ensures forall r :: r in records ==> r in old(records) || fresh(r)
      // no task of a replaced record is left running, and nobody else's tasks are touched
      ensures old(TasksOfId(id)) !! Running()
      ensures Running() - TasksOfId(id) == old(Running()) - old(TasksOfId(id))
      ensures StopsMade(old(FindIn(records, id)), stops, old(Running()))
      // an Exception in a start callback is rolled back; a wider failure is passed on as it is
      ensures startError.Some? && startError.value.Exception? ==> Quiet(id)
      ensures reply.Ok? ==>
                && FindIn(records, id).Some?
                && var record := FindIn(records, id).value;
                && (record.status == Enabled ==> Elements(record.tasks) <= Running())
                && (forall p :: p in record.routers ==> (record.id, p) in included)
      ensures if FirstStopError(stops).Some? then reply == Propagates(FirstStopError(stops).value)
              else if config.NotConfigured? then reply == NotFound
              else if config.NoPath? then reply == BadRequest
              else Reloaded(id, config.plugin, old(records), old(Freed(id)), old(Running()) - old(TasksOfId(id)),
                            reply, startError, ups, b, undo)
      ensures FirstStopError(stops).Some? || !config.Configured? ==>
                && startError.None? && ups == [] && undo == []
                && Quiet(id) && records == old(records) && mounted == old(mounted)
    {
      hide Valid, Running, AllTasks, EnabledTasks, WellKept, MountsAgree, Agrees, Mirrors, Climbs, EndsWithRaise,
           FirstStopError, Live, Starts, StopAttempts, OnlyStops, Reversed, Elements, FindIn, DropId, Surfaced,
           QuietFrom, Acceptable, Registers, RefusedAt, Reloaded;
      ghost var log0, before, up := log, FindIn(records, id), Running();
      startError, stops, ups, b, undo := None, [], [], 0, [];
      MirrorsNil<Task>({});
      TasksOfIdAt(id);
      assert log == log0 + stops + ups + undo;
      var existing := Find(id);
      if existing.Some? {
        var stopError := StopTasks(existing.value);
        stops := log[|log0|..];
        assert log == log0 + stops + ups + undo;
        if stopError.Some? {
          return Propagates(stopError.value), startError, stops, ups, b, undo;
        }
      }
      match config {
        case NotConfigured =>
          return NotFound, startError, stops, ups, b, undo;
        case NoPath =>
          return BadRequest, startError, stops, ups, b, undo;
        case Configured(plugin) =>
          ghost var gone := TasksOfId(id);
          KnownTasks(id);
          reply, startError, ups, b, undo := Reload(id, plugin);
          assert gone !! TasksOfId(id);
          assert Running() <= (Running() - TasksOfId(id)) + TasksOfId(id);
      }
    }

    static ghost predicate StopsMade(existing: Option<Record>, stops: seq<Event<Task>>, up: set<Task>)
      reads if existing.Some? then {existing.value} else {}
    {
      if existing.Some? then Mirrors(stops, existing.value.tasks, up) else stops == []
    }

    /** The second half of the activate route: replace the record, start its tasks, mount its
        routers. */
    method Reload(id: string, plugin: Plugin)
      returns (reply: Reply, startError: Option<Failure>, ghost ups: seq<Event<Task>>, ghost b: nat,
               ghost undo: seq<Event<Task>>)
      requires Valid() && Quiet(id)
      modifies this, everyTask`running
      ensures Valid() && log == old(log) + ups + undo && old(mounted) <= mounted
      ensures fresh(everyTask - old(everyTask)) && old(everyTask) <= everyTask
      ensures forall r :: r in records ==> r in old(records) || fresh(r)
      ensures TasksOfId(id) !! old(everyTask) && Running() - TasksOfId(id) == old(Running())
      ensures startError.Some? && startError.value.Exception? ==> Quiet(id)
      ensures reply.Ok? ==> FindIn(records, id).Some? && Served(FindIn(records, id).value)
      ensures Reloaded(id, plugin, old(records), old(Freed(id)), old(Running()), reply, startError, ups, b, undo)
    {
      hide Valid, Running, AllTasks, EnabledTasks, WellKept, MountsAgree, Agrees, Mirrors, Climbs, EndsWithRaise,
           FirstStopError, Live, Starts, StopAttempts, OnlyStops, Reversed, Elements, FindIn, DropId, Surfaced,
           QuietFrom, Acceptable, Registers, RefusedAt;
      ghost var before, taken, up, log0 := records, Freed(id), Running(), log;
      undo := [];
      var record;
      record, startError, ups, b := Replace(id, plugin);
      assert log == log0 + ups + undo;
      if startError.Some? && startError.value.Exception? {
        ghost var log1 := log;
        reply := Rollback(record);
        undo := log[|log1|..];
        TasksOfIdAt(id);
        return;
      }
      if startError.Some? {
        return Propagates(startError.value), startError, ups, b, undo;
      }
      IncludeRouters(record);
      return Ok, startError, ups, b, undo;
    }

    /** What a reload does besides mounting: the new record, at the end of the registry, is what
        loading the plugin gives; its starts are made, and if one raises an `Exception` those that
        completed are stopped again, last first. The reply tells which way it went. */
    ghost predicate Reloaded(id: string, plugin: Plugin, before: seq<Record>, taken: set<string>, up: set<Task>,
                             reply: Reply, startError: Option<Failure>,
                             ups: seq<Event<Task>>, b: nat, undo: seq<Event<Task>>)
      reads this`records, records
    {
      && records != []
      && var record := records[|records| - 1];
      && records == DropId(before, id) + [record] && record.id == id
      && StartsMade(record, LoadedStatus(id, plugin, taken), ups, b, startError)
      && if startError.Some? && startError.value.Exception? then
           && b <= |record.tasks|
           && Mirrors(undo, record.tasks, up + Elements(record.tasks[0..b]))
           && reply == (if FirstStopError(undo).Some? then Propagates(FirstStopError(undo).value) else ServerError)
           && record.status == (if FirstStopError(undo).None? then Failed else Enabled)
           && (if FirstStopError(undo).None? then record.routers == [] else Loaded(record, id, plugin, taken))
         else
           && undo == [] && Loaded(record, id, plugin, taken)
           && reply == (if startError.Some? then Propagates(startError.value) else Ok)
    }

    /** Up to the starts: on return the new record is registered, and all its tasks are up if it
        is enabled and no start raised. */
    method Replace(id: string, plugin: Plugin)
      returns (record: Record, startError: Option<Failure>, ghost ups: seq<Event<Task>>, ghost b: nat)
      requires Valid() && Quiet(id)
      modifies this, everyTask`running
      ensures Valid() && old(log) <= log && mounted == old(mounted)
      ensures fresh(everyTask - old(everyTask)) && old(everyTask) <= everyTask
      ensures fresh(record) && forall r :: r in records ==> r in old(records) || r == record
      ensures TasksOfId(id) !! old(everyTask) && Running() - TasksOfId(id) == old(Running())
      ensures record.id == id && FindIn(records, id) == Some(record)
      ensures records == DropId(old(records), id) + [record] && Loaded(record, id, plugin, old(Freed(id)))
      ensures b <= |record.tasks| && log == old(log) + ups && StartsMade(record, record.status, ups, b, startError)
      ensures Running() == old(Running()) + Elements(record.tasks[0..b])
      ensures startError.None? && record.status == Enabled ==> Elements(record.tasks) <= Running()
    {
      hide Valid, Running, AllTasks, EnabledTasks, WellKept, MountsAgree, Agrees, Mirrors, Climbs, EndsWithRaise,
           FirstStopError, Live, Starts, StopAttempts, OnlyStops, Reversed, Elements, FindIn, DropId, Surfaced,
           QuietFrom, Acceptable, Registers, RefusedAt;
      RunningKnown();
      RemoveRecord(id);
      ghost var n := |records|;
      ghost var before, running := records, Running();
      ghost var taken := routePrefixes;
      record := LoadOne(id, plugin);
      assert records[..n] == before;
      ValidParts();
      FindLast(record);
      TasksOfIdAt(id);
      ghost var log0 := log;
      startError, b := StartTasks(record, n, 0);
      ups := log[|log0|..];
      Prefixes(record.tasks, b);
      TasksOfIdAt(id);
    }

    /** The start callbacks made for a record: one for each task in order up to the first that
        raised, which is the last one made; for all tasks if none did; none at all unless the record
        is enabled. */
    static ghost predicate StartsMade(record: Record, status: Status, ups: seq<Event<Task>>, b: nat,
                                      startError: Option<Failure>)
      reads record`tasks
    {
      && Climbs(ups, record.tasks, 0, b) && |ups| == b + (if startError.Some? then 1 else 0)
      && (status != Enabled ==> ups == [] && startError.None?)
      && (status == Enabled && startError.None? ==> b == |record.tasks|)
      && (startError.Some? ==> b < |record.tasks| && EndsWithRaise(ups, record.tasks[b], startError.value))
    }

    /** Stops what a failed start left running; if that raises too, the record is not marked. */
    method Rollback(record: Record) returns (reply: Reply)
      requires Valid() && FindIn(records, record.id) == Some(record)
      modifies this`log, this`routePrefixes, everyTask`running, record`status, record`routers
      ensures Valid() && old(log) <= log && Quiet(record.id)
      ensures Running() == old(Running()) - Elements(record.tasks)
      ensures reply.ServerError? ==> record.status == Failed && record.routers == []
      ensures !reply.ServerError? ==> record.status == old(record.status) && record.routers == old(record.routers)
      ensures Mirrors(log[|old(log)|..], record.tasks, old(Running()))
      ensures var e := FirstStopError(log[|old(log)|..]);
              reply == if e.Some? then Propagates(e.value) else ServerError
    {
      hide Valid, Running, AllTasks, EnabledTasks, WellKept, MountsAgree, Agrees, Mirrors, Climbs, EndsWithRaise,
           FirstStopError, Live, Starts, StopAttempts, OnlyStops, Reversed, Elements, FindIn, DropId, Surfaced,
           QuietFrom, Acceptable, Registers, RefusedAt;
      var stopError := StopTasks(record);
      TasksOfIdAt(record.id);
      if stopError.Some? {
        return Propagates(stopError.value);
      }
      MarkFailed(record);
      return ServerError;
    }

    /** Reply 200: an enabled record has all its tasks up, and its routers are mounted. */
    ghost predicate Served(record: Record)
      reads this`included, this`everyTask, everyTask, record
    {
      && (record.status == Enabled ==> Elements(record.tasks) <= Running())
      && (forall p :: p in record.routers ==> (record.id, p) in included)
    }

    lemma KnownTasks(id: string)
      requires Valid()
      ensures TasksOfId(id) <= everyTask
    {
      var r := FindIn(records, id);
      if r.Some? {
        TasksOf(r.value);
      }
    }

    lemma RunningKnown()
      ensures Running() <= everyTask
    {
    }

    lemma FindLast(record: Record)
      requires WellKept(records) && records != [] && records[|records| - 1] == record
      ensures FindIn(records, record.id) == Some(record)
    {
      var r := FindIn(records, record.id);
    }

    static lemma Prefixes(s: seq<Task>, b: nat)
      requires b <= |s|
      ensures Elements(s[0..b]) <= Elements(s) && s[0..|s|] == s
    {
    }

    /** POST /plugins/{id}/deactivate: the record's tasks are down whatever their stops did;
        the reply and the final status tell how. */
    method Deactivate(id: string) returns (reply: Reply)
      requires Valid()
      modifies this`log, this`routePrefixes, everyTask`running, records`status, records`routers
      ensures Valid() && Quiet(id) && old(log) <= log
      ensures Running() == old(Running()) - TasksOfId(id)
      ensures FindIn(records, id).None? ==> reply == NotFound && log == old(log)
      ensures FindIn(records, id).Some? ==>
                var record, e := FindIn(records, id).value, FirstStopError(log[|old(log)|..]);
                && Mirrors(log[|old(log)|..], record.tasks, old(Running()))
                && (e.None? ==> reply == Ok && record.status == Disabled)
                && (e.Some? && e.value.Exception? ==> reply == ServerError && record.status == Failed)
                && (e.Some? && e.value.BaseException? ==>
                      reply == Propagates(e.value) && record.status == old(record.status))
      ensures reply.Ok? || reply.ServerError? ==> routePrefixes == old(Freed(id))
    {
      hide Valid, Running, AllTasks, EnabledTasks, WellKept, MountsAgree, Agrees, Mirrors, Climbs, EndsWithRaise,
           FirstStopError, Live, Starts, StopAttempts, OnlyStops, Reversed, Elements, FindIn, DropId, Surfaced,
           QuietFrom, Acceptable, Registers, RefusedAt;
      FreedIs(id);
      TasksOfIdAt(id);
      var existing := Find(id);
      if existing.None? {
        return NotFound;
      }
      var record := existing.value;
      var stopError := StopTasks(record);
      TasksOfIdAt(id);
      if stopError.Some? {
        if stopError.value.Exception? {
          MarkFailed(record);
          reply := ServerError;
        } else {
          reply := Propagates(stopError.value);
        }
      } else {
        record.status := Disabled;
        routePrefixes := routePrefixes - set i | 0 <= i < |record.routers| :: record.routers[i];
        reply := Ok;
      }
    }

    // ---------- the application's lifespan (main.py) ----------

    method ServeOne(request: Request)
      requires Valid()
      modifies this, everyTask`running, records`status, records`routers
      ensures Valid() && old(log) <= log && old(mounted) <= mounted
      ensures fresh(everyTask - old(everyTask))
      ensures forall r :: r in records ==> r in old(records) || fresh(r)
    {
      hide *;
      match request {
        case Activation(id, config) =>
          var _, _, _, _, _, _ := Activate(id, config);
        case Deactivation(id) =>
          var _ := Deactivate(id);
      }
    }

    /** Serves activate and deactivate requests, one at a time, in any order and number. */
    method Serve(requests: seq<Request>)
      requires Valid()
      modifies this, everyTask`running, records`status, records`routers
      ensures Valid() && old(log) <= log && old(mounted) <= mounted
      ensures Distinct(mounted)
      ensures requests == [] ==> log == old(log)
      ensures fresh(everyTask - old(everyTask))
    {
      var i := 0;
      while i < |requests|
        invariant 0 <= i <= |requests|
        invariant Valid() && old(log) <= log && old(mounted) <= mounted
        invariant i == 0 ==> log == old(log)
        invariant fresh(everyTask - old(everyTask))
        invariant forall k :: 0 <= k < |records| ==> records[k] in old(records) || fresh(records[k])
      {
        hide *;
        ghost var prev := records;
        ServeOne(requests[i]);
        forall k | 0 <= k < |records| ensures records[k] in old(records) || fresh(records[k]) {
          assert records[k] in records;
          if records[k] in prev {
            var j :| 0 <= j < |prev| && prev[j] == records[k];
          }
        }
        i := i + 1;
      }
    }

    /** The whole run: startup, requests if startup succeeded, shutdown in any case. Shutdown
        attempts one stop per running task, in the reverse of the order in which they were
        started, and leaves nothing running; a stop error wins over a startup error. Startup makes
        one start for each enabled task, in order, up to the first that raises. */
    method Lifespan(requests: seq<Request>)
      returns (error: Option<Failure>, ghost startError: Option<Failure>, ghost b: nat,
               ghost ups: seq<Event<Task>>, ghost served: seq<Event<Task>>, ghost stops: seq<Event<Task>>)
      requires Valid() && Running() == {}
      modifies this, everyTask`running, records`status, records`routers
      ensures Valid() && Running() == {}
      ensures log == old(log) + ups + served + stops
      ensures Climbs(ups, old(EnabledTasks(records)), 0, b) && |ups| == b + if startError.Some? then 1 else 0
      ensures startError.None? ==> b == |old(EnabledTasks(records))|
      ensures startError.Some? ==>
                && b < |old(EnabledTasks(records))| && served == []
                && EndsWithRaise(ups, old(EnabledTasks(records))[b], startError.value)
      ensures OnlyStops(stops) && StopAttempts(stops) == Reversed(Live(old(log) + ups + served))
      ensures requests == [] ==> served == [] && StopAttempts(stops) == Reversed(Starts(ups))
      ensures error == if FirstStopError(stops).Some? then FirstStopError(stops) else startError
    {
      hide Valid, Running, AllTasks, EnabledTasks, WellKept, MountsAgree, Agrees, Mirrors, Climbs, EndsWithRaise,
           FirstStopError, Live, Starts, StopAttempts, OnlyStops, Reversed, Elements, FindIn, DropId, Surfaced,
           QuietFrom, Acceptable, Registers, RefusedAt;
      NothingLive();
      ghost var log0 := log;
      error, b := StartEnabled();
      startError := error;
      ups := log[|log0|..];
      NoStopsYet(log0, ups, old(EnabledTasks(records)), b);
      if error.None? {
        Serve(requests);
      }
      served := log[|log0 + ups|..];
      ghost var log1 := log;
      assert log1 == log0 + ups + served;
      ConcatBack(log0 + ups, []);
      assert requests == [] ==> served == [] && log0 + ups + served == log0 + ups;
      var stopError := StopAll();
      stops := log[|log1|..];
      if stopError.Some? {
        error := stopError;
      }
    }

    lemma NothingLive()
      requires Valid() && Running() == {}
      ensures Live(log) == []
    {
      ElementsNone(Live(log));
    }

    static lemma NoStopsYet(log0: seq<Event<Task>>, ups: seq<Event<Task>>, s: seq<Task>, b: nat)
      requires Live(log0) == [] && Climbs(ups, s, 0, b)
      ensures Live(log0 + ups) == Starts(ups)
    {
      LiveAfterStarts(log0, ups);
    }
  }
}
