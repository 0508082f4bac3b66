/**
 Exclusive model load and restore on remote nodes (core/model_lifecycle.py). A request to a
 node may fail before or after the node has acted on it.
 */
module ModelLifecycle {
  import opened Wrappers
  import opened Sequences
  import opened ModelWait

  /** Node name to the names of the models running there. */
  type Residency = map<string, set<string>>

  datatype Action = Stop | Start

  /** One POST to a node. `applied`: the node did it. `raised`: the caller saw an exception. */
  datatype Attempt = Attempt(node: string, model: string, action: Action, applied: bool, raised: bool)

  /** How a node resolves the name of a model to the name it reports. */
  type Aliases = (string, string) -> string

  function Effect(run: Residency, a: Attempt, alias: Aliases): Residency {
    if a.node !in run || !a.applied then run
    else if a.action.Stop? then run[a.node := run[a.node] - {alias(a.node, a.model)}]
    else run[a.node := run[a.node] + {alias(a.node, a.model)}]
  }

  function Replay(run: Residency, attempts: seq<Attempt>, alias: Aliases): Residency {
    if attempts == [] then run
    else Effect(Replay(run, attempts[..|attempts| - 1], alias), attempts[|attempts| - 1], alias)
  }

  predicate Matches(a: Attempt, node: string, model: string, action: Action) {
    a.node == node && a.model == model && a.action == action && (a.raised || a.applied)
  }

  /** The requests `load_exclusive` makes when nothing fails; a failure cuts them short. */
  predicate FollowsLoad(attempts: seq<Attempt>, node: string, model: string, prior: seq<string>) {
    && |attempts| <= |prior| + 1
    && forall i :: 0 <= i < |attempts| ==>
         Matches(attempts[i], node, if i < |prior| then prior[i] else model, if i < |prior| then Stop else Start)
  }

  /** The requests `restore_exclusive` makes, whatever fails. */
  predicate FollowsRestore(attempts: seq<Attempt>, node: string, model: string, prior: seq<string>) {
    && |attempts| == |prior| + 1
    && forall i :: 0 <= i < |attempts| ==>
         Matches(attempts[i], node, if i == 0 then model else prior[i - 1], if i == 0 then Stop else Start)
  }

  predicate AllApplied(attempts: seq<Attempt>) {
    forall i :: 0 <= i < |attempts| ==> attempts[i].applied
  }

  function Names(node: string, models: seq<string>, alias: Aliases): set<string> {
    set i | 0 <= i < |models| :: alias(node, models[i])
  }

  /** The running names a node reports resolve to themselves. */
  ghost predicate Canonical(run: Residency, alias: Aliases) {
    && (forall n, m :: n in run && m in run[n] ==> alias(n, m) == m)
    && (forall n, m :: alias(n, alias(n, m)) == alias(n, m))
  }

  /** `prior` is exactly what runs on `node`. */
  ghost predicate FullSnapshot(run: Residency, node: string, prior: seq<string>) {
    node in run && (forall i :: 0 <= i < |prior| ==> prior[i] in run[node]) && forall m :: m in run[node] ==> m in prior
  }

  /** What a restore does when every request gets through. */
  function Undone(run: Residency, node: string, model: string, prior: seq<string>, alias: Aliases): Residency {
    if node !in run then run
    else run[node := run[node] - {alias(node, model)} + Names(node, prior, alias)]
  }

  // ---------- replaying requests ----------

  lemma ReplaySnoc(run: Residency, attempts: seq<Attempt>, a: Attempt, alias: Aliases)
    ensures Replay(run, attempts + [a], alias) == Effect(Replay(run, attempts, alias), a, alias)
  {
    assert (attempts + [a])[..|attempts|] == attempts;
  }

  lemma FollowsLoadSnoc(attempts: seq<Attempt>, a: Attempt, node: string, model: string, prior: seq<string>)
    requires FollowsLoad(attempts, node, model, prior) && |attempts| <= |prior|
    requires if |attempts| < |prior| then Matches(a, node, prior[|attempts|], Stop) else Matches(a, node, model, Start)
    ensures FollowsLoad(attempts + [a], node, model, prior)
  {
  }

  lemma {:induction false} ReplayConcat(run: Residency, a: seq<Attempt>, b: seq<Attempt>, alias: Aliases)
    ensures Replay(run, a + b, alias) == Replay(Replay(run, a, alias), b, alias)
  {
    if b == [] {
      assert a + b == a;
    } else {
      var n := |b| - 1;
      ReplayConcat(run, a, b[..n], alias);
      assert a + b == (a + b[..n]) + [b[n]];
      ReplaySnoc(run, a + b[..n], b[n], alias);
    }
  }

  lemma {:induction false} ReplayKeys(run: Residency, attempts: seq<Attempt>, alias: Aliases)
    ensures Replay(run, attempts, alias).Keys == run.Keys
  {
    if attempts != [] {
      ReplayKeys(run, attempts[..|attempts| - 1], alias);
    }
  }

  /** From every intermediate state of a load, whatever failed: only the target has been added,
      only models of the snapshot have been removed, and other nodes are untouched. */
  lemma {:induction false} LoadStaysInside(run: Residency, attempts: seq<Attempt>, node: string, model: string,
                                           prior: seq<string>, alias: Aliases)
    requires node in run && FollowsLoad(attempts, node, model, prior)
    ensures var now := Replay(run, attempts, alias);
            && now.Keys == run.Keys
            && (forall n :: n in run && n != node ==> now[n] == run[n])
            && now[node] <= run[node] + {alias(node, model)}
            && run[node] - Names(node, prior, alias) <= now[node]
  {
    if attempts != [] {
      var k := |attempts| - 1;
      LoadStaysInside(run, attempts[..k], node, model, prior, alias);
      if k < |prior| {
        assert alias(node, prior[k]) in Names(node, prior, alias);
      }
    }
  }

  /** A restore whose requests all take effect, from any state. */
  lemma {:induction false} RestoreMeansUndone(run: Residency, attempts: seq<Attempt>, node: string, model: string,
                                              prior: seq<string>, alias: Aliases)
    requires FollowsRestore(attempts, node, model, prior) && AllApplied(attempts)
    ensures Replay(run, attempts, alias) == Undone(run, node, model, prior, alias)
  {
    if prior == [] {
      assert attempts[..0] == [] && Replay(run, [], alias) == run;
      assert Names(node, prior, alias) == {};
      if node in run {
        assert run[node] - {alias(node, model)} + {} == run[node] - {alias(node, model)};
      }
    } else {
      var k := |prior| - 1;
      var init := attempts[..k + 1];
      RestoreMeansUndone(run, init, node, model, prior[..k], alias);
      NamesSnoc(node, prior, alias);
      assert attempts == init + [attempts[k + 1]];
      if node in run {
        assert run[node] - {alias(node, model)} + Names(node, prior, alias) ==
               (run[node] - {alias(node, model)} + Names(node, prior[..k], alias)) + {alias(node, prior[k])};
      }
    }
  }

  lemma NamesSnoc(node: string, models: seq<string>, alias: Aliases)
    requires models != []
    ensures Names(node, models, alias) == Names(node, models[..|models| - 1], alias) +
                                         {alias(node, models[|models| - 1])}
  {
    var k := |models| - 1;
    forall m | m in Names(node, models, alias)
      ensures m in Names(node, models[..k], alias) + {alias(node, models[k])}
    {
      var i :| 0 <= i < |models| && alias(node, models[i]) == m;
      if i < k { assert models[..k][i] == models[i]; }
    }
    forall m | m in Names(node, models[..k], alias) ensures m in Names(node, models, alias) {
      var i :| 0 <= i < |models[..k]| && alias(node, models[..k][i]) == m;
      assert models[i] == models[..k][i];
    }
    assert alias(node, models[k]) in Names(node, models, alias);
  }

  lemma SnapshotNames(run: Residency, node: string, prior: seq<string>, alias: Aliases)
    requires Canonical(run, alias) && FullSnapshot(run, node, prior)
    ensures Names(node, prior, alias) == run[node]
  {
    forall m | m in run[node] ensures m in Names(node, prior, alias) {
      var i :| 0 <= i < |prior| && prior[i] == m;
      assert alias(node, prior[i]) == m;
    }
  }

  /** The protocol's promise: a restore that gets through returns every node to what it ran at
      the snapshot, from wherever the load stopped and whatever it had managed to do, also
      when the target was already running. */
  lemma RestoreUndoesLoad(run: Residency, load: seq<Attempt>, restore: seq<Attempt>, node: string, model: string,
                          prior: seq<string>, alias: Aliases)
    requires Canonical(run, alias) && FullSnapshot(run, node, prior)
    requires FollowsLoad(load, node, model, prior)
    requires FollowsRestore(restore, node, model, prior) && AllApplied(restore)
    ensures Replay(run, load + restore, alias) == run
  {
    var now := Replay(run, load, alias);
    ReplayConcat(run, load, restore, alias);
    LoadStaysInside(run, load, node, model, prior, alias);
    RestoreMeansUndone(now, restore, node, model, prior, alias);
    SnapshotNames(run, node, prior, alias);
    UndoneGivesBack(run, now, node, model, prior, alias);
  }

  lemma UndoneGivesBack(run: Residency, now: Residency, node: string, model: string, prior: seq<string>, alias: Aliases)
    requires node in run && now.Keys == run.Keys && Names(node, prior, alias) == run[node]
    requires forall n :: n in run && n != node ==> now[n] == run[n]
    requires now[node] <= run[node] + {alias(node, model)}
    ensures Undone(now, node, model, prior, alias) == run
  {
    assert now[node] - {alias(node, model)} + run[node] == run[node];
  }

  /** With faults: every prior model whose start took effect is running afterwards, also when the
      answer was lost. */
  lemma {:induction false} RestoreKeepsWhatStarted(run: Residency, attempts: seq<Attempt>, node: string, model: string,
                                                   prior: seq<string>, alias: Aliases, i: nat)
    requires node in run && FollowsRestore(attempts, node, model, prior)
    requires i < |prior| && attempts[i + 1].applied
    ensures node in Replay(run, attempts, alias) && alias(node, prior[i]) in Replay(run, attempts, alias)[node]
    decreases |prior|
  {
    var k := |prior| - 1;
    ReplayKeys(run, attempts, alias);
    ReplayKeys(run, attempts[..k + 1], alias);
    if i < k {
      RestoreKeepsWhatStarted(run, attempts[..k + 1], node, model, prior[..k], alias, i);
    }
  }

  // ---------- peak residency ----------

  /** While the stops go through, what is left is the snapshot minus what was stopped. */
  lemma {:induction false} LoadStep(run: Residency, load: seq<Attempt>, node: string, model: string,
                                    prior: seq<string>, alias: Aliases, k: nat)
    requires node in run && FollowsLoad(load, node, model, prior) && AllApplied(load)
    requires k <= |load| && k <= |prior|
    ensures var now := Replay(run, load[..k], alias);
            node in now && now[node] == run[node] - Names(node, prior[..k], alias)
  {
    if k == 0 {
      assert run[node] - {} == run[node];
    } else {
      LoadStep(run, load, node, model, prior, alias, k - 1);
      assert load[..k][..k - 1] == load[..k - 1];
      assert prior[..k][..k - 1] == prior[..k - 1];
      NamesSnoc(node, prior[..k], alias);
    }
  }

  /** A load that went through leaves exactly the target. */
  lemma LoadDone(run: Residency, load: seq<Attempt>, node: string, model: string, prior: seq<string>, alias: Aliases)
    requires Canonical(run, alias) && FullSnapshot(run, node, prior)
    requires FollowsLoad(load, node, model, prior) && |load| == |prior| + 1 && AllApplied(load)
    ensures node in Replay(run, load, alias) && Replay(run, load, alias)[node] == {alias(node, model)}
  {
    LoadStep(run, load, node, model, prior, alias, |prior|);
    assert prior[..|prior|] == prior;
    SnapshotNames(run, node, prior, alias);
  }

  lemma {:induction false} RestoreStep(run: Residency, restore: seq<Attempt>, node: string, model: string,
                                       prior: seq<string>, alias: Aliases, k: nat)
    requires node in run && run[node] == {alias(node, model)}
    requires FollowsRestore(restore, node, model, prior) && AllApplied(restore) && 1 <= k <= |restore|
    ensures var now := Replay(run, restore[..k], alias);
            node in now && now[node] == Names(node, prior[..k - 1], alias)
  {
    assert restore[..k][..k - 1] == restore[..k - 1];
    if k == 1 {
      assert Replay(run, restore[..0], alias) == run;
      assert Names(node, prior[..0], alias) == {};
    } else {
      RestoreStep(run, restore, node, model, prior, alias, k - 1);
      assert prior[..k - 1][..k - 2] == prior[..k - 2];
      NamesSnoc(node, prior[..k - 1], alias);
    }
  }

  lemma NamesInside(node: string, models: seq<string>, k: nat, alias: Aliases)
    requires k <= |models|
    ensures Names(node, models[..k], alias) <= Names(node, models, alias)
  {
    forall m | m in Names(node, models[..k], alias) ensures m in Names(node, models, alias) {
      var i :| 0 <= i < k && alias(node, models[..k][i]) == m;
      assert models[i] == models[..k][i];
    }
  }

  lemma PeakInRestore(mid: Residency, restore: seq<Attempt>, node: string, model: string, prior: seq<string>,
                      alias: Aliases, k: nat, before: set<string>)
    requires node in mid && mid[node] == {alias(node, model)} && Names(node, prior, alias) == before
    requires FollowsRestore(restore, node, model, prior) && AllApplied(restore) && 1 <= k <= |restore|
    ensures node in Replay(mid, restore[..k], alias) && |Replay(mid, restore[..k], alias)[node]| <= |before|
  {
    RestoreStep(mid, restore, node, model, prior, alias, k);
    NamesInside(node, prior, k - 1, alias);
    SubsetSize(Names(node, prior[..k - 1], alias), before);
  }

  lemma Lengths(run: Residency, restore: seq<Attempt>, node: string, model: string, prior: seq<string>)
    requires FullSnapshot(run, node, prior) && FollowsRestore(restore, node, model, prior)
    ensures node in run && |restore| == |prior| + 1
  {
  }

  /** Load then restore, all requests taking effect: at every step the node runs at most
      max(1, snapshot size) models. */
  lemma PeakResidency(run: Residency, load: seq<Attempt>, restore: seq<Attempt>, node: string, model: string,
                      prior: seq<string>, alias: Aliases, k: nat)
    requires Canonical(run, alias) && FullSnapshot(run, node, prior)
    requires FollowsLoad(load, node, model, prior) && |load| == |prior| + 1 && AllApplied(load)
    requires FollowsRestore(restore, node, model, prior) && AllApplied(restore)
    requires k <= |load + restore|
    ensures var now := Replay(run, (load + restore)[..k], alias);
            node in now && |now[node]| <= if |run[node]| <= 1 then 1 else |run[node]|
  {
    hide *;
    Lengths(run, restore, node, model, prior);
    if k <= |prior| {
      LoadStep(run, load, node, model, prior, alias, k);
      assert (load + restore)[..k] == load[..k];
      SubsetSize(run[node] - Names(node, prior[..k], alias), run[node]);
    } else {
      LoadDone(run, load, node, model, prior, alias);
      if k == |load| {
        assert (load + restore)[..k] == load;
      } else {
        assert (load + restore)[..k] == load + restore[..k - |load|];
        ReplayConcat(run, load, restore[..k - |load|], alias);
        SnapshotNames(run, node, prior, alias);
        PeakInRestore(Replay(run, load, alias), restore, node, model, prior, alias, k - |load|, run[node]);
      }
    }
  }

  // ---------- the controller's side ----------

  /** The names the start response and the request allow the model to come up under. */
  function ExpectedNames(model: string, reply: Option<string>): set<string> {
    {model} + if reply.Some? && reply.value != "" then {reply.value} else {}
  }

  /** These are the requested name and the one in the start response, if that is not empty. */
  lemma ExpectedNamesMean(model: string, reply: Option<string>, name: string)
    ensures name in ExpectedNames(model, reply) <==> name == model || (name != "" && reply == Some(name))
  {
  }

  /** The environment of one load: whether the snapshot request is answered, and with a list; the
      name in the start response, without white space around it; what the status polls see and how
      time passes. */
  datatype Waiting =
    Waiting(answers: bool, isList: bool, startReply: Option<string>, polls: nat -> Poll, clock: nat -> real)

  /** What a snapshot gives: nothing if the request raises, the full list, or, for an answer that
      is not a list, an empty one. */
  ghost predicate SnapshotIs(run: Residency, node: string, w: Waiting, r: Option<seq<string>>) {
    if node == "" || node !in run || !w.answers then r == None
    else r.Some? && if w.isList then FullSnapshot(run, node, r.value) else r.value == []
  }

  /** The requests of a load, up to the first that raises, and its end: it is good if none raised
      and the wait, which made `n` polls, saw the model up. */
  ghost predicate LoadMade(load: seq<Attempt>, node: string, model: string, prior: seq<string>, timeout: real,
                           w: Waiting,
                           n: nat, ok: bool) {
    && FollowsLoad(load, node, model, prior) && 1 <= |load|
    && (forall i :: 0 <= i < |load| - 1 ==> !load[i].raised)
    && if load[|load| - 1].raised then !ok
       else |load| == |prior| + 1 && Waited(w.polls, w.clock, timeout, ExpectedNames(model, w.startReply), n, ok)
  }

  class Fleet {
    const alias: Aliases
    var running: Residency
    ghost var attempts: seq<Attempt>

    ghost predicate Valid()
      reads this
    {
      Canonical(running, alias)
    }

    constructor (alias: Aliases, running: Residency)
      requires Canonical(running, alias)
      ensures Valid() && this.alias == alias && this.running == running && attempts == []
    {
      this.alias, this.running := alias, running;
      attempts := [];
    }

    /** One POST: the node may be unknown, the request may be lost, or its answer may be. */
    method RequestAction(node: string, model: string, action: Action) returns (raised: bool, ghost a: Attempt)
      requires Valid()
      modifies this`running, this`attempts
      ensures Valid() && Matches(a, node, model, action) && a.raised == raised
      ensures attempts == old(attempts) + [a] && running == Effect(old(running), a, alias)
      ensures a.applied ==> node in old(running)
    {
      var applied: bool := *;
      raised := *;
      if node !in running {
        applied, raised := false, true;
      }
      if !applied {
        raised := true;
      }
      a := Attempt(node, model, action, applied, raised);
      if applied {
        match action
        case Stop => running := running[node := running[node] - {alias(node, model)}];
        case Start => running := running[node := running[node] + {alias(node, model)}];
      }
      attempts := attempts + [a];
    }

    /** The names of the models running on the node. */
    method SnapshotRunningModels(node: string, w: Waiting) returns (r: Option<seq<string>>)
      requires Valid()
      ensures SnapshotIs(running, node, w, r)
    {
      if node == "" || node !in running || !w.answers {
        return None;
      }
      if !w.isList {
        return Some([]);
      }
      var names := ListNames(running[node]);
      r := Some(names);
    }

    static method ListNames(names: set<string>) returns (r: seq<string>)
      ensures (forall i :: 0 <= i < |r| ==> r[i] in names) && forall m :: m in names ==> m in r
    {
      var rest := names;
      r := [];
      while rest != {}
        invariant rest <= names && (forall i :: 0 <= i < |r| ==> r[i] in names)
        invariant forall m :: m in names ==> m in rest || m in r
        decreases rest
      {
        var m :| m in rest;
        rest := rest - {m};
        r := r + [m];
      }
    }

    /** load_exclusive: `ok` stands for a normal return. */
    method LoadExclusive(node: string, model: string, prior: seq<string>, timeout: real, w: Waiting)
      returns (ok: bool, ghost more: seq<Attempt>, ghost n: nat)
      requires Valid() && ClockRuns(w.clock)
      modifies this`running, this`attempts
      ensures Valid() && attempts == old(attempts) + more && running == Replay(old(running), more, alias)
      ensures LoadMade(more, node, model, prior, timeout, w, n, ok)
    {
      assert Replay(running, [], alias) == running;
      assert FollowsLoad([], node, model, prior);
      hide Replay, Effect, Waited, ClockRuns, Canonical, FollowsLoad, Matches;
      more, n := [], 0;
      var i := 0;
      while i < |prior|
        invariant 0 <= i <= |prior| && |more| == i
        invariant Valid() && attempts == old(attempts) + more && FollowsLoad(more, node, model, prior)
        invariant running == Replay(old(running), more, alias)
        invariant forall j :: 0 <= j < |more| ==> !more[j].raised
      {
        var raised, a := RequestAction(node, prior[i], Stop);
        ReplaySnoc(old(running), more, a, alias);
        FollowsLoadSnoc(more, a, node, model, prior);
        more := more + [a];
        if raised {
          return false, more, n;
        }
        i := i + 1;
      }
      var raised, a := RequestAction(node, model, Start);
      ReplaySnoc(old(running), more, a, alias);
      FollowsLoadSnoc(more, a, node, model, prior);
      more := more + [a];
      if raised {
        return false, more, n;
      }
      var wait;
      wait, n := WaitForModelRunning(w.polls, w.clock, timeout, ExpectedNames(model, w.startReply));
      ok := wait.running;
    }

    /** restore_exclusive: attempts the stop and then every start, whatever fails. */
    method RestoreExclusive(node: string, model: string, prior: seq<string>) returns (ghost more: seq<Attempt>)
      requires Valid()
      modifies this`running, this`attempts
      ensures Valid() && attempts == old(attempts) + more
      ensures running == Replay(old(running), more, alias)
      ensures if node == "" then more == [] else FollowsRestore(more, node, model, prior)
      ensures AllApplied(more) ==> node == "" || node in old(running)
      ensures node != "" && AllApplied(more) ==> running == Undone(old(running), node, model, prior, alias)
    {
      more := [];
      if node == "" {
        return;
      }
      var _, first := RequestAction(node, model, Stop);
      ReplaySnoc(old(running), more, first, alias);
      more := [first];
      var i := 0;
      while i < |prior|
        invariant 0 <= i <= |prior| && |more| == i + 1 && more[0] == first
        invariant Valid() && attempts == old(attempts) + more
        invariant FollowsRestore(more, node, model, prior[..i])
        invariant running == Replay(old(running), more, alias)
      {
        var _, a := RequestAction(node, prior[i], Start);
        ReplaySnoc(old(running), more, a, alias);
        more := more + [a];
        i := i + 1;
      }
      assert prior[..|prior|] == prior;
      if AllApplied(more) {
        RestoreMeansUndone(old(running), more, node, model, prior, alias);
      }
    }
  }
}
