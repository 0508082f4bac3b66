/** The polling loop that waits for a model to come up on a node (core/model_lifecycle.py). */
module ModelWait {
  import opened Wrappers

  /** The name in an entry: a string, an array or object, which cannot be looked up in a set, or
      anything else. */
  datatype Name = Named(name: string) | Unhashable | OtherName

  /** One entry of a node's model list: JSON that need not be an object. */
  datatype Entry = NotAnObject | Model(name: Name, running: bool, ready: Option<bool>)

  /** What looking through a list comes to: an entry that fits, none, or an exception. */
  datatype Check = Found | Absent | CheckRaises

  /** A status request: a payload that is not a list reads as the empty list. */
  datatype Poll = Payload(models: seq<Entry>) | Raises(error: string)

  datatype WaitResult = WaitResult(running: bool, lastModels: seq<Entry>, lastError: Option<string>)

  predicate Ready(e: Entry)
    requires e.Model?
  {
    e.ready.None? || e.ready.value
  }

  predicate Up(e: Entry, names: set<string>) {
    e.Model? && e.name.Named? && e.name.name in names && e.running && Ready(e)
  }

  predicate Breaks(e: Entry) {
    e.Model? && e.name.Unhashable?
  }

  /** The result is that of the first entry which fits or breaks. */
  ghost predicate Checked(models: seq<Entry>, names: set<string>, c: Check) {
    match c
    case Absent => forall i :: 0 <= i < |models| ==> !Up(models[i], names) && !Breaks(models[i])
    case Found => exists i :: 0 <= i < |models| && Up(models[i], names) && forall j :: 0 <= j < i ==> !Breaks(models[j])
    case CheckRaises =>
      exists i :: && 0 <= i < |models| && Breaks(models[i])
                  && forall j :: 0 <= j < i ==> !Up(models[j], names) && !Breaks(models[j])
  }

  /** model_running, with the short circuit of `any`. */
  function ModelRunning(models: seq<Entry>, names: set<string>): (c: Check)
    ensures Checked(models, names, c)
  {
    if models == [] then Absent
    else if Up(models[0], names) then Found
    else if Breaks(models[0]) then CheckRaises
    else
      var c := ModelRunning(models[1..], names);
      Shifted(models, names, c);
      c
  }

  lemma Shifted(models: seq<Entry>, names: set<string>, c: Check)
    requires models != [] && !Up(models[0], names) && !Breaks(models[0]) && Checked(models[1..], names, c)
    ensures Checked(models, names, c)
  {
    var rest := models[1..];
    if c.Found? {
      var i :| 0 <= i < |rest| && Up(rest[i], names) && forall j :: 0 <= j < i ==> !Breaks(rest[j]);
      assert Up(models[i + 1], names) && forall j :: 0 < j < i + 1 ==> models[j] == rest[j - 1];
    } else if c.CheckRaises? {
      var i :| && 0 <= i < |rest| && Breaks(rest[i])
               && forall j :: 0 <= j < i ==> !Up(rest[j], names) && !Breaks(rest[j]);
      assert Breaks(models[i + 1]) && forall j :: 0 < j < i + 1 ==> models[j] == rest[j - 1];
    } else {
      assert forall j :: 0 < j < |models| ==> models[j] == rest[j - 1];
    }
  }

  predicate Seen(p: Poll, names: set<string>) {
    p.Payload? && ModelRunning(p.models, names).Found?
  }

  const UNHASHABLE_NAME := "TypeError: unhashable type"

  /** The error a poll leaves behind: that of the request, or of looking through its answer. */
  function ErrorOf(p: Poll, names: set<string>): Option<string> {
    match p
    case Raises(e) => Some(e)
    case Payload(models) => if ModelRunning(models, names).CheckRaises? then Some(UNHASHABLE_NAME) else None
  }

  /** In the terms of the answer: a model of one of the names runs and is not reported as unready,
      and no entry before it has a name that cannot be looked up. */
  lemma SeenMeans(p: Poll, names: set<string>)
    ensures Seen(p, names) <==>
              && p.Payload?
              && exists i :: && 0 <= i < |p.models| && p.models[i].Model?
                             && p.models[i].name.Named? && p.models[i].name.name in names
                             && p.models[i].running && p.models[i].ready != Some(false)
                             && forall j :: 0 <= j < i ==> !(p.models[j].Model? && p.models[j].name.Unhashable?)
  {
    if p.Payload? {
      var c := ModelRunning(p.models, names);
      if i :| && 0 <= i < |p.models| && p.models[i].Model?
              && p.models[i].name.Named? && p.models[i].name.name in names
              && p.models[i].running && p.models[i].ready != Some(false)
              && forall j :: 0 <= j < i ==> !(p.models[j].Model? && p.models[j].name.Unhashable?) {
        assert Up(p.models[i], names) && forall j :: 0 <= j < i ==> !Breaks(p.models[j]);
        assert c.Found?;
      }
      if c.Found? {
        var i :| 0 <= i < |p.models| && Up(p.models[i], names) && forall j :: 0 <= j < i ==> !Breaks(p.models[j]);
        assert p.models[i].ready != Some(false);
      }
    }
  }

  /** A poll leaves an error behind exactly when its request raises, or its answer has a name that
      cannot be looked up and no model before it that is up. */
  lemma ErrorMeans(p: Poll, names: set<string>)
    ensures p.Raises? ==> ErrorOf(p, names) == Some(p.error)
    ensures p.Payload? ==>
              (ErrorOf(p, names).Some? <==>
                 && !Seen(p, names)
                 && exists i :: 0 <= i < |p.models| && p.models[i].Model? && p.models[i].name.Unhashable?)
  {
    if p.Payload? {
      if i :| 0 <= i < |p.models| && p.models[i].Model? && p.models[i].name.Unhashable? {
        assert Breaks(p.models[i]);
      }
      if ModelRunning(p.models, names).CheckRaises? {
        var i :| 0 <= i < |p.models| && Breaks(p.models[i]);
        assert p.models[i].name.Unhashable?;
      }
    }
  }

  /** The payload of the latest poll before `n` that answered. */
  function LastPayload(polls: nat -> Poll, n: nat): seq<Entry> {
    if n == 0 then []
    else if polls(n - 1).Payload? then polls(n - 1).models
    else LastPayload(polls, n - 1)
  }

  /** It is that of the last poll that answered, at `k`, or empty when none did. */
  lemma {:induction false} LastPayloadMeans(polls: nat -> Poll, n: nat) returns (k: int)
    ensures -1 <= k < n && forall j: nat :: k < j < n ==> polls(j).Raises?
    ensures k >= 0 ==> polls(k).Payload?
    ensures LastPayload(polls, n) == if k >= 0 then polls(k).models else []
  {
    if n == 0 {
      k := -1;
    } else if polls(n - 1).Payload? {
      k := n - 1;
    } else {
      k := LastPayloadMeans(polls, n - 1);
    }
  }

  function Ceil(x: real): (c: int)
    ensures c as real - 1.0 < x <= c as real
  {
    -((-x).Floor)
  }

  /** `clock(0)` is read for the deadline, `clock(k)` after the k-th poll. Between two polls the
      loop sleeps, which takes at least a second. */
  ghost predicate ClockRuns(clock: nat -> real) {
    clock(0) <= clock(1) && forall k: nat :: 1 <= k ==> clock(k) + 1.0 <= clock(k + 1)
  }

  lemma {:induction false} ClockAfter(clock: nat -> real, n: nat)
    requires ClockRuns(clock) && 1 <= n
    ensures clock(n) >= clock(0) + (n - 1) as real
  {
    if n > 1 {
      ClockAfter(clock, n - 1);
      assert clock(n - 1) + 1.0 <= clock((n - 1) + 1);
    }
  }

  /** No poll happens once the deadline has been seen to pass. */
  lemma PollBound(clock: nat -> real, timeout: real, n: nat)
    requires ClockRuns(clock) && 1 <= n && clock(n) < clock(0) + timeout
    ensures n <= Ceil(timeout)
  {
    ClockAfter(clock, n);
    assert (n - 1) as real < timeout;
  }

  /** A wait that made `n` polls and reports `running`: at least one poll, at most one more than
      the seconds waited for; `running` says what the last poll saw, no earlier one saw it, and
      giving up means that the deadline had passed. */
  ghost predicate Waited(polls: nat -> Poll, clock: nat -> real, timeout: real, names: set<string>, n: nat,
                         running: bool) {
    && 1 <= n && (timeout >= 0.0 ==> n <= Ceil(timeout) + 1) && (timeout < 0.0 ==> n == 1)
    && (running <==> Seen(polls(n - 1), names))
    && (forall k: nat :: k < n - 1 ==> !Seen(polls(k), names))
    && (forall k: nat :: 1 <= k < n ==> clock(k) < clock(0) + timeout)
    && (!running ==> clock(n) >= clock(0) + timeout)
  }

  method WaitForModelRunning(polls: nat -> Poll, clock: nat -> real, timeout: real, names: set<string>)
    returns (r: WaitResult, n: nat)
    requires ClockRuns(clock)
    ensures Waited(polls, clock, timeout, names, n, r.running)
    ensures r.lastModels == LastPayload(polls, n)
    ensures r.lastError == ErrorOf(polls(n - 1), names)
  {
    var deadline := clock(0) + timeout;
    var lastModels: seq<Entry> := [];
    var lastError: Option<string> := None;
    n := 0;
    while true
      invariant forall k: nat :: k < n ==> !Seen(polls(k), names)
      invariant forall k: nat :: 1 <= k <= n ==> clock(k) < deadline
      invariant lastModels == LastPayload(polls, n)
      decreases Ceil(timeout) - n
    {
      var p := polls(n);
      n := n + 1;
      if n > 1 {
        PollBound(clock, timeout, n - 1);
      }
      match p {
        case Payload(models) =>
          lastModels, lastError := models, None;
          match ModelRunning(models, names) {
            case Found => return WaitResult(true, lastModels, None), n;
            case CheckRaises => lastError := Some(UNHASHABLE_NAME);
            case Absent =>
          }
        case Raises(e) =>
          lastError := Some(e);
      }
      if clock(n) >= deadline {
        return WaitResult(false, lastModels, lastError), n;
      }
      PollBound(clock, timeout, n);
    }
  }
}
