/**
 The client model catalogue (`_client_safe_models` and its helpers in api/routes/openai_compat.py):
 the models named by the configuration of the nodes, merged with what reachable nodes report live.
 */
module Catalogue {
  import opened Wrappers
  import opened Sequences

  /** A request type and the model it is routed to; the empty string stands for no model. */
  datatype Route = Route(requestType: string, model: string)

  datatype Node = Node(defaultModel: string, routes: seq<Route>)

  datatype Capabilities = Capabilities(jsonSchema: bool, grammar: bool, vision: bool)

  datatype Status = Malformed | Status(name: string, capabilities: Capabilities)

  datatype Reply = RequestFailed | NotAList | Statuses(statuses: seq<Status>)

  datatype LiveNode = LiveNode(name: string, beating: bool, reply: Reply)

  datatype Report = Report(model: string, capabilities: Capabilities)

  datatype Entry = Entry(requestTypes: set<string>, capabilities: Capabilities)

  datatype Listed = Listed(
    id: string, requestTypes: seq<string>, defaultType: Option<string>,
    family: string, profile: Option<string>, capabilities: Capabilities)

  const PLAIN := Capabilities(false, false, false)

  // ---------- what should be listed ----------

  ghost predicate ConfiguredName(nodes: seq<Node>, id: string) {
    id != "" && exists n :: n in nodes && (n.defaultModel == id || exists t :: Route(t, id) in n.routes)
  }

  ghost predicate Routed(nodes: seq<Node>, requestType: string, id: string) {
    id != "" && exists n :: n in nodes && Route(requestType, id) in n.routes
  }

  function ReportsIn(statuses: seq<Status>): seq<Report> {
    if statuses == [] then []
    else
      var s := statuses[|statuses| - 1];
      ReportsIn(statuses[..|statuses| - 1]) +
      if s.Malformed? || s.name == "" then [] else [Report(s.name, s.capabilities)]
  }

  predicate Answers(node: LiveNode) {
    node.beating && node.name != "" && node.reply.Statuses?
  }

  /** Everything the reachable nodes report, in order. */
  function Reports(live: seq<LiveNode>): seq<Report> {
    if live == [] then []
    else
      var node := live[|live| - 1];
      Reports(live[..|live| - 1]) + if Answers(node) then ReportsIn(node.reply.statuses) else []
  }

  /** By position: the reports are those of the well-formed, named statuses. */
  ghost predicate ReportedAt(statuses: seq<Status>, reports: seq<Report>, at: seq<nat>) {
    && Ascending(at, |statuses|) && |at| == |reports|
    && (forall k :: 0 <= k < |at| ==> statuses[at[k]] == Status(reports[k].model, reports[k].capabilities))
    && (forall i :: 0 <= i < |statuses| ==> (i in at <==> statuses[i].Status? && statuses[i].name != ""))
  }

  lemma ReportMore(front: seq<Status>, reports: seq<Report>, at: seq<nat>, last: Status)
    requires ReportedAt(front, reports, at)
    ensures if last.Status? && last.name != ""
            then ReportedAt(front + [last], reports + [Report(last.name, last.capabilities)], at + [|front|])
            else ReportedAt(front + [last], reports, at)
  {
    var n, all, more := |front|, front + [last], at + [|front|];
    assert all[n] == last && forall i :: 0 <= i < n ==> all[i] == front[i];
    assert more[|at|] == n;
    assert forall i :: i in more <==> i in at || i == n;
    assert n !in at;
  }

  lemma {:induction false} ReportsInMean(statuses: seq<Status>) returns (at: seq<nat>)
    ensures ReportedAt(statuses, ReportsIn(statuses), at)
  {
    hide ReportedAt;
    if statuses == [] {
      at := [];
      assert ReportedAt([], [], []) by { NoReports(); }
    } else {
      var n := |statuses| - 1;
      var front, last := statuses[..n], statuses[n];
      assert statuses == front + [last];
      at := ReportsInMean(front);
      ReportMore(front, ReportsIn(front), at, last);
      if last.Status? && last.name != "" {
        at := at + [n];
      } else {
        assert ReportsIn(front) + [] == ReportsIn(front);
      }
    }
  }

  lemma NoReports()
    ensures ReportedAt([], [], [])
  {
  }

  function Joined(parts: seq<seq<Report>>): seq<Report> {
    if parts == [] then [] else Joined(parts[..|parts| - 1]) + parts[|parts| - 1]
  }

  /** Node by node, in order: a node whose heartbeat is not fresh, that has no name, or whose request
      fails or answers with something else than a list, reports nothing. */
  lemma {:induction false} ReportsMean(live: seq<LiveNode>) returns (parts: seq<seq<Report>>)
    ensures Reports(live) == Joined(parts) && |parts| == |live|
    ensures forall i :: 0 <= i < |live| ==>
              parts[i] == if !live[i].beating || live[i].name == "" then []
                          else match live[i].reply
                               case Statuses(statuses) => ReportsIn(statuses)
                               case RequestFailed => []
                               case NotAList => []
  {
    if live == [] {
      parts := [];
    } else {
      var n := |live| - 1;
      var node := live[n];
      var front := ReportsMean(live[..n]);
      var own := if node.beating && node.name != "" && node.reply.Statuses? then ReportsIn(node.reply.statuses) else [];
      parts := front + [own];
      assert parts[..n] == front && parts[n] == own;
    }
  }

  function LastReport(reports: seq<Report>, id: string): Capabilities {
    if reports == [] then PLAIN
    else if reports[|reports| - 1].model == id then reports[|reports| - 1].capabilities
    else LastReport(reports[..|reports| - 1], id)
  }

  /** By position: the capabilities are those of the last report, or the plain ones when there is none. */
  lemma {:induction false} LastReportMeans(reports: seq<Report>, id: string) returns (k: int)
    ensures -1 <= k < |reports| && forall i :: k < i < |reports| ==> reports[i].model != id
    ensures k >= 0 ==> reports[k].model == id
    ensures LastReport(reports, id) == if k >= 0 then reports[k].capabilities else Capabilities(false, false, false)
  {
    if reports == [] {
      k := -1;
    } else if reports[|reports| - 1].model == id {
      k := |reports| - 1;
    } else {
      k := LastReportMeans(reports[..|reports| - 1], id);
    }
  }

  ghost predicate ReportedName(reports: seq<Report>, id: string) {
    exists i :: 0 <= i < |reports| && reports[i].model == id
  }

  // ---------- names and routes as sets ----------

  ghost function NodeNames(n: Node): set<string> {
    (if n.defaultModel == "" then {} else {n.defaultModel}) + RouteNames(n.routes)
  }

  ghost function RouteNames(routes: seq<Route>): set<string> {
    set r | r in routes && r.model != "" :: r.model
  }

  ghost function Names(nodes: seq<Node>): set<string> {
    if nodes == [] then {} else Names(nodes[..|nodes| - 1]) + NodeNames(nodes[|nodes| - 1])
  }

  ghost function NodeRoutes(routes: seq<Route>): set<Route> {
    set r | r in routes && r.model != ""
  }

  ghost function Routes(nodes: seq<Node>): set<Route> {
    if nodes == [] then {} else Routes(nodes[..|nodes| - 1]) + NodeRoutes(nodes[|nodes| - 1].routes)
  }

  ghost function Reported(reports: seq<Report>): set<string> {
    set i | 0 <= i < |reports| :: reports[i].model
  }

  lemma {:induction false} NamesAre(nodes: seq<Node>, id: string)
    ensures id in Names(nodes) <==> ConfiguredName(nodes, id)
  {
    if nodes != [] {
      var front, n := nodes[..|nodes| - 1], nodes[|nodes| - 1];
      NamesAre(front, id);
      assert n in nodes && forall m :: m in front ==> m in nodes;
      assert forall m :: m in nodes ==> m in front || m == n;
      if id in NodeNames(n) && n.defaultModel != id {
        var r :| r in n.routes && r.model == id;
        assert Route(r.requestType, id) in n.routes;
      }
    }
  }

  lemma {:induction false} RoutesAre(nodes: seq<Node>, t: string, id: string)
    ensures Route(t, id) in Routes(nodes) <==> Routed(nodes, t, id)
  {
    if nodes != [] {
      var front, n := nodes[..|nodes| - 1], nodes[|nodes| - 1];
      RoutesAre(front, t, id);
      assert n in nodes && forall m :: m in front ==> m in nodes;
      assert forall m :: m in nodes ==> m in front || m == n;
    }
  }

  // ---------- the merged dictionary ----------

  /** `models` lists exactly the given names, routes and reports. */
  ghost predicate Lists(models: map<string, Entry>, names: set<string>, routes: set<Route>, reports: seq<Report>) {
    && models.Keys == names + Reported(reports)
    && (forall r :: r in routes ==> r.model in names)
    && (forall id :: id in models ==>
          && models[id].capabilities == LastReport(reports, id)
          && forall t :: t in models[id].requestTypes <==> Route(t, id) in routes)
  }

  lemma {:induction false} UnreportedIsPlain(reports: seq<Report>, id: string)
    requires id !in Reported(reports)
    ensures LastReport(reports, id) == PLAIN
  {
    if reports != [] {
      var front := reports[..|reports| - 1];
      assert forall i :: 0 <= i < |front| ==> front[i] == reports[i];
      assert reports[|reports| - 1].model in Reported(reports);
      UnreportedIsPlain(front, id);
    }
  }

  lemma ReportedSnoc(reports: seq<Report>, r: Report)
    ensures Reported(reports + [r]) == Reported(reports) + {r.model}
    ensures forall id :: LastReport(reports + [r], id) ==
              if id == r.model then r.capabilities else LastReport(reports, id)
  {
    var all := reports + [r];
    assert all[..|reports|] == reports && all[|reports|] == r;
    assert forall i :: 0 <= i < |reports| ==> all[i] == reports[i];
  }

  /** `_ensure_client_model` */
  function Ensured(models: map<string, Entry>, id: string): map<string, Entry> {
    if id in models then models else models[id := Entry({}, PLAIN)]
  }

  lemma EnsureLists(models: map<string, Entry>, names: set<string>, routes: set<Route>, reports: seq<Report>,
                    id: string)
    requires Lists(models, names, routes, reports)
    ensures Lists(Ensured(models, id), names + {id}, routes, reports)
  {
    if id !in models {
      UnreportedIsPlain(reports, id);
    }
  }

  lemma RouteLists(models: map<string, Entry>, names: set<string>, routes: set<Route>, reports: seq<Report>, r: Route)
    requires Lists(models, names, routes, reports)
    ensures var m := Ensured(models, r.model);
            var e := m[r.model];
            Lists(m[r.model := e.(requestTypes := e.requestTypes + {r.requestType})], names + {r.model}, routes + {r},
                  reports)
  {
    EnsureLists(models, names, routes, reports, r.model);
  }

  lemma ReportLists(models: map<string, Entry>, names: set<string>, routes: set<Route>, reports: seq<Report>, r: Report)
    requires Lists(models, names, routes, reports)
    ensures var m := Ensured(models, r.model);
            Lists(m[r.model := m[r.model].(capabilities := r.capabilities)], names, routes, reports + [r])
  {
    EnsureLists(models, names, routes, reports, r.model);
    ReportedSnoc(reports, r);
  }

  method ConfiguredModels(nodes: seq<Node>) returns (models: map<string, Entry>)
    ensures Lists(models, Names(nodes), Routes(nodes), [])
  {
    hide Lists;
    models := map[];
    EmptyLists();
    for i := 0 to |nodes|
      invariant Lists(models, Names(nodes[..i]), Routes(nodes[..i]), [])
    {
      models := MergeNode(models, nodes[i], Names(nodes[..i]), Routes(nodes[..i]));
      assert nodes[..i + 1][..i] == nodes[..i];
    }
    assert nodes[..|nodes|] == nodes;
  }

  lemma EmptyLists()
    ensures Lists(map[], {}, {}, [])
  {
  }

  method MergeNode(models: map<string, Entry>, n: Node, ghost names: set<string>, ghost routes: set<Route>)
    returns (r: map<string, Entry>)
    requires Lists(models, names, routes, [])
    ensures Lists(r, names + NodeNames(n), routes + NodeRoutes(n.routes), [])
  {
    hide Lists, RouteNames, NodeRoutes, NodeNames;
    r := models;
    ghost var known := names;
    if n.defaultModel != "" {
      EnsureLists(r, names, routes, [], n.defaultModel);
      r := Ensured(r, n.defaultModel);
      known := names + {n.defaultModel};
    }
    RoutesNone();
    assert known + {} == known && routes + {} == routes;
    for i := 0 to |n.routes|
      invariant Lists(r, known + RouteNames(n.routes[..i]), routes + NodeRoutes(n.routes[..i]), [])
    {
      var route := n.routes[i];
      ghost var done := n.routes[..i];
      assert n.routes[..i + 1] == done + [route];
      RoutesSnoc(done, route);
      if route.model != "" {
        RouteLists(r, known + RouteNames(done), routes + NodeRoutes(done), [], route);
        Associates(known, RouteNames(done), {route.model});
        Associates(routes, NodeRoutes(done), {route});
        r := Ensured(r, route.model);
        r := r[route.model := r[route.model].(requestTypes := r[route.model].requestTypes + {route.requestType})];
      } else {
        assert RouteNames(done) + {} == RouteNames(done) && NodeRoutes(done) + {} == NodeRoutes(done);
      }
    }
    assert n.routes[..|n.routes|] == n.routes;
    NodeNamesSplit(n, names);
  }

  lemma Associates<T>(a: set<T>, b: set<T>, c: set<T>)
    ensures (a + b) + c == a + (b + c)
  {
  }

  lemma NodeNamesSplit(n: Node, names: set<string>)
    ensures n.defaultModel != "" ==> (names + {n.defaultModel}) + RouteNames(n.routes) == names + NodeNames(n)
    ensures n.defaultModel == "" ==> names + RouteNames(n.routes) == names + NodeNames(n)
  {
  }

  lemma RoutesNone()
    ensures RouteNames([]) == {} && NodeRoutes([]) == {}
  {
  }

  lemma RoutesSnoc(routes: seq<Route>, r: Route)
    ensures RouteNames(routes + [r]) == RouteNames(routes) + if r.model == "" then {} else {r.model}
    ensures NodeRoutes(routes + [r]) == NodeRoutes(routes) + if r.model == "" then {} else {r}
  {
    var all := routes + [r];
    assert forall x :: x in all <==> x in routes || x == r;
    assert r in all;
  }

  /** `_merge_live_controller_models` */
  method MergeLive(models: map<string, Entry>, live: seq<LiveNode>, ghost names: set<string>, ghost routes: set<Route>)
    returns (r: map<string, Entry>)
    requires Lists(models, names, routes, [])
    ensures Lists(r, names, routes, Reports(live))
  {
    hide Lists;
    r := models;
    for i := 0 to |live|
      invariant Lists(r, names, routes, Reports(live[..i]))
    {
      assert live[..i + 1][..i] == live[..i];
      if Answers(live[i]) {
        r := MergeStatuses(r, live[i].reply.statuses, names, routes, Reports(live[..i]));
      }
      assert Answers(live[i]) || Reports(live[..i + 1]) == Reports(live[..i]);
    }
    assert live[..|live|] == live;
  }

  method MergeStatuses(models: map<string, Entry>, statuses: seq<Status>,
                       ghost names: set<string>, ghost routes: set<Route>, ghost before: seq<Report>)
    returns (r: map<string, Entry>)
    requires Lists(models, names, routes, before)
    ensures Lists(r, names, routes, before + ReportsIn(statuses))
  {
    hide Lists;
    r := models;
    assert before + [] == before;
    for i := 0 to |statuses|
      invariant Lists(r, names, routes, before + ReportsIn(statuses[..i]))
    {
      assert statuses[..i + 1][..i] == statuses[..i];
      var s := statuses[i];
      if s.Status? && s.name != "" {
        ghost var report := Report(s.name, s.capabilities);
        ReportLists(r, names, routes, before + ReportsIn(statuses[..i]), report);
        ConcatSnoc(before, ReportsIn(statuses[..i]), report);
        r := Ensured(r, s.name);
        r := r[s.name := r[s.name].(capabilities := s.capabilities)];
      } else {
        assert ReportsIn(statuses[..i + 1]) == ReportsIn(statuses[..i]);
      }
    }
    assert statuses[..|statuses|] == statuses;
  }

  // ---------- sorting ----------

  /** Code-point order. */
  predicate Less(a: string, b: string) {
    b != [] && (a == [] || a[0] < b[0] || (a[0] == b[0] && Less(a[1..], b[1..])))
  }

  predicate FirstDifference(a: string, b: string, n: nat) {
    && n <= |a| && n < |b| && a[..n] == b[..n] && (n == |a| || a[n] < b[n])
  }

  lemma SameStart(a: string, b: string, n: nat)
    requires n <= |a| && n <= |b| && a[..n] == b[..n]
    ensures n > 0 ==> a[0] == b[0]
  {
    if n > 0 {
      assert a[..n][0] == a[0] && b[..n][0] == b[0];
    }
  }

  /** The first difference decides: a smaller character, or the end. */
  lemma {:induction false} LessMeans(a: string, b: string)
    ensures Less(a, b) <==> exists n: nat :: FirstDifference(a, b, n)
    decreases |a|
  {
    if a == [] || b == [] || a[0] != b[0] {
      assert Less(a, b) ==> FirstDifference(a, b, 0);
      if n: nat :| FirstDifference(a, b, n) {
        SameStart(a, b, n);
      }
    } else {
      LessMeans(a[1..], b[1..]);
      if n: nat :| FirstDifference(a[1..], b[1..], n) {
        assert a[..n + 1] == [a[0]] + a[1..][..n] && b[..n + 1] == [b[0]] + b[1..][..n];
        assert FirstDifference(a, b, n + 1);
      }
      if n: nat :| FirstDifference(a, b, n) {
        assert n > 0;
        assert a[1..][..n - 1] == a[..n][1..] && b[1..][..n - 1] == b[..n][1..];
        assert FirstDifference(a[1..], b[1..], n - 1);
      }
    }
  }

  lemma {:induction false} LessTotal(a: string, b: string)
    ensures Less(a, b) || a == b || Less(b, a)
    ensures !(Less(a, b) && Less(b, a)) && !Less(a, a)
    decreases |a|
  {
    if a != [] {
      if b != [] {
        LessTotal(a[1..], b[1..]);
        assert a == [a[0]] + a[1..] && b == [b[0]] + b[1..];
      }
      LessTotal(a[1..], a[1..]);
    }
  }

  lemma {:induction false} LessTrans(a: string, b: string, c: string)
    requires Less(a, b) && Less(b, c)
    ensures Less(a, c)
    decreases |a|
  {
    if a != [] && a[0] == b[0] == c[0] {
      LessTrans(a[1..], b[1..], c[1..]);
    }
  }

  ghost predicate Sorted(s: seq<string>) {
    forall i, j :: 0 <= i < j < |s| ==> Less(s[i], s[j])
  }

  /** A set has one sorted listing, so listings do not depend on the order of insertion. */
  lemma {:induction false} SortedUnique(a: seq<string>, b: seq<string>)
    requires Sorted(a) && Sorted(b) && forall x :: x in a <==> x in b
    ensures a == b
  {
    assert b != [] ==> b[0] in a;
    if a != [] {
      assert a[0] in b && b != [] && b[0] in a;
      LessTotal(a[0], b[0]);
      assert a[0] == b[0];
      assert forall x :: x in a[1..] <==> x in a && x != a[0] by { TailIsRest(a); }
      assert forall x :: x in b[1..] <==> x in b && x != b[0] by { TailIsRest(b); }
      SortedUnique(a[1..], b[1..]);
      assert a == [a[0]] + a[1..] && b == [b[0]] + b[1..];
    }
  }

  lemma TailIsRest(a: seq<string>)
    requires a != [] && Sorted(a)
    ensures forall x :: x in a[1..] <==> x in a && x != a[0]
  {
    LessTotal(a[0], a[0]);
    assert a == [a[0]] + a[1..];
    forall x | x in a[1..] ensures x != a[0] {
      var i :| 0 <= i < |a[1..]| && a[1..][i] == x;
      assert a[i + 1] == x;
    }
  }

  method SortedListing(ids: set<string>) returns (out: seq<string>)
    ensures Sorted(out) && forall x :: x in out <==> x in ids
  {
    out := [];
    var rest := ids;
    while rest != {}
      invariant rest <= ids && Sorted(out) && forall x :: x in out <==> x in ids - rest
      decreases rest
    {
      var x :| x in rest;
      out := InsertSorted(out, x);
      rest := rest - {x};
    }
  }

  method InsertSorted(s: seq<string>, x: string) returns (out: seq<string>)
    requires Sorted(s) && x !in s
    ensures Sorted(out) && forall y :: y in out <==> y in s || y == x
  {
    var i := 0;
    while i < |s| && Less(s[i], x)
      invariant 0 <= i <= |s|
      invariant forall j :: 0 <= j < i ==> Less(s[j], x)
    {
      i := i + 1;
    }
    forall j | i <= j < |s| ensures Less(x, s[j]) {
      LessTotal(x, s[i]);
      if i < j {
        LessTrans(x, s[i], s[j]);
      }
    }
    InsertIsSorted(s, i, x);
    out := s[..i] + [x] + s[i..];
  }

  lemma InsertIsSorted(s: seq<string>, i: nat, x: string)
    requires Sorted(s) && i <= |s|
    requires (forall j :: 0 <= j < i ==> Less(s[j], x)) && (forall j :: i <= j < |s| ==> Less(x, s[j]))
    ensures Sorted(s[..i] + [x] + s[i..])
    ensures forall y :: y in s[..i] + [x] + s[i..] <==> y in s || y == x
  {
    hide Less;
    var t := s[..i] + [x] + s[i..];
    assert forall k :: 0 <= k < |t| ==> t[k] == if k < i then s[k] else if k == i then x else s[k - 1];
    assert s == s[..i] + s[i..];
  }

  // ---------- the context identity ----------

  /** `str.partition(":")`, None for no separator. */
  function SplitIdentity(id: string): (string, Option<string>) {
    if id == "" then ("", None)
    else if id[0] == ':' then ("", Some(id[1..]))
    else
      var (family, profile) := SplitIdentity(id[1..]);
      ([id[0]] + family, profile)
  }

  /** Nothing is lost, and the family ends at the first colon. */
  lemma {:induction false} SplitIdentityMeans(id: string)
    ensures var (family, profile) := SplitIdentity(id);
            && ':' !in family
            && id == family + (if profile.Some? then ":" + profile.value else "")
  {
    if id != "" && id[0] != ':' {
      SplitIdentityMeans(id[1..]);
      assert id == [id[0]] + id[1..];
    }
  }

  // ---------- the whole catalogue ----------

  /** `out` is what a client should see, whatever order the dictionaries were filled in. */
  ghost predicate IsCatalogue(nodes: seq<Node>, reports: seq<Report>, out: seq<Listed>) {
    && (forall i, j :: 0 <= i < j < |out| ==> Less(out[i].id, out[j].id))
    && (forall id :: (exists i :: 0 <= i < |out| && out[i].id == id) <==>
        ConfiguredName(nodes, id) || ReportedName(reports, id))
    && (forall i :: 0 <= i < |out| ==> IsListing(nodes, reports, out[i]))
  }

  ghost predicate IsListing(nodes: seq<Node>, reports: seq<Report>, e: Listed) {
    && Sorted(e.requestTypes)
    && (forall t :: t in e.requestTypes <==> Routed(nodes, t, e.id))
    && e.defaultType == (if e.requestTypes == [] then None else Some(e.requestTypes[0]))
    && e.capabilities == LastReport(reports, e.id)
    && (e.family, e.profile) == SplitIdentity(e.id)
  }

  method Describe(id: string, e: Entry, ghost nodes: seq<Node>, ghost reports: seq<Report>) returns (r: Listed)
    requires e.capabilities == LastReport(reports, id)
    requires forall t :: t in e.requestTypes <==> Route(t, id) in Routes(nodes)
    ensures r.id == id && IsListing(nodes, reports, r)
  {
    var types := SortedListing(e.requestTypes);
    var (family, profile) := SplitIdentity(id);
    r := Listed(id, types, if types == [] then None else Some(types[0]), family, profile, e.capabilities);
    forall t ensures t in types <==> Routed(nodes, t, id) {
      RoutesAre(nodes, t, id);
    }
  }

  /** `_client_safe_models` on a controller: for every configuration and every pattern of stale,
      failing and malformed nodes. */
  method ClientSafeModels(nodes: seq<Node>, live: seq<LiveNode>) returns (out: seq<Listed>)
    ensures IsCatalogue(nodes, Reports(live), out)
  {
    var models := ConfiguredModels(nodes);
    models := MergeLive(models, live, Names(nodes), Routes(nodes));
    out := Listing(models, nodes, Reports(live));
  }

  method Listing(models: map<string, Entry>, ghost nodes: seq<Node>, ghost reports: seq<Report>)
    returns (out: seq<Listed>)
    requires Lists(models, Names(nodes), Routes(nodes), reports)
    ensures IsCatalogue(nodes, reports, out)
  {
    var ids := SortedListing(models.Keys);
    out := [];
    for i := 0 to |ids|
      invariant |out| == i
      invariant forall j :: 0 <= j < i ==> out[j].id == ids[j] && IsListing(nodes, reports, out[j])
    {
      assert ids[i] in models;
      var e := Describe(ids[i], models[ids[i]], nodes, reports);
      out := out + [e];
    }
    forall id ensures (exists i :: 0 <= i < |out| && out[i].id == id) <==>
        ConfiguredName(nodes, id) || ReportedName(reports, id) {
      NamesAre(nodes, id);
      assert id in Reported(reports) <==> ReportedName(reports, id);
      if id in ids {
        var i :| 0 <= i < |ids| && ids[i] == id;
        assert out[i].id == id;
      }
    }
  }


  /** The request types listed for a model do not depend on the live merge, nor on the order or
      repetition of nodes. */
  lemma RequestTypesIgnoreLive(nodes: seq<Node>, nodes': seq<Node>, reports: seq<Report>, reports': seq<Report>,
                               a: Listed, b: Listed)
    requires IsListing(nodes, reports, a) && IsListing(nodes', reports', b) && a.id == b.id
    requires forall n :: n in nodes <==> n in nodes'
    ensures a.requestTypes == b.requestTypes && a.defaultType == b.defaultType
  {
    hide Less, LastReport;
    SameNodes(nodes, nodes');
    SortedUnique(a.requestTypes, b.requestTypes);
  }

  /** The catalogue is determined: nodes in another order, or repeated, list the same ids with the
      same request types, if the same models are reported live. Only capabilities look at the
      order of the live reports. */
  lemma CatalogueIgnoresOrder(nodes: seq<Node>, nodes': seq<Node>, reports: seq<Report>, reports': seq<Report>,
                              a: seq<Listed>, b: seq<Listed>)
    requires IsCatalogue(nodes, reports, a) && IsCatalogue(nodes', reports', b)
    requires forall n :: n in nodes <==> n in nodes'
    requires forall id :: ReportedName(reports, id) <==> ReportedName(reports', id)
    ensures |a| == |b|
    ensures forall i :: 0 <= i < |a| ==> a[i].id == b[i].id && a[i].requestTypes == b[i].requestTypes
  {
    hide Less, ConfiguredName, Routed, ReportedName, LastReport;
    var x, y := Ids(a), Ids(b);
    SameNodes(nodes, nodes');
    forall id ensures id in x <==> id in y {
      assert ConfiguredName(nodes, id) <==> ConfiguredName(nodes', id);
      assert ReportedName(reports, id) <==> ReportedName(reports', id);
      InIds(a, id);
      InIds(b, id);
    }
    SortedUnique(x, y);
    forall i | 0 <= i < |a| ensures a[i].id == b[i].id && a[i].requestTypes == b[i].requestTypes {
      assert x[i] == y[i];
      RequestTypesIgnoreLive(nodes, nodes', reports, reports', a[i], b[i]);
    }
  }

  /** Two catalogues are then equal exactly when every model has the same last report. */
  lemma SameCatalogueIffSameLastReports(nodes: seq<Node>, nodes': seq<Node>, reports: seq<Report>,
                                        reports': seq<Report>,
                                        a: seq<Listed>, b: seq<Listed>)
    requires IsCatalogue(nodes, reports, a) && IsCatalogue(nodes', reports', b)
    requires forall n :: n in nodes <==> n in nodes'
    requires forall id :: ReportedName(reports, id) <==> ReportedName(reports', id)
    ensures a == b <==> SameLastReports(reports, reports')
  {
    hide Less, ConfiguredName, Routed, ReportedName, LastReport, IsListing, IsCatalogue;
    if a == b {
      forall id ensures LastReport(reports, id) == LastReport(reports', id) {
        SameLastReport(nodes, nodes', reports, reports', a, id);
      }
    }
    if SameLastReports(reports, reports') {
      CatalogueIgnoresOrder(nodes, nodes', reports, reports', a, b);
      forall i | 0 <= i < |a| ensures a[i] == b[i] {
        SameListing(nodes, nodes', reports, reports', a, b, i);
      }
      assert a == b;
    }
  }

  ghost predicate SameLastReports(reports: seq<Report>, reports': seq<Report>) {
    forall id :: LastReport(reports, id) == LastReport(reports', id)
  }

  lemma SameLastReport(nodes: seq<Node>, nodes': seq<Node>, reports: seq<Report>, reports': seq<Report>,
                       a: seq<Listed>, id: string)
    requires IsCatalogue(nodes, reports, a) && IsCatalogue(nodes', reports', a)
    requires ReportedName(reports, id) <==> ReportedName(reports', id)
    ensures LastReport(reports, id) == LastReport(reports', id)
  {
    hide Less, ConfiguredName, Routed, ReportedName, LastReport;
    if ReportedName(reports, id) {
      var i :| 0 <= i < |a| && a[i].id == id;
      assert IsListing(nodes, reports, a[i]) && IsListing(nodes', reports', a[i]);
    } else {
      NotReported(reports, id);
      NotReported(reports', id);
    }
  }

  lemma SameListing(nodes: seq<Node>, nodes': seq<Node>, reports: seq<Report>, reports': seq<Report>,
                    a: seq<Listed>, b: seq<Listed>, i: nat)
    requires IsCatalogue(nodes, reports, a) && IsCatalogue(nodes', reports', b)
    requires i < |a| == |b| && a[i].id == b[i].id && a[i].requestTypes == b[i].requestTypes
    requires LastReport(reports, a[i].id) == LastReport(reports', a[i].id)
    ensures a[i] == b[i]
  {
    hide Less, ConfiguredName, Routed, ReportedName, LastReport;
    assert IsListing(nodes, reports, a[i]) && IsListing(nodes', reports', b[i]);
  }

  lemma NotReported(reports: seq<Report>, id: string)
    requires !ReportedName(reports, id)
    ensures LastReport(reports, id) == PLAIN
  {
    UnreportedIsPlain(reports, id);
  }

  function Ids(a: seq<Listed>): (ids: seq<string>)
    ensures |ids| == |a| && forall i :: 0 <= i < |a| ==> ids[i] == a[i].id
  {
    seq(|a|, i requires 0 <= i < |a| => a[i].id)
  }

  lemma InIds(a: seq<Listed>, id: string)
    ensures id in Ids(a) <==> exists i :: 0 <= i < |a| && a[i].id == id
  {
    if i :| 0 <= i < |a| && a[i].id == id {
      assert Ids(a)[i] == id;
    }
  }

  lemma SameNodes(nodes: seq<Node>, nodes': seq<Node>)
    requires forall n :: n in nodes <==> n in nodes'
    ensures forall id :: ConfiguredName(nodes, id) <==> ConfiguredName(nodes', id)
    ensures forall t, id :: Routed(nodes, t, id) <==> Routed(nodes', t, id)
  {
  }
}
