/**
 The counts in a key's analytics (api/routes/external_keys.py): one algorithm accumulates into a
 dictionary, the other, for routes, counts again for every call. A field of a call is given as
 its dictionary key, None when it is missing or falsy. Routes are stored as text, so a route is
 its own key.
 */
module CallAnalytics {
  import opened Wrappers

  /** How often `key` occurs. */
  function Occurrences(values: seq<Option<string>>, key: string): nat {
    if values == [] then 0
    else Occurrences(values[..|values| - 1], key) + if values[|values| - 1] == Some(key) then 1 else 0
  }

  /** That is, at how many positions. */
  lemma {:induction false} OccurrencesMean(values: seq<Option<string>>, key: string)
    ensures Occurrences(values, key) == |set i | 0 <= i < |values| && values[i] == Some(key)|
  {
    if values != [] {
      var n := |values| - 1;
      var front := values[..n];
      OccurrencesMean(front, key);
      var was, all := set i | 0 <= i < n && front[i] == Some(key), set i | 0 <= i < |values| && values[i] == Some(key);
      assert all == was + if values[n] == Some(key) then {n} else {};
    }
  }

  function Present(values: seq<Option<string>>): nat {
    if values == [] then 0 else Present(values[..|values| - 1]) + if values[|values| - 1].Some? then 1 else 0
  }

  ghost predicate IsCount(values: seq<Option<string>>, out: map<string, nat>) {
    && (forall key :: key in out ==> out[key] == Occurrences(values, key))
    && (forall key :: Occurrences(values, key) > 0 <==> key in out)
  }

  ghost function Sum(m: map<string, nat>): nat {
    if m == map[] then 0
    else
      var key :| key in m;
      m[key] + Sum(m - {key})
  }

  lemma {:induction false} SumRemove(m: map<string, nat>, key: string)
    requires key in m
    ensures Sum(m) == m[key] + Sum(m - {key})
    decreases |m|
  {
    var first :| first in m && Sum(m) == m[first] + Sum(m - {first});
    if first != key {
      SumRemove(m - {first}, key);
      SumRemove(m - {key}, first);
      assert m - {first} - {key} == m - {key} - {first};
    }
  }

  /** One occurrence more. */
  function Bumped(m: map<string, nat>, v: Option<string>): map<string, nat> {
    if v.None? then m else m[v.value := (if v.value in m then m[v.value] else 0) + 1]
  }

  lemma SumBumped(m: map<string, nat>, v: Option<string>)
    ensures Sum(Bumped(m, v)) == Sum(m) + if v.Some? then 1 else 0
  {
    var t := Bumped(m, v);
    if v.Some? {
      SumRemove(t, v.value);
      assert t - {v.value} == m - {v.value};
      if v.value in m {
        SumRemove(m, v.value);
      } else {
        assert m - {v.value} == m;
      }
    }
  }

  function Counted(values: seq<Option<string>>): map<string, nat> {
    if values == [] then map[] else Bumped(Counted(values[..|values| - 1]), values[|values| - 1])
  }

  lemma {:induction false} CountedIsCount(values: seq<Option<string>>)
    ensures IsCount(values, Counted(values)) && Sum(Counted(values)) == Present(values)
  {
    if values != [] {
      CountedIsCount(values[..|values| - 1]);
      SumBumped(Counted(values[..|values| - 1]), values[|values| - 1]);
    }
  }

  /** The counts are one dictionary, and nothing is lost: whatever algorithm finds them, they add
      up to the calls that have the field. */
  lemma CountIsUnique(values: seq<Option<string>>, out: map<string, nat>)
    requires IsCount(values, out)
    ensures out == Counted(values) && Sum(out) == Present(values)
  {
    CountedIsCount(values);
    assert forall key :: key in out <==> key in Counted(values);
  }

  /** `counts` */
  method Counts(values: seq<Option<string>>) returns (out: map<string, nat>)
    ensures IsCount(values, out) && Sum(out) == Present(values)
  {
    out := map[];
    for i := 0 to |values|
      invariant out == Counted(values[..i])
    {
      assert values[..i + 1][..i] == values[..i];
      if values[i].Some? {
        var key := values[i].value;
        out := out[key := (if key in out then out[key] else 0) + 1];
      }
    }
    assert values[..|values|] == values;
    CountedIsCount(values);
  }

  /** The dictionary comprehension of `route_counts`: for every call with a route, how many calls
      have that route; a later call overwrites an earlier entry. */
  function RouteDict(all: seq<Option<string>>, values: seq<Option<string>>): map<string, nat> {
    if values == [] then map[]
    else
      var v, before := values[|values| - 1], RouteDict(all, values[..|values| - 1]);
      if v.Some? then before[v.value := Occurrences(all, v.value)] else before
  }

  lemma {:induction false} RouteDictEntries(all: seq<Option<string>>, values: seq<Option<string>>, key: string)
    ensures key in RouteDict(all, values) <==> Occurrences(values, key) > 0
    ensures key in RouteDict(all, values) ==> RouteDict(all, values)[key] == Occurrences(all, key)
  {
    if values != [] {
      RouteDictEntries(all, values[..|values| - 1], key);
    }
  }

  /** The two algorithms agree on every list of routes, so the route counts are conserved too. */
  lemma RouteCountsAgree(values: seq<Option<string>>)
    ensures IsCount(values, RouteDict(values, values))
    ensures RouteDict(values, values) == Counted(values) && Sum(RouteDict(values, values)) == Present(values)
  {
    forall key ensures (key in RouteDict(values, values) <==> Occurrences(values, key) > 0)
                       && (key in RouteDict(values, values) ==>
                           RouteDict(values, values)[key] == Occurrences(values, key)) {
      RouteDictEntries(values, values, key);
    }
    CountIsUnique(values, RouteDict(values, values));
  }

  /** `route_counts` */
  method RouteCounts(values: seq<Option<string>>) returns (out: map<string, nat>)
    ensures IsCount(values, out) && Sum(out) == Present(values)
  {
    out := map[];
    for i := 0 to |values|
      invariant out == RouteDict(values, values[..i])
    {
      assert values[..i + 1][..i] == values[..i];
      if values[i].Some? {
        var total := 0;
        for j := 0 to |values|
          invariant total == Occurrences(values[..j], values[i].value)
        {
          assert values[..j + 1][..j] == values[..j];
          if values[j] == values[i] {
            total := total + 1;
          }
        }
        assert values[..|values|] == values;
        out := out[values[i].value := total];
      }
    }
    assert values[..|values|] == values;
    RouteCountsAgree(values);
  }
}
