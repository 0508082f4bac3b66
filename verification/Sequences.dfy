/** Finite sequences: removal, reversal, selection by a set, and their laws; the size of a subset. */
module Sequences {
  function Without<T(==)>(s: seq<T>, x: T): (r: seq<T>) {
    if s == [] then [] else (if s[0] == x then [] else [s[0]]) + Without(s[1..], x)
  }

  function Reversed<T>(s: seq<T>): seq<T> {
    if s == [] then [] else Reversed(s[1..]) + [s[0]]
  }

  /** The elements of `s` that lie in `keep`, in order. */
  ghost function Select<T>(s: seq<T>, keep: set<T>): seq<T> {
    if s == [] then [] else (if s[0] in keep then [s[0]] else []) + Select(s[1..], keep)
  }

  ghost predicate Distinct<T>(s: seq<T>) {
    forall i, j :: 0 <= i < j < |s| ==> s[i] != s[j]
  }

  ghost function Elements<T>(s: seq<T>): set<T> {
    set i | 0 <= i < |s| :: s[i]
  }

  /** Positions below `n`, each once and in order. */
  predicate Ascending(at: seq<nat>, n: nat) {
    && (forall k :: 0 <= k < |at| ==> at[k] < n)
    && (forall j, k :: 0 <= j < k < |at| ==> at[j] < at[k])
  }

  lemma WithoutAt<T>(s: seq<T>, x: T, y: T)
    ensures y in Without(s, x) <==> y in s && y != x
    ensures |Without(s, x)| <= |s|
  {
  }

  lemma WithoutAbsent<T>(s: seq<T>, x: T)
    requires x !in s
    ensures Without(s, x) == s
  {
  }

  lemma WithoutConcat<T>(a: seq<T>, b: seq<T>, x: T)
    ensures Without(a + b, x) == Without(a, x) + Without(b, x)
  {
    if a == [] {
      assert a + b == b;
    } else {
      assert (a + b)[1..] == a[1..] + b;
      WithoutConcat(a[1..], b, x);
      ConcatAssoc(if a[0] == x then [] else [a[0]], Without(a[1..], x), Without(b, x));
    }
  }

  lemma {:induction false} WithoutDistinct<T>(s: seq<T>, x: T)
    requires Distinct(s)
    ensures Distinct(Without(s, x))
  {
    if s != [] {
      var w := Without(s[1..], x);
      WithoutDistinct(s[1..], x);
      forall j | 0 <= j < |w| ensures s[0] != w[j] {
        WithoutAt(s[1..], x, w[j]);
      }
    }
  }

  lemma {:induction false} ReversedAt<T>(s: seq<T>)
    ensures |Reversed(s)| == |s| && forall k :: 0 <= k < |s| ==> Reversed(s)[k] == s[|s| - 1 - k]
  {
    if s != [] {
      ReversedAt(s[1..]);
    }
  }

  lemma ReversedSnoc<T>(s: seq<T>, x: T)
    ensures Reversed(s + [x]) == [x] + Reversed(s)
  {
    if s != [] {
      assert (s + [x])[1..] == s[1..] + [x];
      ReversedSnoc(s[1..], x);
    }
  }

  lemma ReversedConcat<T>(a: seq<T>, b: seq<T>)
    ensures Reversed(a + b) == Reversed(b) + Reversed(a)
  {
    if a == [] {
      assert a + b == b;
    } else {
      assert (a + b)[1..] == a[1..] + b;
      ReversedConcat(a[1..], b);
      ConcatAssoc(Reversed(b), Reversed(a[1..]), [a[0]]);
    }
  }

  lemma SelectAt<T>(s: seq<T>, keep: set<T>, y: T)
    ensures y in Select(s, keep) <==> y in s && y in keep
  {
  }

  lemma {:induction false} SelectConcat<T>(a: seq<T>, b: seq<T>, keep: set<T>)
    ensures Select(a + b, keep) == Select(a, keep) + Select(b, keep)
  {
    if a == [] {
      assert a + b == b;
    } else {
      assert (a + b)[1..] == a[1..] + b;
      SelectConcat(a[1..], b, keep);
      ConcatAssoc(if a[0] in keep then [a[0]] else [], Select(a[1..], keep), Select(b, keep));
    }
  }

  lemma SelectNone<T>(s: seq<T>, keep: set<T>)
    requires forall x :: x in s ==> x !in keep
    ensures Select(s, keep) == []
  {
  }

  lemma SelectSame<T>(s: seq<T>, keep: set<T>, keep': set<T>)
    requires forall x :: x in s ==> (x in keep <==> x in keep')
    ensures Select(s, keep) == Select(s, keep')
  {
  }

  lemma SelectWithout<T>(s: seq<T>, keep: set<T>, x: T)
    ensures Select(s, keep - {x}) == Without(Select(s, keep), x)
  {
    if s != [] {
      var head := if s[0] in keep then [s[0]] else [];
      WithoutConcat(head, Select(s[1..], keep), x);
    }
  }

  /** Raising the first task after everything that is up appends it to the selection. */
  lemma SelectGrows<T>(s: seq<T>, keep: set<T>, k: nat)
    requires k < |s| && Distinct(s)
    requires forall j :: k <= j < |s| ==> s[j] !in keep
    ensures Select(s, keep + {s[k]}) == Select(s, keep) + [s[k]]
  {
    var more := keep + {s[k]};
    assert s == s[..k] + ([s[k]] + s[k + 1..]);
    SelectConcat(s[..k], [s[k]] + s[k + 1..], keep);
    SelectConcat(s[..k], [s[k]] + s[k + 1..], more);
    SelectSame(s[..k], keep, more);
    SelectNone([s[k]] + s[k + 1..], keep);
    SelectNone(s[k + 1..], more);
    assert ([s[k]] + s[k + 1..])[1..] == s[k + 1..];
  }

  lemma ElementsNone<T>(s: seq<T>)
    ensures Elements(s) == {} <==> s == []
  {
    if s != [] {
      assert s[0] in Elements(s);
    }
  }

  lemma InElements<T>(s: seq<T>, x: T)
    ensures x in Elements(s) <==> x in s
  {
    if x in s {
      var i :| 0 <= i < |s| && s[i] == x;
    }
  }

  lemma ElementsSnoc<T>(s: seq<T>, x: T)
    ensures Elements(s + [x]) == Elements(s) + {x}
  {
    var w := s + [x];
    assert w[|s|] == x;
    assert forall i :: 0 <= i < |s| ==> w[i] == s[i];
  }

  lemma ElementsConcat<T>(a: seq<T>, b: seq<T>)
    ensures Elements(a + b) == Elements(a) + Elements(b)
  {
    var w := a + b;
    assert forall i :: 0 <= i < |a| ==> w[i] == a[i];
    assert forall i :: 0 <= i < |b| ==> w[|a| + i] == b[i];
  }

  lemma ElementsFrom<T>(s: seq<T>, i: nat)
    requires i < |s|
    ensures Elements(s[i..]) == {s[i]} + Elements(s[i + 1..])
  {
    assert s[i..] == [s[i]] + s[i + 1..];
    ElementsConcat([s[i]], s[i + 1..]);
  }

  lemma ElementsWithout<T>(s: seq<T>, x: T)
    ensures Elements(Without(s, x)) == Elements(s) - {x}
  {
    var w := Without(s, x);
    forall y | y in Elements(w) ensures y in Elements(s) - {x} {
      WithoutAt(s, x, y);
    }
    forall y | y in Elements(s) - {x} ensures y in Elements(w) {
      WithoutAt(s, x, y);
      InElements(w, y);
    }
  }

  ghost predicate OrderedBy<T>(s: seq<T>, key: T -> int) {
    forall i, j :: 0 <= i < j < |s| ==> key(s[i]) < key(s[j])
  }

  lemma {:induction false} WithoutKeepsOrder<T>(s: seq<T>, x: T, key: T -> int)
    requires OrderedBy(s, key)
    ensures OrderedBy(Without(s, x), key)
  {
    if s != [] {
      var w := Without(s[1..], x);
      WithoutKeepsOrder(s[1..], x, key);
      forall j | 0 <= j < |w| ensures key(s[0]) < key(w[j]) {
        WithoutAt(s[1..], x, w[j]);
        var k :| 0 <= k < |s[1..]| && s[1..][k] == w[j];
        assert s[k + 1] == w[j];
      }
    }
  }

  lemma SubsetSize<T>(a: set<T>, b: set<T>)
    requires a <= b
    ensures |a| <= |b|
  {
    if a != {} {
      var x :| x in a;
      SubsetSize(a - {x}, b - {x});
    }
  }

  lemma SliceOfTail<T>(s: seq<T>, k: nat, i: nat, j: nat)
    requires k <= |s| && i <= j <= |s| - k
    ensures s[k..][i..j] == s[k + i..k + j]
  {
    var a, b := s[k..][i..j], s[k + i..k + j];
    assert |a| == |b| && forall n :: 0 <= n < |a| ==> a[n] == s[k + i + n] == b[n];
  }

  lemma ConcatSnoc<T>(a: seq<T>, b: seq<T>, x: T)
    ensures (a + b) + [x] == a + (b + [x])
  {
  }

  lemma ConcatAssoc<T>(a: seq<T>, b: seq<T>, c: seq<T>)
    ensures (a + b) + c == a + (b + c)
  {
  }

  lemma ConcatBack<T>(a: seq<T>, b: seq<T>)
    ensures a <= a + b && (a + b)[|a|..] == b
  {
  }
}
