/** Samples of a benchmark: sorting them, their extremes and their median, none of which depends on
    the order they came in. */
module Samples {

  predicate Sorted(s: seq<nat>) {
    forall i, j :: 0 <= i < j < |s| ==> s[i] <= s[j]
  }

  function Insert(s: seq<nat>, x: nat): seq<nat> {
    if s == [] || x <= s[0] then [x] + s else [s[0]] + Insert(s[1..], x)
  }

  lemma {:induction false} InsertAddsOne(s: seq<nat>, x: nat)
    ensures multiset(Insert(s, x)) == multiset(s) + multiset{x}
  {
    if !(s == [] || x <= s[0]) {
      InsertAddsOne(s[1..], x);
      assert s == [s[0]] + s[1..];
    }
  }

  lemma {:induction false} InsertKeepsSorted(s: seq<nat>, x: nat)
    requires Sorted(s)
    ensures Sorted(Insert(s, x))
  {
    if !(s == [] || x <= s[0]) {
      InsertKeepsSorted(s[1..], x);
      InsertAddsOne(s[1..], x);
      AtLeast(s[1..], Insert(s[1..], x), x, s[0]);
    }
  }

  lemma AtLeast(s: seq<nat>, r: seq<nat>, x: nat, low: nat)
    requires multiset(r) == multiset(s) + multiset{x} && low <= x
    requires forall i :: 0 <= i < |s| ==> low <= s[i]
    ensures forall i :: 0 <= i < |r| ==> low <= r[i]
  {
    forall i | 0 <= i < |r|
      ensures low <= r[i]
    {
      assert r[i] in multiset(r);
      assert r[i] == x || r[i] in multiset(s);
    }
  }

  function Sort(s: seq<nat>): (r: seq<nat>)
    ensures Sorted(r) && multiset(r) == multiset(s)
  {
    if s == [] then [] else
      var rest := Sort(s[1..]);
      assert s == [s[0]] + s[1..];
      InsertKeepsSorted(rest, s[0]);
      InsertAddsOne(rest, s[0]);
      Insert(rest, s[0])
  }

  /** There is one way to sort. */
  lemma {:induction false} SortedIsUnique(a: seq<nat>, b: seq<nat>)
    requires Sorted(a) && Sorted(b) && multiset(a) == multiset(b)
    ensures a == b
  {
    assert |multiset(a)| == |a| && |multiset(b)| == |b|;
    if a != [] {
      FirstIsLeast(a, b);
      FirstIsLeast(b, a);
      assert a == [a[0]] + a[1..] && b == [b[0]] + b[1..];
      assert multiset(a[1..]) == multiset(a) - multiset{a[0]};
      assert multiset(b[1..]) == multiset(b) - multiset{b[0]};
      SortedIsUnique(a[1..], b[1..]);
    }
  }

  lemma FirstIsLeast(a: seq<nat>, b: seq<nat>)
    requires Sorted(a) && a != [] && b != [] && multiset(a) == multiset(b)
    ensures a[0] <= b[0]
  {
    assert b[0] in multiset(a);
    var i :| 0 <= i < |a| && a[i] == b[0];
  }

  function Smallest(s: seq<nat>): (m: nat)
    requires s != []
    ensures m in s && forall x :: x in s ==> m <= x
  {
    if |s| == 1 then s[0] else
      var m := Smallest(s[1..]);
      assert s == [s[0]] + s[1..];
      if s[0] < m then s[0] else m
  }

  function Largest(s: seq<nat>): (m: nat)
    requires s != []
    ensures m in s && forall x :: x in s ==> x <= m
  {
    if |s| == 1 then s[0] else
      var m := Largest(s[1..]);
      assert s == [s[0]] + s[1..];
      if s[0] > m then s[0] else m
  }

  /** The middle sample, the upper one of two. */
  function Middle(s: seq<nat>): (m: nat)
    requires s != []
    ensures m in s && Smallest(s) <= m <= Largest(s)
  {
    var sorted := Sort(s);
    assert |multiset(s)| == |s| && |multiset(sorted)| == |sorted|;
    assert sorted[|sorted| / 2] in multiset(sorted);
    sorted[|sorted| / 2]
  }

  lemma SameMembers(a: seq<nat>, b: seq<nat>)
    requires multiset(a) == multiset(b)
    ensures forall x :: x in a <==> x in b
    ensures |a| == |b|
  {
    forall x
      ensures x in a <==> x in b
    {
      assert x in a <==> x in multiset(a);
      assert x in b <==> x in multiset(b);
    }
    assert |multiset(a)| == |a| && |multiset(b)| == |b|;
  }

  /** Order does not matter to any of the figures. */
  lemma OrderDoesNotMatter(a: seq<nat>, b: seq<nat>)
    requires multiset(a) == multiset(b) && a != []
    ensures b != [] && Smallest(a) == Smallest(b) && Largest(a) == Largest(b) && Middle(a) == Middle(b)
  {
    SameMembers(a, b);
    SortedIsUnique(Sort(a), Sort(b));
    assert Smallest(a) in b && Smallest(b) in a;
    assert Largest(a) in b && Largest(b) in a;
  }

  lemma EndsOfSorted(s: seq<nat>, low: nat, high: nat)
    requires Sorted(s) && s != [] && low in s && high in s
    requires forall x :: x in s ==> low <= x <= high
    ensures low == s[0] && high == s[|s| - 1]
  {
    var i :| 0 <= i < |s| && s[i] == low;
    var j :| 0 <= j < |s| && s[j] == high;
    assert s[0] in s && s[|s| - 1] in s;
  }

  lemma SortedMiddle(s: seq<nat>)
    requires Sorted(s) && s != []
    ensures Middle(s) == s[|s| / 2]
  {
    SortedIsUnique(Sort(s), s);
  }

  /** In a sorted sequence the figures are where one looks for them. */
  lemma SortedFigures(s: seq<nat>)
    requires Sorted(s) && s != []
    ensures Smallest(s) == s[0] && Largest(s) == s[|s| - 1] && Middle(s) == s[|s| / 2]
  {
    EndsOfSorted(s, Smallest(s), Largest(s));
    SortedMiddle(s);
  }

  // ---- Reordering ----

  /** Where the last element of a sequence went in a reordering of it. */
  lemma TakeOut<T>(a: seq<T>, b: seq<T>) returns (i: nat)
    requires multiset(a) == multiset(b) && a != []
    ensures i < |b| && b[i] == a[|a| - 1] && b == b[..i] + [b[i]] + b[i + 1..]
    ensures multiset(a[..|a| - 1]) == multiset(b[..i] + b[i + 1..])
  {
    var last := a[|a| - 1];
    assert last in multiset(a);
    assert last in multiset(b);
    i :| 0 <= i < |b| && b[i] == last;
    assert a == a[..|a| - 1] + [last];
    assert multiset(a) == multiset(a[..|a| - 1]) + multiset{last};
    assert b == b[..i] + [b[i]] + b[i + 1..];
    assert multiset(b) == multiset(b[..i]) + multiset{b[i]} + multiset(b[i + 1..]);
    assert multiset(b[..i] + b[i + 1..]) == multiset(b) - multiset{last};
    assert multiset(a[..|a| - 1]) == multiset(a) - multiset{last};
  }

  // ---- What the middle means ----

  function Below(s: seq<nat>, m: nat): nat {
    if s == [] then 0 else Below(s[..|s| - 1], m) + if s[|s| - 1] < m then 1 else 0
  }

  function Above(s: seq<nat>, m: nat): nat {
    if s == [] then 0 else Above(s[..|s| - 1], m) + if m < s[|s| - 1] then 1 else 0
  }

  lemma {:induction false} CountsOfBoth(a: seq<nat>, b: seq<nat>, m: nat)
    ensures Below(a + b, m) == Below(a, m) + Below(b, m)
    ensures Above(a + b, m) == Above(a, m) + Above(b, m)
    decreases |b|
  {
    if b == [] {
      assert a + b == a;
    } else {
      var c := b[..|b| - 1];
      assert (a + b)[..|a + b| - 1] == a + c;
      CountsOfBoth(a, c, m);
    }
  }

  lemma CountsOfOne(x: nat, m: nat)
    ensures Below([x], m) == if x < m then 1 else 0
    ensures Above([x], m) == if m < x then 1 else 0
  {
    assert [x][..0] == [];
  }

  lemma {:induction false} CountsIgnoreOrder(a: seq<nat>, b: seq<nat>, m: nat)
    requires multiset(a) == multiset(b)
    ensures Below(a, m) == Below(b, m) && Above(a, m) == Above(b, m)
    decreases |a|
  {
    if a == [] {
      assert |multiset(a)| == |a| && |multiset(b)| == |b|;
    } else {
      var i := TakeOut(a, b);
      var before, after := b[..i], b[i + 1..];
      CountsIgnoreOrder(a[..|a| - 1], before + after, m);
      CountsOfBoth(before, after, m);
      CountsOfBoth(before, [b[i]], m);
      CountsOfBoth(before + [b[i]], after, m);
      CountsOfOne(b[i], m);
    }
  }

  lemma {:induction false} NoneBelow(s: seq<nat>, m: nat)
    requires forall i :: 0 <= i < |s| ==> m <= s[i]
    ensures Below(s, m) == 0
  {
    if s != [] {
      NoneBelow(s[..|s| - 1], m);
    }
  }

  lemma {:induction false} NoneAbove(s: seq<nat>, m: nat)
    requires forall i :: 0 <= i < |s| ==> s[i] <= m
    ensures Above(s, m) == 0
  {
    if s != [] {
      NoneAbove(s[..|s| - 1], m);
    }
  }

  lemma {:induction false} CountsFit(s: seq<nat>, m: nat)
    ensures Below(s, m) <= |s| && Above(s, m) <= |s|
  {
    if s != [] {
      CountsFit(s[..|s| - 1], m);
    }
  }

  lemma FewBelow(a: seq<nat>, b: seq<nat>, m: nat)
    requires forall i :: 0 <= i < |b| ==> m <= b[i]
    ensures Below(a + b, m) <= |a|
  {
    CountsOfBoth(a, b, m);
    NoneBelow(b, m);
    CountsFit(a, m);
  }

  lemma FewAbove(a: seq<nat>, b: seq<nat>, m: nat)
    requires forall i :: 0 <= i < |a| ==> a[i] <= m
    ensures Above(a + b, m) <= |b|
  {
    CountsOfBoth(a, b, m);
    NoneAbove(a, m);
    CountsFit(b, m);
  }

  lemma BelowInSorted(s: seq<nat>, k: nat)
    requires Sorted(s) && k < |s|
    ensures Below(s, s[k]) <= k
  {
    var a, b, m := s[..k], s[k..], s[k];
    forall i | 0 <= i < |b|
      ensures m <= b[i]
    {
      assert b[i] == s[k + i];
    }
    assert a + b == s;
    FewBelow(a, b, m);
  }

  lemma AboveInSorted(s: seq<nat>, k: nat)
    requires Sorted(s) && k < |s|
    ensures Above(s, s[k]) <= |s| - 1 - k
  {
    var a, b, m := s[..k + 1], s[k + 1..], s[k];
    forall i | 0 <= i < |a|
      ensures a[i] <= m
    {
      assert a[i] == s[i];
    }
    assert a + b == s;
    FewAbove(a, b, m);
  }

  /** At most half the samples are below the median, and fewer than half above. */
  lemma MiddleSplits(s: seq<nat>)
    requires s != []
    ensures 2 * Below(s, Middle(s)) <= |s|
    ensures 2 * Above(s, Middle(s)) < |s|
  {
    var sorted := Sort(s);
    SameMembers(s, sorted);
    CountsIgnoreOrder(s, sorted, Middle(s));
    BelowInSorted(sorted, |s| / 2);
    AboveInSorted(sorted, |s| / 2);
  }
}
