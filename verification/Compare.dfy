/** Comparing a benchmark run set against a baseline: compare.rs, with the set facts and stages of
    benchmark.rs. Percentages are exact. */
module Compare {
  import opened Wrappers
  import opened Samples

  // ---- What a run was asking ----

  datatype Host = Host(
    backend: string,
    mode: string,
    cursor: string,
    synthetic: bool,
    build: string,
    debugAssertions: bool,
    displays: seq<string>,
    adapters: seq<string>,
    osBuild: Option<string>,
    session: Option<string>,
    powerSource: Option<string>)

  datatype Compatibility = Compatibility(host: Host, cpuFrame: bool)

  const FIELDS := [
    "backend", "mode", "cursor", "cpu_frame", "synthetic", "build", "debug_assertions", "displays", "adapters",
    "os_build", "session", "power_source"
  ]

  function Truth(b: bool): string {
    if b then "true" else "false"
  }

  function Join(parts: seq<string>): string {
    if parts == [] then "" else if |parts| == 1 then parts[0] else parts[0] + "," + Join(parts[1..])
  }

  function UnknownIfAbsent(value: Option<string>): string {
    if value.Some? then value.value else "unknown"
  }

  /** The facts as a refusal prints them, which is also how they are compared. */
  function Printed(c: Compatibility): (printed: seq<string>)
    ensures |printed| == |FIELDS|
  {
    var h := c.host;
    [
      h.backend, h.mode, h.cursor, Truth(c.cpuFrame), Truth(h.synthetic), h.build, Truth(h.debugAssertions),
      Join(h.displays), Join(h.adapters),
      UnknownIfAbsent(h.osBuild), UnknownIfAbsent(h.session), UnknownIfAbsent(h.powerSource)
    ]
  }

  datatype Difference = Difference(field: string, first: string, second: string)

  /** The differences among the facts from the `i`th on. */
  function DifferencesFrom(first: seq<string>, second: seq<string>, i: nat): seq<Difference>
    requires |first| == |second| == |FIELDS| && i <= |FIELDS|
    decreases |FIELDS| - i
  {
    if i == |FIELDS| then []
    else if first[i] != second[i] then
      [Difference(FIELDS[i], first[i], second[i])] + DifferencesFrom(first, second, i + 1)
    else DifferencesFrom(first, second, i + 1)
  }

  function Differences(a: Compatibility, b: Compatibility): seq<Difference> {
    DifferencesFrom(Printed(a), Printed(b), 0)
  }

  lemma {:induction false} DifferencesAreNamed(first: seq<string>, second: seq<string>, i: nat, k: nat)
    requires |first| == |second| == |FIELDS| && i <= k < |FIELDS|
    ensures first[k] != second[k] ==> Difference(FIELDS[k], first[k], second[k]) in DifferencesFrom(first, second, i)
    decreases |FIELDS| - i
  {
    if i < k {
      DifferencesAreNamed(first, second, i + 1, k);
    }
  }

  /** And nothing is named that does not differ. */
  lemma {:induction false} NamedMeansDiffers(first: seq<string>, second: seq<string>, i: nat, d: Difference)
    requires |first| == |second| == |FIELDS| && i <= |FIELDS| && d in DifferencesFrom(first, second, i)
    ensures exists k :: i <= k < |FIELDS| && d == Difference(FIELDS[k], first[k], second[k]) && first[k] != second[k]
    decreases |FIELDS| - i
  {
    if first[i] == second[i] || d != Difference(FIELDS[i], first[i], second[i]) {
      NamedMeansDiffers(first, second, i + 1, d);
    }
  }

  lemma {:induction false} NoDifferenceFrom(s: seq<string>, t: seq<string>, i: nat)
    requires |s| == |t| == |FIELDS| && i <= |FIELDS|
    ensures DifferencesFrom(s, t, i) == [] <==> s[i..] == t[i..]
    decreases |FIELDS| - i
  {
    if i < |FIELDS| {
      NoDifferenceFrom(s, t, i + 1);
      assert s[i..] == [s[i]] + s[i + 1..] && t[i..] == [t[i]] + t[i + 1..];
    }
  }

  /** Comparability is one equivalence, that of printing alike; so a run fits a set no matter which
      of its runs it is held against. */
  lemma ComparableMeansPrintedAlike(a: Compatibility, b: Compatibility)
    ensures Differences(a, b) == [] <==> Printed(a) == Printed(b)
  {
    NoDifferenceFrom(Printed(a), Printed(b), 0);
    assert Printed(a)[0..] == Printed(a) && Printed(b)[0..] == Printed(b);
  }

  predicate CommaFree(s: string) {
    forall k :: 0 <= k < |s| ==> s[k] != ','
  }

  /** Lists of texts without commas print alike only if they are alike. */
  lemma {:induction false} JoinTellsApart(a: seq<string>, b: seq<string>)
    requires a != [] && b != [] && Join(a) == Join(b)
    requires forall part :: part in a || part in b ==> CommaFree(part)
    ensures a == b
  {
    var x, y := AfterFirst(a), AfterFirst(b);
    assert Join(a) == a[0] + x && Join(b) == b[0] + y;
    FirstPart(a[0], x, b[0], y);
    if |a| > 1 {
      assert x == "," + Join(a[1..]) && y == x && |b| > 1;
      assert Join(a[1..]) == x[1..] == Join(b[1..]);
      JoinTellsApart(a[1..], b[1..]);
      assert a == [a[0]] + a[1..] && b == [b[0]] + b[1..];
    } else {
      assert x == "" && |b| == 1;
    }
  }

  function AfterFirst(parts: seq<string>): string
    requires parts != []
  {
    if |parts| == 1 then "" else "," + Join(parts[1..])
  }

  lemma FirstPart(p: string, x: string, q: string, y: string)
    requires CommaFree(p) && CommaFree(q) && p + x == q + y
    requires (x == "" || x[0] == ',') && (y == "" || y[0] == ',')
    ensures p == q && x == y
  {
    NoLonger(p, x, q, y);
    NoLonger(q, y, p, x);
    assert p == (p + x)[..|p|] && q == (q + y)[..|q|];
    assert x == (p + x)[|p|..] && y == (q + y)[|q|..];
  }

  lemma NoLonger(p: string, x: string, q: string, y: string)
    requires CommaFree(p) && p + x == q + y && (y == "" || y[0] == ',')
    ensures |p| <= |q|
  {
    var n: nat := |q|;
    assert CharAt(q + y, n) == CharAt(y, 0);
    assert n < |p| ==> CharAt(p + x, n) == CharAt(p, n) != None;
  }

  function CharAt(s: string, i: nat): Option<char> {
    if i < |s| then Some(s[i]) else None
  }

  /** The same, or both missing or called unknown. */
  predicate KnownAlike(x: Option<string>, y: Option<string>) {
    x == y || (x in {None, Some("unknown")} && y in {None, Some("unknown")})
  }

  /** Two runs are comparable exactly if all of these are alike. */
  lemma WhatIsCompared(a: Compatibility, b: Compatibility)
    ensures Differences(a, b) == [] <==>
      && a.cpuFrame == b.cpuFrame
      && a.host.backend == b.host.backend && a.host.mode == b.host.mode && a.host.cursor == b.host.cursor
      && a.host.synthetic == b.host.synthetic && a.host.build == b.host.build
      && a.host.debugAssertions == b.host.debugAssertions
      && Join(a.host.displays) == Join(b.host.displays) && Join(a.host.adapters) == Join(b.host.adapters)
      && KnownAlike(a.host.osBuild, b.host.osBuild) && KnownAlike(a.host.session, b.host.session)
      && KnownAlike(a.host.powerSource, b.host.powerSource)
  {
    ComparableMeansPrintedAlike(a, b);
    var p, q := Printed(a), Printed(b);
    assert Truth(true)[0] != Truth(false)[0];
    assert p == q <==> forall k :: 0 <= k < 12 ==> p[k] == q[k];
    AlikeFromTheTop(a, b);
  }

  lemma AlikeFromTheTop(a: Compatibility, b: Compatibility)
    ensures var p, q := Printed(a), Printed(b);
      && (p[0] == q[0] <==> a.host.backend == b.host.backend) && (p[1] == q[1] <==> a.host.mode == b.host.mode)
      && (p[2] == q[2] <==> a.host.cursor == b.host.cursor) && (p[3] == q[3] <==> a.cpuFrame == b.cpuFrame)
      && (p[4] == q[4] <==> a.host.synthetic == b.host.synthetic) && (p[5] == q[5] <==> a.host.build == b.host.build)
      && (p[6] == q[6] <==> a.host.debugAssertions == b.host.debugAssertions)
      && (p[7] == q[7] <==> Join(a.host.displays) == Join(b.host.displays))
      && (p[8] == q[8] <==> Join(a.host.adapters) == Join(b.host.adapters))
      && (p[9] == q[9] <==> KnownAlike(a.host.osBuild, b.host.osBuild))
      && (p[10] == q[10] <==> KnownAlike(a.host.session, b.host.session))
      && (p[11] == q[11] <==> KnownAlike(a.host.powerSource, b.host.powerSource))
  {
    assert Truth(true)[0] != Truth(false)[0];
  }

  /** And each is named by its own name, a flag as true or false. */
  lemma FactsAreNamed(c: Compatibility, k: nat)
    requires k < |FIELDS|
    ensures FIELDS[k] == "backend" ==> Printed(c)[k] == c.host.backend
    ensures FIELDS[k] == "mode" ==> Printed(c)[k] == c.host.mode
    ensures FIELDS[k] == "cursor" ==> Printed(c)[k] == c.host.cursor
    ensures FIELDS[k] == "cpu_frame" ==> Printed(c)[k] == if c.cpuFrame then "true" else "false"
    ensures FIELDS[k] == "synthetic" ==> Printed(c)[k] == if c.host.synthetic then "true" else "false"
    ensures FIELDS[k] == "build" ==> Printed(c)[k] == c.host.build
    ensures FIELDS[k] == "debug_assertions" ==> Printed(c)[k] == if c.host.debugAssertions then "true" else "false"
    ensures FIELDS[k] == "displays" ==> Printed(c)[k] == Join(c.host.displays)
    ensures FIELDS[k] == "adapters" ==> Printed(c)[k] == Join(c.host.adapters)
  {
  }

  /** It is not equality: an unknown driver and a fact called "unknown" print alike. */
  lemma ComparableRunsMayDiffer(h: Host)
    ensures var a, b := Compatibility(h.(session := None), true), Compatibility(h.(session := Some("unknown")), true);
      a != b && Differences(a, b) == []
  {
    ComparableMeansPrintedAlike(
      Compatibility(h.(session := None), true), Compatibility(h.(session := Some("unknown")), true));
  }

  // ---- Runs and sets of runs ----

  datatype Summary = Summary(p50: nat, p95: nat)

  datatype Report = Report(
    host: Host,
    cursorOutcomes: map<string, nat>,
    triggerToDequeue: Summary,
    nativeFrame: Summary,
    cpuFrame: Option<Summary>,
    readback: Option<Summary>,
    frameAge: Summary)

  const STAGES := ["trigger_to_dequeue", "native_frame", "cpu_frame", "readback", "frame_age"]

  function Stage(run: Report, stage: nat): Option<Summary>
    requires stage < |STAGES|
  {
    [Some(run.triggerToDequeue), Some(run.nativeFrame), run.cpuFrame, run.readback, Some(run.frameAge)][stage]
  }

  function CompatibilityOf(run: Report): Compatibility {
    Compatibility(run.host, run.cpuFrame.Some?)
  }

  /** Runs that all asked the same question. */
  predicate Uniform(runs: seq<Report>) {
    forall i, j :: 0 <= i < |runs| && 0 <= j < |runs| ==>
      Printed(CompatibilityOf(runs[i])) == Printed(CompatibilityOf(runs[j]))
  }

  /** The check `load` makes of a set: each run against the first. */
  method CheckSet(runs: seq<Report>) returns (odd: Option<nat>)
    requires runs != []
    ensures odd == None <==> Uniform(runs)
    ensures odd.Some? ==> odd.value < |runs|
    ensures odd.Some? ==> Differences(CompatibilityOf(runs[0]), CompatibilityOf(runs[odd.value])) != []
    ensures odd.Some? ==> Uniform(runs[..odd.value])
  {
    for i := 1 to |runs|
      invariant forall j :: 0 <= j < i ==> Printed(CompatibilityOf(runs[j])) == Printed(CompatibilityOf(runs[0]))
    {
      ComparableMeansPrintedAlike(CompatibilityOf(runs[0]), CompatibilityOf(runs[i]));
      if Differences(CompatibilityOf(runs[0]), CompatibilityOf(runs[i])) != [] {
        return Some(i);
      }
    }
    return None;
  }

  datatype Percentile = P50 | P95

  function Sample(run: Report, stage: nat, p: Percentile): seq<nat>
    requires stage < |STAGES|
  {
    match Stage(run, stage)
    case None => []
    case Some(summary) => [if p == P50 then summary.p50 else summary.p95]
  }

  /** The figures of the runs that measured the stage. */
  function Values(runs: seq<Report>, stage: nat, p: Percentile): seq<nat>
    requires stage < |STAGES|
  {
    if runs == [] then [] else
      Values(runs[..|runs| - 1], stage, p) + Sample(runs[|runs| - 1], stage, p)
  }

  /** The figures of one run are those of the stage of that name, at that percentile. */
  lemma SamplesAre(run: Report, stage: nat)
    requires stage < |STAGES|
    ensures STAGES[stage] == "trigger_to_dequeue" ==> IsSampleOf(run, stage, Some(run.triggerToDequeue))
    ensures STAGES[stage] == "native_frame" ==> IsSampleOf(run, stage, Some(run.nativeFrame))
    ensures STAGES[stage] == "cpu_frame" ==> IsSampleOf(run, stage, run.cpuFrame)
    ensures STAGES[stage] == "readback" ==> IsSampleOf(run, stage, run.readback)
    ensures STAGES[stage] == "frame_age" ==> IsSampleOf(run, stage, Some(run.frameAge))
  {
    assert [run][..0] == [];
    assert |STAGES[0]| == 18 && |STAGES[1]| == 12 && |STAGES[2]| == 9 && STAGES[2][0] == 'c' && STAGES[3][0] == 'r';
    assert STAGES[4][0] == 'f' && |STAGES[3]| == 8;
  }

  predicate IsSampleOf(run: Report, stage: nat, summary: Option<Summary>)
    requires stage < |STAGES|
  {
    && Values([run], stage, P50) == (if summary.Some? then [summary.value.p50] else [])
    && Values([run], stage, P95) == (if summary.Some? then [summary.value.p95] else [])
  }

  lemma {:induction false} ValuesOfBoth(a: seq<Report>, b: seq<Report>, stage: nat, p: Percentile)
    requires stage < |STAGES|
    ensures Values(a + b, stage, p) == Values(a, stage, p) + Values(b, stage, p)
    decreases |b|
  {
    if b == [] {
      assert a + b == a;
    } else {
      var c := b[..|b| - 1];
      assert (a + b)[..|a + b| - 1] == a + c;
      ValuesOfBoth(a, c, stage, p);
    }
  }

  lemma {:induction false} ValuesOfReordered(a: seq<Report>, b: seq<Report>, stage: nat, p: Percentile)
    requires stage < |STAGES| && multiset(a) == multiset(b)
    ensures multiset(Values(a, stage, p)) == multiset(Values(b, stage, p))
    decreases |a|
  {
    if a == [] {
      assert |multiset(a)| == |a| && |multiset(b)| == |b|;
    } else {
      var i := TakeOut(a, b);
      var before, after := b[..i], b[i + 1..];
      ValuesOfReordered(a[..|a| - 1], before + after, stage, p);
      ValuesOfBoth(before, after, stage, p);
      ValuesOfBoth(before, [b[i]], stage, p);
      ValuesOfBoth(before + [b[i]], after, stage, p);
      assert [b[i]][..0] == [];
      assert Values([b[i]], stage, p) == Sample(b[i], stage, p);
    }
  }

  // ---- The figures and the verdict ----

  function Percent(part: int, whole: int): real
    requires whole > 0
  {
    part as real / whole as real * 100.0
  }

  /** What is kept of a set's samples of one stage: the smallest, the median and the largest. */
  datatype Figures = Figures(low: int, middle: int, high: int)

  predicate InOrder(f: Figures) {
    0 <= f.low <= f.middle <= f.high
  }

  function FiguresOf(samples: seq<nat>): (f: Figures)
    requires samples != []
    ensures InOrder(f)
    ensures f.low in samples && f.high in samples
    ensures forall x :: x in samples ==> f.low <= x <= f.high
  {
    Figures(Smallest(samples), Middle(samples), Largest(samples))
  }

  lemma FiguresIgnoreOrder(a: seq<nat>, b: seq<nat>)
    requires multiset(a) == multiset(b)
    ensures a == [] <==> b == []
    ensures a != [] ==> FiguresOf(a) == FiguresOf(b)
  {
    SameMembers(a, b);
    if a != [] {
      OrderDoesNotMatter(a, b);
    }
  }

  /** How far the samples disagree, as a percentage of the smallest. */
  function SpreadPercent(f: Figures): (spread: real)
    requires InOrder(f)
    ensures spread >= 0.0
  {
    if f.low == 0 then 0.0
    else
      PercentMeans(f.high - f.low, f.low);
      Percent(f.high - f.low, f.low)
  }

  /** It is the range measured in hundredths of the smallest, and zero if that is. */
  lemma SpreadMeans(f: Figures)
    requires InOrder(f)
    ensures SpreadPercent(f) * f.low as real == if f.low == 0 then 0.0 else (f.high - f.low) as real * 100.0
    ensures SpreadPercent(f) == 0.0 <==> f.low == 0 || f.low == f.high
  {
    if 0 < f.low {
      PercentMeans(f.high - f.low, f.low);
    }
  }

  function DeltaPercent(baseline: int, candidate: int): real
    requires 0 <= baseline
  {
    if baseline == 0 then 0.0 else Percent(candidate - baseline, baseline)
  }

  lemma NegatedPercent(part: int, whole: int)
    requires whole > 0
    ensures Percent(-part, whole) == -Percent(part, whole)
  {
    var q, w := part as real / whole as real, whole as real;
    assert (-part) as real == -(part as real);
    assert -(part as real) / w == -q;
  }

  /** Positive exactly if slower, whatever the sizes. */
  lemma DeltaMeans(baseline: int, candidate: int)
    requires 0 < baseline
    ensures DeltaPercent(baseline, candidate) * baseline as real == (candidate - baseline) as real * 100.0
    ensures DeltaPercent(baseline, candidate) > 0.0 <==> candidate > baseline
    ensures DeltaPercent(baseline, candidate) < 0.0 <==> candidate < baseline
  {
    PercentMeans(candidate - baseline, baseline);
    if candidate < baseline {
      PercentMeans(baseline - candidate, baseline);
      NegatedPercent(baseline - candidate, baseline);
    }
  }

  datatype Verdict = WithinNoise | Slower | Faster | Unmeasurable

  function Max(a: real, b: real): real {
    if a > b then a else b
  }

  function Judge(baseline: Figures, candidate: Figures, noise: real): Verdict
    requires InOrder(baseline) && InOrder(candidate)
  {
    if baseline.middle == 0 || candidate.middle == 0 then Unmeasurable
    else
      var delta := DeltaPercent(baseline.middle, candidate.middle);
      var floor := Max(Max(SpreadPercent(baseline), SpreadPercent(candidate)), noise);
      var size := if delta < 0.0 then -delta else delta;
      if size <= floor then WithinNoise else if delta > 0.0 then Slower else Faster
  }

  lemma PercentMeans(part: int, whole: int)
    requires whole > 0
    ensures Percent(part, whole) * whole as real == part as real * 100.0
    ensures part >= 0 ==> Percent(part, whole) >= 0.0
    ensures part > 0 ==> Percent(part, whole) > 0.0
  {
    var q := part as real / whole as real;
    assert q * whole as real == part as real;
    assert part >= 0 ==> q >= 0.0;
    assert part > 0 ==> q > 0.0;
    assert q * 100.0 * whole as real == q * whole as real * 100.0;
  }

  lemma {:induction false} CastProduct(a: int, d: nat)
    ensures (a * d) as real == a as real * d as real
  {
    if d > 0 {
      CastProduct(a, d - 1);
      assert a * d == a * (d - 1) + a;
      var x, y := a as real, (d - 1) as real;
      assert x * (y + 1.0) == x * y + x;
    }
  }

  lemma CrossMultiply(p: real, q: real, x: real, y: real, a: real, c: real)
    requires q < p && 0.0 < x && 0.0 < y && p * x == a && q * y == c
    ensures c * x < a * y
  {
    var z := x * y;
    assert 0.0 < z;
    assert 0.0 < (p - q) * z;
    assert (p - q) * z == p * z - q * z;
    assert p * z == a * y by {
      assert p * (x * y) == (p * x) * y;
    }
    assert q * z == c * x by {
      assert q * (y * x) == (q * y) * x;
    }
  }

  /** One percentage above another, without the fractions. */
  lemma PercentAbove(a: int, b: int, c: int, d: int)
    requires b > 0 && d > 0 && Percent(c, d) < Percent(a, b)
    ensures c * b < a * d
  {
    PercentMeans(a, b);
    PercentMeans(c, d);
    CrossMultiply(Percent(a, b), Percent(c, d), b as real, d as real, a as real * 100.0, c as real * 100.0);
    CastProduct(a, d);
    CastProduct(c, b);
    Hundredfold(a as real, d as real);
    Hundredfold(c as real, b as real);
  }

  lemma Hundredfold(x: real, y: real)
    ensures x * 100.0 * y == 100.0 * (x * y)
  {
  }

  lemma ScaleUp(a: int, b: int, k: int)
    ensures a <= b && 0 <= k ==> a * k <= b * k
  {
    if a <= b && 0 <= k {
      assert b * k == a * k + (b - a) * k;
    }
  }

  lemma Cancel(a: int, b: int, k: int)
    ensures a * k < b * k && 0 <= k ==> a < b
  {
    ScaleUp(b, a, k);
  }

  /** Growth past the spread leaves the range behind: for a middle figure `m` of a range from `low`
      to `high`. */
  lemma GrowthPastSpread(m: int, other: int, low: int, high: int)
    requires 0 < low <= high && 0 <= m
    requires (high - low) * m < (other - m) * low
    ensures low <= m ==> high < other
    ensures other <= high ==> m < low
  {
    assert (other - m) * low == other * low - m * low;
    assert (high - low) * m == high * m - low * m;
    assert high * m < other * low;
    ScaleUp(low, m, high);
    Cancel(high, other, low);
    ScaleUp(other, high, m);
    ScaleUp(other, high, low);
    Cancel(m, low, high);
  }

  lemma NoRoom(m: int, low: int, high: int)
    ensures 0 <= m && low <= high && m <= high ==> m * (2 * low - high) <= low * low
  {
    var room, gap := 2 * low - high, high - low;
    assert 0 <= gap * gap;
    assert high * room == low * low - gap * gap by {
      assert high == low + gap && room == low - gap;
      assert (low + gap) * (low - gap) == low * low - gap * gap;
    }
    ScaleUp(m, high, room);
    ScaleUp(room, 0, m);
  }

  /** A loss past the spread does so too, though it is measured against the larger figure. */
  lemma LossPastSpread(m: int, other: int, low: int, high: int)
    requires 0 < low <= high && 0 <= m
    requires (high - low) * m < (m - other) * low
    ensures m <= high ==> other < low
    ensures low <= other ==> high < m
  {
    assert (m - other) * low == m * low - other * low;
    assert (high - low) * m == high * m - low * m;
    assert other * low < m * (2 * low - high);
    ScaleUp(low, other, low);
    NoRoom(m, low, high);
  }

  lemma CrossMultiplyBack(p: real, q: real, x: real, y: real, a: real, c: real)
    requires p <= q && 0.0 < x && 0.0 < y && p * x == a && q * y == c
    ensures a * y <= c * x
  {
    var z := x * y;
    assert 0.0 < z;
    assert 0.0 <= (q - p) * z;
    assert (q - p) * z == q * z - p * z;
    assert p * z == a * y by {
      assert p * (x * y) == (p * x) * y;
    }
    assert q * z == c * x by {
      assert q * (y * x) == (q * y) * x;
    }
  }

  /** Percentages compare as their cross products do. */
  lemma PercentOrder(a: int, b: int, c: int, d: int)
    requires b > 0 && d > 0
    ensures Percent(c, d) < Percent(a, b) <==> c * b < a * d
  {
    if Percent(c, d) < Percent(a, b) {
      PercentAbove(a, b, c, d);
    } else {
      PercentMeans(a, b);
      PercentMeans(c, d);
      CrossMultiplyBack(Percent(a, b), Percent(c, d), b as real, d as real, a as real * 100.0, c as real * 100.0);
      CastProduct(a, d);
      CastProduct(c, b);
      Hundredfold(a as real, d as real);
      Hundredfold(c as real, b as real);
    }
  }

  lemma ExceedsNoise(change: int, b: int, noise: real)
    requires b > 0
    ensures noise < Percent(change, b) <==> noise * b as real < change as real * 100.0
  {
    PercentMeans(change, b);
    var p, x := Percent(change, b), b as real;
    assert (p - noise) * x == p * x - noise * x;
    assert 0.0 < p - noise ==> 0.0 < (p - noise) * x;
    assert p - noise <= 0.0 ==> (p - noise) * x <= 0.0;
  }

  /** A change from `b` that is larger, in proportion, than the range of these figures is to their
      smallest; a range from zero is in no proportion. */
  predicate OutgrowsSpread(change: int, b: nat, f: Figures)
    requires InOrder(f)
  {
    0 < f.low ==> (f.high - f.low) * b < change * f.low
  }

  lemma ExceedsSpread(change: int, b: nat, f: Figures)
    requires InOrder(f) && 0 < b && 0 < change
    ensures SpreadPercent(f) < Percent(change, b) <==> OutgrowsSpread(change, b, f)
  {
    PercentMeans(change, b);
    if 0 < f.low {
      PercentOrder(change, b, f.high - f.low, f.low);
    }
  }

  /** A change of so much, up or down, counts: it is more than the noise and than each side's spread. */
  predicate Counts(change: int, baseline: Figures, candidate: Figures, noise: real)
    requires InOrder(baseline) && InOrder(candidate)
  {
    && 0 < change && noise * baseline.middle as real < change as real * 100.0
    && OutgrowsSpread(change, baseline.middle, baseline) && OutgrowsSpread(change, baseline.middle, candidate)
  }

  /** The floor is the largest of three, so what is above it is above each. */
  lemma BelowEach(x: real, y: real, n: real, p: real)
    ensures Max(Max(x, y), n) < p <==> x < p && y < p && n < p
  {
  }

  /** The verdict by its percentages. */
  lemma VerdictByPercent(baseline: Figures, candidate: Figures, noise: real)
    requires InOrder(baseline) && InOrder(candidate) && 0 < baseline.middle && 0 < candidate.middle
    ensures var b, c, v := baseline.middle, candidate.middle, Judge(baseline, candidate, noise);
      && (v == Slower <==> b < c && AboveFloor(Percent(c - b, b), baseline, candidate, noise))
      && (v == Faster <==> c < b && AboveFloor(Percent(b - c, b), baseline, candidate, noise))
      && v != Unmeasurable
  {
    var b, c := baseline.middle, candidate.middle;
    DeltaMeans(b, c);
    NegatedPercent(b - c, b);
    var x, y := SpreadPercent(baseline), SpreadPercent(candidate);
    BelowEach(x, y, noise, DeltaPercent(b, c));
    BelowEach(x, y, noise, -DeltaPercent(b, c));
  }

  predicate AboveFloor(p: real, baseline: Figures, candidate: Figures, noise: real)
    requires InOrder(baseline) && InOrder(candidate)
  {
    SpreadPercent(baseline) < p && SpreadPercent(candidate) < p && noise < p
  }

  lemma AboveFloorCounts(change: int, baseline: Figures, candidate: Figures, noise: real)
    requires InOrder(baseline) && InOrder(candidate) && 0 < baseline.middle && 0 < change
    ensures AboveFloor(Percent(change, baseline.middle), baseline, candidate, noise) ==>
      Counts(change, baseline, candidate, noise)
  {
    ExceedsNoise(change, baseline.middle, noise);
    ExceedsSpread(change, baseline.middle, baseline);
    ExceedsSpread(change, baseline.middle, candidate);
  }

  lemma CountsAboveFloor(change: int, baseline: Figures, candidate: Figures, noise: real)
    requires InOrder(baseline) && InOrder(candidate) && 0 < baseline.middle && Counts(change, baseline, candidate, noise)
    ensures AboveFloor(Percent(change, baseline.middle), baseline, candidate, noise)
  {
    ExceedsNoise(change, baseline.middle, noise);
    ExceedsSpread(change, baseline.middle, baseline);
    ExceedsSpread(change, baseline.middle, candidate);
  }

  /** The verdict, without its percentages: unmeasurable exactly if a median is zero; otherwise slower or
      faster exactly if the medians differ that way by an amount that counts. */
  lemma VerdictMeans(baseline: Figures, candidate: Figures, noise: real)
    requires InOrder(baseline) && InOrder(candidate)
    ensures var b, c, v := baseline.middle, candidate.middle, Judge(baseline, candidate, noise);
      && (v == Unmeasurable <==> b == 0 || c == 0)
      && (v == Slower <==> 0 < b && 0 < c && Counts(c - b, baseline, candidate, noise))
      && (v == Faster <==> 0 < b && 0 < c && Counts(b - c, baseline, candidate, noise))
  {
    var b, c := baseline.middle, candidate.middle;
    if 0 < b && 0 < c {
      VerdictByPercent(baseline, candidate, noise);
      if b < c {
        AboveFloorCounts(c - b, baseline, candidate, noise);
      } else if c < b {
        AboveFloorCounts(b - c, baseline, candidate, noise);
      }
      if Counts(c - b, baseline, candidate, noise) {
        CountsAboveFloor(c - b, baseline, candidate, noise);
      } else if Counts(b - c, baseline, candidate, noise) {
        CountsAboveFloor(b - c, baseline, candidate, noise);
      }
    }
  }

  /** For instance: five percent slower is a change at four percent of noise, and none at ten. */
  lemma NoiseIsHeeded(baseline: Figures, candidate: Figures)
    requires baseline == Figures(100, 100, 100) && candidate == Figures(105, 105, 105)
    ensures Judge(baseline, candidate, 4.0) == Slower && Judge(baseline, candidate, 10.0) == WithinNoise
  {
    VerdictMeans(baseline, candidate, 4.0);
    VerdictMeans(baseline, candidate, 10.0);
  }

  /** A side without a zero figure keeps its whole range clear of the other side's median: a slower
      candidate's median is above every baseline run, and its every run above the baseline's median. */
  lemma SlowerSeparates(baseline: Figures, candidate: Figures, noise: real)
    requires InOrder(baseline) && InOrder(candidate) && Judge(baseline, candidate, noise) == Slower
    ensures 0 < baseline.low ==> baseline.high < candidate.middle
    ensures 0 < candidate.low <==> baseline.middle < candidate.low
  {
    var b, c := baseline.middle, candidate.middle;
    if 0 < baseline.low {
      PercentAbove(c - b, b, baseline.high - baseline.low, baseline.low);
      GrowthPastSpread(b, c, baseline.low, baseline.high);
    }
    if 0 < candidate.low {
      PercentAbove(c - b, b, candidate.high - candidate.low, candidate.low);
      GrowthPastSpread(b, c, candidate.low, candidate.high);
    }
  }

  /** And a faster candidate's below. */
  lemma FasterSeparates(baseline: Figures, candidate: Figures, noise: real)
    requires InOrder(baseline) && InOrder(candidate) && Judge(baseline, candidate, noise) == Faster
    ensures 0 < baseline.low <==> candidate.middle < baseline.low
    ensures 0 < candidate.low ==> candidate.high < baseline.middle
  {
    var b, c := baseline.middle, candidate.middle;
    NegatedPercent(c - b, b);
    if 0 < baseline.low {
      PercentAbove(b - c, b, baseline.high - baseline.low, baseline.low);
      LossPastSpread(b, c, baseline.low, baseline.high);
    }
    if 0 < candidate.low {
      PercentAbove(b - c, b, candidate.high - candidate.low, candidate.low);
      LossPastSpread(b, c, candidate.low, candidate.high);
    }
  }

  /** So no run of a side with positive figures is on the wrong side of the other side's median. */
  lemma VerdictSeparatesRuns(baseline: seq<nat>, candidate: seq<nat>, noise: real)
    requires baseline != [] && candidate != [] && 0 !in baseline && 0 !in candidate
    ensures var b, c := FiguresOf(baseline), FiguresOf(candidate);
      && (Judge(b, c, noise) == Slower ==>
        (forall x :: x in baseline ==> x < c.middle) && (forall x :: x in candidate ==> b.middle < x))
      && (Judge(b, c, noise) == Faster ==>
        (forall x :: x in baseline ==> c.middle < x) && (forall x :: x in candidate ==> x < b.middle))
  {
    RunsWithinFigures(baseline);
    RunsWithinFigures(candidate);
    FiguresSeparate(FiguresOf(baseline), FiguresOf(candidate), noise);
  }

  lemma RunsWithinFigures(s: seq<nat>)
    requires s != [] && 0 !in s
    ensures InOrder(FiguresOf(s)) && 0 < FiguresOf(s).low
    ensures forall x :: x in s ==> FiguresOf(s).low <= x <= FiguresOf(s).high
  {
  }

  lemma FiguresSeparate(b: Figures, c: Figures, noise: real)
    requires InOrder(b) && InOrder(c) && 0 < b.low && 0 < c.low
    ensures Judge(b, c, noise) == Slower ==> b.high < c.middle && b.middle < c.low
    ensures Judge(b, c, noise) == Faster ==> c.middle < b.low && c.high < b.middle
  {
    if Judge(b, c, noise) == Slower {
      SlowerSeparates(b, c, noise);
    } else if Judge(b, c, noise) == Faster {
      FasterSeparates(b, c, noise);
    }
  }

  /** More noise allowed only quiets a verdict: it never changes what is unmeasurable nor turns one
      direction into the other. */
  lemma NoiseOnlyQuiets(baseline: Figures, candidate: Figures, less: real, more: real)
    requires InOrder(baseline) && InOrder(candidate) && less <= more
    ensures var v, w := Judge(baseline, candidate, less), Judge(baseline, candidate, more);
      v == w || (v in {Slower, Faster} && w == WithinNoise)
  {
  }

  /** Figures against themselves have not changed. */
  lemma NoChangeAgainstItself(f: Figures, noise: real)
    requires InOrder(f) && 0.0 <= noise
    ensures Judge(f, f, noise) == if f.middle == 0 then Unmeasurable else WithinNoise
  {
  }

  /** A zero sample hides its side's spread, and with it the range. */
  lemma ZeroSampleHidesTheRange(baseline: seq<nat>, candidate: seq<nat>)
    requires baseline == [0, 10, 100] && candidate == [20, 20, 20]
    ensures Judge(FiguresOf(baseline), FiguresOf(candidate), 2.0) == Slower && 20 < FiguresOf(baseline).high
  {
    FiguresOfThree(baseline, 0, 10, 100);
    FiguresOfThree(candidate, 20, 20, 20);
    ExampleIsSlower();
  }

  lemma FiguresOfThree(s: seq<nat>, low: nat, middle: nat, high: nat)
    requires |s| == 3 && Sorted(s) && s[0] == low && s[1] == middle && s[2] == high
    ensures FiguresOf(s) == Figures(low, middle, high)
  {
    SortedFigures(s);
  }

  lemma ExampleIsSlower()
    ensures Judge(Figures(0, 10, 100), Figures(20, 20, 20), 2.0) == Slower
  {
    assert Percent(10, 10) == 100.0;
    assert Percent(0, 20) == 0.0;
  }

  // ---- The comparison ----

  datatype StageComparison = StageComparison(
    stage: string,
    baselineP50: nat,
    candidateP50: nat,
    delta: real,
    baselineP95: nat,
    candidateP95: nat,
    p95Delta: real,
    baselineSpread: real,
    candidateSpread: real,
    verdict: Verdict)

  datatype Comparison = Comparison(
    compatibility: Compatibility,
    stages: seq<StageComparison>,
    baselineCursor: map<string, nat>,
    candidateCursor: map<string, nat>)

  datatype Outcome = Compared(comparison: Comparison) | BadNoise | NotComparable(differences: seq<Difference>)

  /** The median, or zero of no samples. */
  function MiddleOrZero(samples: seq<nat>): (m: nat) {
    if samples == [] then 0 else FiguresOf(samples).middle
  }

  function LineOf(stage: string, baseline: Figures, candidate: Figures, p95: (nat, nat), noise: real): StageComparison
    requires InOrder(baseline) && InOrder(candidate)
  {
    StageComparison(stage, baseline.middle, candidate.middle, DeltaPercent(baseline.middle, candidate.middle),
      p95.0, p95.1, DeltaPercent(p95.0, p95.1), SpreadPercent(baseline), SpreadPercent(candidate),
      Judge(baseline, candidate, noise))
  }

  /** A stage's line of the table, if both sides measured it. */
  function StageLine(baseline: seq<Report>, candidate: seq<Report>, stage: nat, noise: real): seq<StageComparison>
    requires stage < |STAGES|
  {
    var b, c := Values(baseline, stage, P50), Values(candidate, stage, P50);
    var p95 := (MiddleOrZero(Values(baseline, stage, P95)), MiddleOrZero(Values(candidate, stage, P95)));
    if b == [] || c == [] then [] else [LineOf(STAGES[stage], FiguresOf(b), FiguresOf(c), p95, noise)]
  }

  /** What a line of the table says: medians of either side's samples, how far each side's samples disagree,
      how far the medians differ, and the verdict on that. */
  lemma LineReports(baseline: seq<Report>, candidate: seq<Report>, stage: nat, noise: real)
    requires stage < |STAGES|
    ensures var b, c := Values(baseline, stage, P50), Values(candidate, stage, P50);
      var p, q := Values(baseline, stage, P95), Values(candidate, stage, P95);
      var lines := StageLine(baseline, candidate, stage, noise);
      if b == [] || c == [] then lines == []
      else
        && |lines| == 1 && lines[0].stage == STAGES[stage]
        && lines[0].baselineP50 == Middle(b) && lines[0].candidateP50 == Middle(c)
        && (p != [] ==> lines[0].baselineP95 == Middle(p)) && (q != [] ==> lines[0].candidateP95 == Middle(q))
        && lines[0].delta == DeltaPercent(Middle(b), Middle(c))
        && lines[0].p95Delta == DeltaPercent(lines[0].baselineP95, lines[0].candidateP95)
        && lines[0].baselineSpread == SpreadPercent(FiguresOf(b))
        && lines[0].candidateSpread == SpreadPercent(FiguresOf(c))
        && lines[0].verdict == Judge(FiguresOf(b), FiguresOf(c), noise)
  {
  }

  /** The first `n` parts, one after the other. */
  function Together<T>(parts: seq<seq<T>>, n: nat): seq<T>
    requires n <= |parts|
  {
    if n == 0 then [] else Together(parts, n - 1) + parts[n - 1]
  }

  /** Every stage's line, or no line. */
  function StageLines(baseline: seq<Report>, candidate: seq<Report>, noise: real): (lines: seq<seq<StageComparison>>)
    ensures |lines| == |STAGES|
  {
    seq(|STAGES|, i requires 0 <= i < |STAGES| => StageLine(baseline, candidate, i, noise))
  }

  lemma LinesIgnoreOrder(a: seq<Report>, b: seq<Report>, c: seq<Report>, d: seq<Report>, noise: real)
    requires multiset(a) == multiset(b) && multiset(c) == multiset(d)
    ensures StageLines(a, c, noise) == StageLines(b, d, noise)
  {
    forall i | 0 <= i < |STAGES|
      ensures StageLine(a, c, i, noise) == StageLine(b, d, i, noise)
    {
      LineIgnoresOrder(a, b, c, d, i, noise);
    }
  }

  lemma FiguresOfReordered(a: seq<Report>, b: seq<Report>, stage: nat, p: Percentile)
    requires stage < |STAGES| && multiset(a) == multiset(b)
    ensures var v, w := Values(a, stage, p), Values(b, stage, p);
      (v == [] <==> w == []) && (v != [] ==> FiguresOf(v) == FiguresOf(w)) && MiddleOrZero(v) == MiddleOrZero(w)
  {
    ValuesOfReordered(a, b, stage, p);
    FiguresIgnoreOrder(Values(a, stage, p), Values(b, stage, p));
  }

  lemma LineIgnoresOrder(a: seq<Report>, b: seq<Report>, c: seq<Report>, d: seq<Report>, stage: nat, noise: real)
    requires stage < |STAGES| && multiset(a) == multiset(b) && multiset(c) == multiset(d)
    ensures StageLine(a, c, stage, noise) == StageLine(b, d, stage, noise)
  {
    FiguresOfReordered(a, b, stage, P50);
    FiguresOfReordered(c, d, stage, P50);
    FiguresOfReordered(a, b, stage, P95);
    FiguresOfReordered(c, d, stage, P95);
  }

  // ---- The pointer outcomes ----

  function Count(outcomes: map<string, nat>, outcome: string): nat {
    if outcome in outcomes then outcomes[outcome] else 0
  }

  /** How often the runs had this outcome. */
  function Total(runs: seq<Report>, outcome: string): nat {
    if runs == [] then 0 else Total(runs[..|runs| - 1], outcome) + Count(runs[|runs| - 1].cursorOutcomes, outcome)
  }

  lemma TotalOfOne(run: Report, outcome: string)
    ensures Total([run], outcome) == if outcome in run.cursorOutcomes then run.cursorOutcomes[outcome] else 0
  {
    assert [run][..0] == [];
  }

  predicate Seen(runs: seq<Report>, outcome: string) {
    exists i :: 0 <= i < |runs| && outcome in runs[i].cursorOutcomes
  }

  lemma {:induction false} TotalOfBoth(a: seq<Report>, b: seq<Report>, outcome: string)
    ensures Total(a + b, outcome) == Total(a, outcome) + Total(b, outcome)
    decreases |b|
  {
    if b == [] {
      assert a + b == a;
    } else {
      var c := b[..|b| - 1];
      assert (a + b)[..|a + b| - 1] == a + c;
      TotalOfBoth(a, c, outcome);
    }
  }

  lemma {:induction false} TotalIgnoresOrder(a: seq<Report>, b: seq<Report>, outcome: string)
    requires multiset(a) == multiset(b)
    ensures Total(a, outcome) == Total(b, outcome)
    decreases |a|
  {
    if a == [] {
      assert |multiset(a)| == |a| && |multiset(b)| == |b|;
    } else {
      var i := TakeOut(a, b);
      var before, after := b[..i], b[i + 1..];
      TotalIgnoresOrder(a[..|a| - 1], before + after, outcome);
      TotalOfBoth(before, after, outcome);
      TotalOfBoth(before, [b[i]], outcome);
      TotalOfBoth(before + [b[i]], after, outcome);
      assert [b[i]][..0] == [];
      assert Total([b[i]], outcome) == Count(b[i].cursorOutcomes, outcome);
    }
  }

  lemma SeenIgnoresOrder(a: seq<Report>, b: seq<Report>, outcome: string)
    requires multiset(a) == multiset(b) && Seen(a, outcome)
    ensures Seen(b, outcome)
  {
    var i :| 0 <= i < |a| && outcome in a[i].cursorOutcomes;
    assert a[i] in multiset(a);
    assert a[i] in multiset(b);
    var j :| 0 <= j < |b| && b[j] == a[i];
  }

  /** Every outcome any run had, and how often they had it together. */
  ghost predicate AddsUp(totals: map<string, nat>, runs: seq<Report>) {
    && (forall k :: k in totals <==> Seen(runs, k))
    && forall k :: k in totals ==> totals[k] == Total(runs, k)
  }

  /** `sums` is `totals` with these outcomes added, those still `left` aside. */
  ghost predicate Added(
    totals: map<string, nat>, outcomes: map<string, nat>, left: set<string>, sums: map<string, nat>)
  {
    forall k ::
      && (k in sums <==> k in totals || (k in outcomes && k !in left))
      && Count(sums, k) == Count(totals, k) + if k in left then 0 else Count(outcomes, k)
  }

  lemma AddOne(
    totals: map<string, nat>, outcomes: map<string, nat>, left: set<string>, sums: map<string, nat>, k: string)
    requires Added(totals, outcomes, left, sums) && k in left && k in outcomes
    ensures Added(totals, outcomes, left - {k}, sums[k := Count(sums, k) + outcomes[k]])
  {
  }

  /** Adds one run's outcomes to the totals, in whatever order the map gives them. */
  method AddOutcomes(totals: map<string, nat>, outcomes: map<string, nat>) returns (sums: map<string, nat>)
    ensures Added(totals, outcomes, {}, sums)
  {
    sums := totals;
    var left := outcomes.Keys;
    while left != {}
      invariant left <= outcomes.Keys && Added(totals, outcomes, left, sums)
      decreases |left|
    {
      var outcome :| outcome in left;
      AddOne(totals, outcomes, left, sums, outcome);
      sums := sums[outcome := Count(sums, outcome) + outcomes[outcome]];
      left := left - {outcome};
    }
  }

  lemma OneMoreRun(runs: seq<Report>, n: nat, totals: map<string, nat>, sums: map<string, nat>)
    requires n < |runs| && AddsUp(totals, runs[..n])
    requires Added(totals, runs[n].cursorOutcomes, {}, sums)
    ensures AddsUp(sums, runs[..n + 1])
  {
    var before, all := runs[..n], runs[..n + 1];
    assert all[..n] == before;
    forall k
      ensures k in sums <==> Seen(all, k)
      ensures Total(all, k) == Total(before, k) + Count(runs[n].cursorOutcomes, k)
    {
      if Seen(before, k) {
        var i :| 0 <= i < n && k in before[i].cursorOutcomes;
        assert k in all[i].cursorOutcomes;
      }
      if k in runs[n].cursorOutcomes {
        assert k in all[n].cursorOutcomes;
      }
      if Seen(all, k) && k !in runs[n].cursorOutcomes {
        var i :| 0 <= i < n + 1 && k in all[i].cursorOutcomes;
        assert k in before[i].cursorOutcomes;
      }
    }
    forall k | k in sums
      ensures sums[k] == Total(all, k)
    {
      if k !in totals {
        UnseenIsZero(before, k);
      }
    }
  }

  lemma {:induction false} UnseenIsZero(runs: seq<Report>, outcome: string)
    requires !Seen(runs, outcome)
    ensures Total(runs, outcome) == 0
  {
    if runs != [] {
      var fewer := runs[..|runs| - 1];
      forall i | 0 <= i < |fewer|
        ensures outcome !in fewer[i].cursorOutcomes
      {
        assert outcome !in runs[i].cursorOutcomes;
      }
      UnseenIsZero(fewer, outcome);
      assert outcome !in runs[|runs| - 1].cursorOutcomes;
    }
  }

  method CursorOutcomes(runs: seq<Report>) returns (totals: map<string, nat>)
    ensures AddsUp(totals, runs)
  {
    totals := map[];
    for i := 0 to |runs|
      invariant AddsUp(totals, runs[..i])
    {
      var sums := AddOutcomes(totals, runs[i].cursorOutcomes);
      OneMoreRun(runs, i, totals, sums);
      totals := sums;
    }
    assert runs[..|runs|] == runs;
  }

  /** Totals are settled by the runs, in any order. */
  lemma TotalsIgnoreOrder(a: seq<Report>, b: seq<Report>, t: map<string, nat>, u: map<string, nat>)
    requires multiset(a) == multiset(b) && AddsUp(t, a) && AddsUp(u, b)
    ensures t == u
  {
    forall k
      ensures k in t <==> k in u
      ensures k in t ==> t[k] == u[k]
    {
      TotalIgnoresOrder(a, b, k);
      if Seen(a, k) {
        SeenIgnoresOrder(a, b, k);
      }
      if Seen(b, k) {
        SeenIgnoresOrder(b, a, k);
      }
    }
    assert t.Keys == u.Keys;
  }

  // ---- The whole comparison ----

  /** What `compare` answers for two sets. */
  ghost predicate Answers(outcome: Outcome, baseline: seq<Report>, candidate: seq<Report>, noise: real)
    requires baseline != [] && candidate != []
  {
    var differences := Differences(CompatibilityOf(baseline[0]), CompatibilityOf(candidate[0]));
    match outcome
    case BadNoise => noise < 0.0
    case NotComparable(named) => 0.0 <= noise && named == differences && named != []
    case Compared(c) =>
      && 0.0 <= noise && differences == []
      && c.compatibility == CompatibilityOf(baseline[0])
      && c.stages == Together(StageLines(baseline, candidate, noise), |STAGES|)
      && AddsUp(c.baselineCursor, baseline) && AddsUp(c.candidateCursor, candidate)
  }

  method Compare(baseline: seq<Report>, candidate: seq<Report>, noise: real) returns (outcome: Outcome)
    requires baseline != [] && candidate != []
    ensures Answers(outcome, baseline, candidate, noise)
  {
    if noise < 0.0 {
      return BadNoise;
    }
    var differences := Differences(CompatibilityOf(baseline[0]), CompatibilityOf(candidate[0]));
    if differences != [] {
      return NotComparable(differences);
    }
    var stages: seq<StageComparison> := [];
    for stage := 0 to |STAGES|
      invariant stages == Together(StageLines(baseline, candidate, noise), stage)
    {
      stages := stages + StageLine(baseline, candidate, stage, noise);
    }
    var baselineCursor := CursorOutcomes(baseline);
    var candidateCursor := CursorOutcomes(candidate);
    outcome := Compared(Comparison(CompatibilityOf(baseline[0]), stages, baselineCursor, candidateCursor));
  }

  /** Reordering the runs of two loaded sets changes no figure, no verdict, no total and no refusal;
      only the record of what was asked may be another run's, printed alike. */
  lemma ComparisonIgnoresOrder(
    a: seq<Report>, b: seq<Report>, c: seq<Report>, d: seq<Report>, noise: real, x: Outcome, y: Outcome)
    requires a != [] && c != [] && b != [] && d != []
    requires multiset(a) == multiset(b) && multiset(c) == multiset(d) && Uniform(a) && Uniform(c)
    requires Answers(x, a, c, noise) && Answers(y, b, d, noise)
    ensures x.Compared? <==> y.Compared?
    ensures x.Compared? ==> Printed(x.comparison.compatibility) == Printed(y.comparison.compatibility)
    ensures x.Compared? ==> x.comparison == y.comparison.(compatibility := x.comparison.compatibility)
    ensures x.BadNoise? <==> y.BadNoise?
    ensures x.NotComparable? ==> x == y
  {
    PrintedAlikeInOrder(a, b);
    PrintedAlikeInOrder(c, d);
    ComparableMeansPrintedAlike(CompatibilityOf(a[0]), CompatibilityOf(c[0]));
    ComparableMeansPrintedAlike(CompatibilityOf(b[0]), CompatibilityOf(d[0]));
    if x.Compared? {
      LinesIgnoreOrder(a, b, c, d, noise);
      TotalsIgnoreOrder(a, b, x.comparison.baselineCursor, y.comparison.baselineCursor);
      TotalsIgnoreOrder(c, d, x.comparison.candidateCursor, y.comparison.candidateCursor);
    }
  }

  lemma PrintedAlikeInOrder(a: seq<Report>, b: seq<Report>)
    requires a != [] && b != [] && multiset(a) == multiset(b) && Uniform(a)
    ensures Printed(CompatibilityOf(a[0])) == Printed(CompatibilityOf(b[0]))
  {
    assert b[0] in multiset(b);
    assert b[0] in multiset(a);
    var i :| 0 <= i < |a| && a[i] == b[0];
  }

  lemma {:induction false} TogetherHasOnly<T>(parts: seq<seq<T>>, n: nat, part: T) returns (i: nat)
    requires n <= |parts| && part in Together(parts, n)
    ensures i < n && part in parts[i]
  {
    if part in parts[n - 1] {
      i := n - 1;
    } else {
      i := TogetherHasOnly(parts, n - 1, part);
    }
  }

  lemma LineAgainstItself(a: seq<Report>, b: seq<Report>, stage: nat, noise: real)
    requires multiset(a) == multiset(b) && stage < |STAGES| && 0.0 <= noise
    ensures forall line :: line in StageLine(a, b, stage, noise) ==> line.verdict in {WithinNoise, Unmeasurable}
  {
    FiguresOfReordered(a, b, stage, P50);
    var v := Values(a, stage, P50);
    if v != [] {
      NoChangeAgainstItself(FiguresOf(v), noise);
    }
  }

  /** A set compared with its own runs, in any order, is comparable and shows no stage as slower or
      faster. */
  lemma SetAgainstItself(a: seq<Report>, b: seq<Report>, noise: real, x: Outcome)
    requires a != [] && b != [] && multiset(a) == multiset(b) && Uniform(a) && Answers(x, a, b, noise)
    ensures x.Compared? <==> 0.0 <= noise
    ensures x.Compared? ==> forall line :: line in x.comparison.stages ==> line.verdict in {WithinNoise, Unmeasurable}
  {
    PrintedAlikeInOrder(a, b);
    ComparableMeansPrintedAlike(CompatibilityOf(a[0]), CompatibilityOf(b[0]));
    if x.Compared? {
      var parts := StageLines(a, b, noise);
      forall line | line in x.comparison.stages
        ensures line.verdict in {WithinNoise, Unmeasurable}
      {
        var i := TogetherHasOnly(parts, |STAGES|, line);
        LineAgainstItself(a, b, i, noise);
      }
    }
  }
}
