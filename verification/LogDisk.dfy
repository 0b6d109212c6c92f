/** A directory of rotated logs: which file each name has, name 0 being the active log and name `i`
    its archive `i`, and what each file holds. A file outlives its name while someone holds it. */
module LogDisk {
  import opened Wrappers

  /** A line's bytes, without the newline that ends it. */
  type Line = seq<bv8>
  type File = nat
  type Names = seq<Option<File>>
  type Contents = seq<seq<Line>>

  function Size(lines: seq<Line>): nat {
    if lines == [] then 0 else Size(lines[..|lines| - 1]) + |lines[|lines| - 1]| + 1
  }

  lemma SizeOfOneMore(lines: seq<Line>, line: Line)
    ensures Size(lines + [line]) == Size(lines) + |line| + 1
  {
    assert (lines + [line])[..|lines|] == lines;
  }

  lemma {:induction false} SizeOfAPrefix(a: seq<Line>, b: seq<Line>)
    requires a <= b
    ensures Size(a) <= Size(b)
    decreases |b|
  {
    if |a| < |b| {
      SizeOfAPrefix(a, b[..|b| - 1]);
    } else {
      assert a == b;
    }
  }

  /** Each name has a file of its own, or none. */
  predicate WellFormed(names: Names, contents: Contents) {
    && (forall i :: 0 <= i < |names| && names[i].Some? ==> names[i].value < |contents|)
    && forall i, j :: 0 <= i < j < |names| && names[i].Some? && names[j].Some? ==> names[i] != names[j]
  }

  /** No file loses a line. */
  predicate Grows(before: Contents, after: Contents) {
    |before| <= |after| && forall f :: 0 <= f < |before| ==> before[f] <= after[f]
  }

  // ---- The log as someone reads it ----

  function Slot(names: Names, contents: Contents, i: nat): seq<Line>
    requires WellFormed(names, contents) && i < |names|
  {
    if names[i].Some? then contents[names[i].value] else []
  }

  /** The archives from `k` down and then the active log, missing ones skipped. */
  function Chain(names: Names, contents: Contents, k: nat): seq<Line>
    requires WellFormed(names, contents) && k < |names|
  {
    if k == 0 then Slot(names, contents, 0) else Slot(names, contents, k) + Chain(names, contents, k - 1)
  }

  lemma {:induction false} SameChain(n: Names, c: Contents, m: Names, d: Contents, k: nat)
    requires WellFormed(n, c) && WellFormed(m, d) && k < |n| && k < |m|
    requires forall i :: 0 <= i <= k ==> Slot(n, c, i) == Slot(m, d, i)
    ensures Chain(n, c, k) == Chain(m, d, k)
  {
    if k > 0 {
      SameChain(n, c, m, d, k - 1);
    }
  }

  function Moved(names: Names, i: nat): Names
    requires i + 1 < |names|
  {
    names[i := None][i + 1 := names[i]]
  }

  /** Moving a file up into an empty slot changes nothing for the reader. */
  lemma {:induction false} MoveKeepsChain(names: Names, contents: Contents, i: nat, k: nat)
    requires WellFormed(names, contents) && i + 1 <= k < |names| && names[i + 1] == None
    ensures WellFormed(Moved(names, i), contents)
    ensures Chain(Moved(names, i), contents, k) == Chain(names, contents, k)
  {
    var m := Moved(names, i);
    if i + 1 < k {
      MoveKeepsChain(names, contents, i, k - 1);
    } else if i > 0 {
      SameChain(m, contents, names, contents, i - 1);
      var rest := Chain(names, contents, i - 1);
      assert [] + rest == rest;
      assert Chain(m, contents, i) == rest;
      assert Chain(names, contents, i) == Slot(names, contents, i) + rest;
    }
  }

  /** Deleting the oldest archive takes the chain's beginning and nothing else. */
  lemma RemoveOldest(names: Names, contents: Contents, k: nat)
    requires WellFormed(names, contents) && 0 < k < |names| && names[k].Some?
    ensures WellFormed(names[k := None], contents)
    ensures Chain(names, contents, k) == contents[names[k].value] + Chain(names[k := None], contents, k)
  {
    var m := names[k := None];
    SameChain(names, contents, m, contents, k - 1);
    var rest := Chain(m, contents, k - 1);
    assert Slot(m, contents, k) == [];
    assert [] + rest == rest;
    assert Chain(m, contents, k) == rest;
  }

  function WithLine(contents: Contents, f: File, line: Line): Contents
    requires f < |contents|
  {
    contents[f := contents[f] + [line]]
  }

  /** A line added to the active log is the chain's last. */
  lemma {:induction false} AppendExtendsChain(names: Names, contents: Contents, line: Line, k: nat)
    requires WellFormed(names, contents) && k < |names| && names[0].Some?
    ensures WellFormed(names, WithLine(contents, names[0].value, line))
    ensures Chain(names, WithLine(contents, names[0].value, line), k) == Chain(names, contents, k) + [line]
  {
    if k > 0 {
      AppendExtendsChain(names, contents, line, k - 1);
      var s, rest := Slot(names, contents, k), Chain(names, contents, k - 1);
      assert Slot(names, WithLine(contents, names[0].value, line), k) == s;
      assert s + (rest + [line]) == (s + rest) + [line];
    }
  }

  /** A new, empty active log adds nothing. */
  lemma CreateKeepsChain(names: Names, contents: Contents, k: nat)
    requires WellFormed(names, contents) && k < |names| && names[0] == None
    ensures var m, d := names[0 := Some(|contents|)], contents + [[]];
      WellFormed(m, d) && Chain(m, d, k) == Chain(names, contents, k)
  {
    SameChain(names[0 := Some(|contents|)], contents + [[]], names, contents, k);
  }
}
