/** Where a named capture lands: `resolve` and `is_inside` of filename_template.rs, and the writes
    of file_output.rs and recording.rs that never replace a file they did not create. */
module OutputPath {
  import opened Wrappers
  import opened Text
  import FilenameTemplate
  import TemplateRules

  // ---- Paths as components, the way the standard library takes them apart ----

  datatype Component = Prefix(drive: char) | Root | ParentDir | Normal(name: string)

  type Path = seq<Component>

  predicate IsSeparator(c: char) {
    c == '/' || c == '\\'
  }

  /** One stretch between separators: empty stretches and `.` say nothing. */
  function Part(text: string): Path {
    if text == "" || text == "." then []
    else if text == ".." then [ParentDir]
    else [Normal(text)]
  }

  function Parts(text: string, start: nat, i: nat): Path
    requires start <= i <= |text|
    decreases |text| - i
  {
    if i == |text| then Part(text[start..])
    else if IsSeparator(text[i]) then Part(text[start..i]) + Parts(text, i + 1, i + 1)
    else Parts(text, start, i + 1)
  }

  predicate HasDrive(text: string) {
    |text| >= 2 && text[1] == ':' && ('a' <= text[0] <= 'z' || 'A' <= text[0] <= 'Z')
  }

  /** Joining text that names a place of its own leaves the directory behind. */
  function Join(directory: Path, text: string): Path {
    if text != "" && IsSeparator(text[0]) then
      (if directory != [] && directory[0].Prefix? then [directory[0]] else []) + [Root] + Parts(text, 1, 1)
    else if HasDrive(text) then
      [Prefix(text[0])] + (if |text| > 2 && IsSeparator(text[2]) then [Root] else []) + Parts(text, 2, 2)
    else directory + Parts(text, 0, 0)
  }

  function Parent(path: Path): Option<Path> {
    if path == [] || path[|path| - 1].Root? || path[|path| - 1].Prefix? then None
    else Some(path[..|path| - 1])
  }

  predicate HasParentHop(path: Path) {
    exists i :: 0 <= i < |path| && path[i] == ParentDir
  }

  predicate IsInside(directory: Path, path: Path) {
    !HasParentHop(path) && Parent(path) == Some(directory)
  }

  /** Whatever the stem, a path that is handed back is a named child of the directory. */
  function Resolve(directory: Path, stem: string, extension: string): (r: Option<Path>)
    ensures r.Some? ==> exists name :: r.value == directory + [Normal(name)] && !HasParentHop(directory)
  {
    var candidate := Join(directory, stem + "." + extension);
    if IsInside(directory, candidate) then
      InsideIsNamedChild(directory, candidate);
      Some(candidate)
    else None
  }

  lemma InsideIsNamedChild(directory: Path, path: Path)
    requires IsInside(directory, path)
    ensures exists name :: path == directory + [Normal(name)] && !HasParentHop(directory)
  {
    var last := path[|path| - 1];
    assert path == directory + [last];
    assert last.Normal?;
    assert path == directory + [Normal(last.name)];
    assert forall i :: 0 <= i < |directory| ==> directory[i] == path[i];
  }

  lemma {:induction false} PartsWithoutSeparator(text: string, i: nat)
    requires i <= |text| && Lacks(text, '/') && Lacks(text, '\\')
    ensures Parts(text, 0, i) == Part(text)
    decreases |text| - i
  {
    if i < |text| {
      PartsWithoutSeparator(text, i + 1);
    } else {
      assert text[0..] == text;
    }
  }

  /** What the naming rules leave: nothing that separates, nothing that names a drive, no dot last. */
  ghost predicate PlainStem(stem: string) {
    stem != "" && Lacks(stem, '/') && Lacks(stem, '\\') && Lacks(stem, ':') && stem[|stem| - 1] != '.'
  }

  ghost predicate PlainExtension(extension: string) {
    extension != "" && Lacks(extension, '/') && Lacks(extension, '\\')
  }

  /** A plain stem resolves exactly when the directory has no parent hop of its own. */
  lemma PlainStemResolves(directory: Path, stem: string, extension: string)
    requires PlainStem(stem) && PlainExtension(extension)
    ensures Resolve(directory, stem, extension) ==
      if HasParentHop(directory) then None else Some(directory + [Normal(stem + "." + extension)])
  {
    var text := stem + "." + extension;
    assert !HasDrive(text) && !IsSeparator(text[0]);
    assert Lacks(text, '/') && Lacks(text, '\\');
    PartsWithoutSeparator(text, 0);
    assert text != ".." by {
      assert text[|stem| - 1] == stem[|stem| - 1];
    }
    assert Part(text) == [Normal(text)];
    var path := directory + [Normal(text)];
    assert Join(directory, text) == path;
    assert path[..|path| - 1] == directory;
    assert HasParentHop(path) <==> HasParentHop(directory) by {
      if HasParentHop(directory) {
        var i :| 0 <= i < |directory| && directory[i] == ParentDir;
        assert path[i] == ParentDir;
      }
    }
  }

  // ---- Stems that would land elsewhere ----

  /** A name of one part that is not `.` or `..`. */
  ghost predicate PlainName(name: string) {
    name != "" && Lacks(name, '/') && Lacks(name, '\\') && name != "." && name != ".."
  }

  lemma PartOfPlainName(name: string)
    requires PlainName(name)
    ensures Parts(name, 0, 0) == [Normal(name)]
  {
    PartsWithoutSeparator(name, 0);
  }

  /** The parts of `head`, a separator and `tail`. */
  lemma {:induction false} PartsOfTwo(text: string, start: nat, i: nat, at: nat)
    requires start <= i <= at < |text| && IsSeparator(text[at])
    requires forall k :: i <= k < at ==> !IsSeparator(text[k])
    ensures Parts(text, start, i) == Part(text[start..at]) + Parts(text, at + 1, at + 1)
    decreases at - i
  {
    if i < at {
      PartsOfTwo(text, start, i + 1, at);
    }
  }

  lemma {:induction false} PartsOfLast(text: string, start: nat, i: nat)
    requires start <= i <= |text| && forall k :: i <= k < |text| ==> !IsSeparator(text[k])
    ensures Parts(text, start, i) == Part(text[start..])
    decreases |text| - i
  {
    if i < |text| {
      PartsOfLast(text, start, i + 1);
    }
  }

  /** Text with a separator of either kind in it has the parts before and after that. */
  lemma PartsAround(head: string, separator: char, tail: string)
    requires Lacks(head, '/') && Lacks(head, '\\') && Lacks(tail, '/') && Lacks(tail, '\\')
    requires separator == '/' || separator == '\\'
    ensures Parts(head + [separator] + tail, 0, 0) == Part(head) + Part(tail)
  {
    var text := head + [separator] + tail;
    assert text[|head|] == separator && text[..|head|] == head && text[|head| + 1..] == tail;
    PartsOfTwo(text, 0, 0, |head|);
    PartsOfLast(text, |head| + 1, |head| + 1);
  }

  /** A stem that names a directory, its parent, or anything in them, is refused whatever the separator. */
  lemma SubdirectoryIsRefused(directory: Path, head: string, separator: char, tail: string, extension: string)
    requires PlainName(head) || head == ".."
    requires separator == '/' || separator == '\\'
    requires PlainName(tail + "." + extension) && !HasDrive(head + [separator] + tail + "." + extension)
    ensures Resolve(directory, head + [separator] + tail, extension) == None
  {
    var last := tail + "." + extension;
    var text := head + [separator] + tail + "." + extension;
    assert text == head + [separator] + last && text[0] == head[0];
    PartsAround(head, separator, last);
    var path := directory + (Part(head) + [Normal(last)]);
    assert Join(directory, text) == path;
    assert path[|path| - 2] == Part(head)[0] && path[..|path| - 1] != directory;
  }

  /** One that leads into the directory itself names a child of it. */
  lemma DotStemResolves(directory: Path, separator: char, tail: string, extension: string)
    requires separator == '/' || separator == '\\'
    requires PlainName(tail + "." + extension) && !HasParentHop(directory)
    ensures Resolve(directory, "." + [separator] + tail, extension) == Some(directory + [Normal(tail + "." + extension)])
  {
    var last := tail + "." + extension;
    var text := "." + [separator] + tail + "." + extension;
    assert text == "." + [separator] + last && text[0] == '.' && text[1] == separator;
    PartsAround(".", separator, last);
    var path := directory + [Normal(last)];
    assert Join(directory, text) == path;
    assert path[..|path| - 1] == directory;
    assert forall i :: 0 <= i < |directory| ==> directory[i] != ParentDir;
    assert forall i :: 0 <= i < |path| ==> path[i] != ParentDir;
  }

  /** A stem with a root of its own is refused but where the directory is that root. */
  lemma RootedStemResolves(directory: Path, separator: char, tail: string, extension: string)
    requires separator == '/' || separator == '\\'
    requires PlainName(tail + "." + extension)
    ensures Resolve(directory, [separator] + tail, extension).Some? <==>
      directory == [Root] || (|directory| == 2 && directory[0].Prefix? && directory[1] == Root)
  {
    var last := tail + "." + extension;
    var text := [separator] + tail + "." + extension;
    assert text == [separator] + last && text[1..] == last;
    assert forall k :: 1 <= k < |text| ==> text[k] == last[k - 1];
    PartsOfLast(text, 1, 1);
    var root := (if directory != [] && directory[0].Prefix? then [directory[0]] else []) + [Root];
    var path := root + [Normal(last)];
    assert Join(directory, text) == path;
    assert Parent(path) == Some(root) && forall i :: 0 <= i < |path| ==> path[i] != ParentDir;
    assert root == directory <==> directory == [Root] || (|directory| == 2 && directory[0].Prefix? && directory[1] == Root);
  }

  /** A stem that names a drive, in letters of either case, is refused but where the directory is that
      drive's own. */
  lemma DriveStemResolves(directory: Path, drive: char, tail: string, extension: string)
    requires 'a' <= drive <= 'z' || 'A' <= drive <= 'Z'
    requires PlainName(tail + "." + extension)
    ensures Resolve(directory, [drive, ':'] + tail, extension).Some? <==> directory == [Prefix(drive)]
  {
    var last := tail + "." + extension;
    var text := [drive, ':'] + tail + "." + extension;
    assert text == [drive, ':'] + last && text[2..] == last && text[2] == last[0];
    assert forall k :: 2 <= k < |text| ==> text[k] == last[k - 2];
    PartsOfLast(text, 2, 2);
    assert Join(directory, text) == [Prefix(drive)] + [Normal(last)];
    var path := [Prefix(drive), Normal(last)];
    assert path[..1] == [Prefix(drive)] && !HasParentHop(path);
  }

  // ---- Names tried in turn ----

  const MAX_ATTEMPTS: nat := 100

  function Candidate(stem: string, attempt: nat): string {
    if attempt == 0 then stem else stem + "-" + Decimal(attempt + 1)
  }

  function FileName(stem: string, attempt: nat, extension: string): string {
    Candidate(stem, attempt) + "." + extension
  }

  /** The first name tried is the plain one, the second ends in 2, and so on. */
  lemma NamesAreNumbered(stem: string, attempt: nat)
    ensures Candidate(stem, 0) == stem
    ensures 0 < attempt ==> var name := Candidate(stem, attempt);
      && |stem| + 1 < |name| && name[..|stem|] == stem && name[|stem|] == '-'
      && (forall k :: |stem| < k < |name| ==> IsDigit(name[k]))
      && NumberOf(name[|stem| + 1..]) == attempt + 1
  {
    if 0 < attempt {
      var name, digits := Candidate(stem, attempt), Decimal(attempt + 1);
      PaddedReadsBack(attempt + 1, 1);
      assert name[|stem| + 1..] == digits;
      assert forall k :: |stem| < k < |name| ==> name[k] == digits[k - |stem| - 1];
    }
  }

  /** No name is tried twice. */
  lemma FileNamesDiffer(stem: string, i: nat, j: nat, extension: string)
    requires i != j
    ensures FileName(stem, i, extension) != FileName(stem, j, extension)
  {
    if FileName(stem, i, extension) == FileName(stem, j, extension) {
      var a, b := Candidate(stem, i), Candidate(stem, j);
      assert a == FileName(stem, i, extension)[..|FileName(stem, i, extension)| - |extension| - 1];
      assert b == FileName(stem, j, extension)[..|FileName(stem, j, extension)| - |extension| - 1];
      assert i > 0 ==> Decimal(i + 1) == a[|stem| + 1..];
      assert j > 0 ==> Decimal(j + 1) == b[|stem| + 1..];
      if i > 0 && j > 0 {
        DecimalIsInjective(i + 1, j + 1, 1);
      }
    }
  }

  lemma CandidateIsPlain(stem: string, attempt: nat)
    requires PlainStem(stem)
    ensures PlainStem(Candidate(stem, attempt))
  {
    if attempt > 0 {
      var digits := Decimal(attempt + 1);
      assert forall k :: 0 <= k < |digits| ==> digits[k] in digits;
      var c := Candidate(stem, attempt);
      assert c == stem + "-" + digits;
      assert IsDigit(c[|c| - 1]);
    }
  }

  // ---- A directory others write into as well ----

  type Bytes = seq<bv8>

  datatype Created = Done | AlreadyExists | Failed

  datatype Outcome = Written(name: string, collisions: nat) | Refused | Broken | Exhausted

  /** The files of one directory, by name. */
  class OutputDirectory {
    const path: Path
    var files: map<string, Bytes>
    /** How many creations and writes failed for another reason than a file that was there. */
    ghost var failures: nat

    constructor (path: Path, files: map<string, Bytes>)
      ensures this.path == path && this.files == files
    {
      this.path := path;
      this.files := files;
      failures := 0;
    }

    /** Other programs create files of their own at any time. */
    method OthersCreate() returns (ghost added: set<string>)
      modifies this`files
      ensures Keeps(old(files), files)
      ensures files.Keys == old(files).Keys + added && added !! old(files).Keys
    {
      var more: map<string, Bytes> := *;
      added := more.Keys - files.Keys;
      files := more + files;
    }

    /** Creates a file only where there is none; the refusal is the existence check. */
    method CreateNew(name: string, contents: Bytes) returns (r: Created)
      modifies this
      ensures r == AlreadyExists <==> name in old(files)
      ensures r == Done ==> files == old(files)[name := contents]
      ensures r != Done ==> files == old(files)
      ensures failures == old(failures) + if r == Failed then 1 else 0
    {
      if name in files {
        return AlreadyExists;
      }
      if * {
        failures := failures + 1;
        return Failed;
      }
      files := files[name := contents];
      return Done;
    }

    /** Writes into a file that is there, which may fail. */
    method Fill(name: string, contents: Bytes) returns (ok: bool)
      requires name in files
      modifies this
      ensures files.Keys == old(files).Keys && (ok ==> files[name] == contents)
      ensures forall other :: other in files && other != name ==> files[other] == old(files)[other]
      ensures failures == old(failures) + if ok then 0 else 1
    {
      var written: Bytes := *;
      ok := *;
      if !ok {
        failures := failures + 1;
      }
      files := files[name := if ok then contents else written];
    }

    /** One attempt at a name, others having created what they like first. */
    method TryName(name: string, contents: Bytes) returns (r: Created, ghost seen: set<string>)
      modifies this
      ensures Keeps(old(files), files) && old(files).Keys <= seen
      ensures files.Keys == seen + if r == Done then {name} else {}
      ensures r == AlreadyExists <==> name in seen
      ensures r == Done ==> files[name] == contents
      ensures failures == old(failures) + if r == Failed then 1 else 0
    {
      ghost var _ := OthersCreate();
      seen := files.Keys;
      r := CreateNew(name, contents);
    }

    /** Before the attempt of this number: the names before it were taken when they were tried. */
    ghost predicate Searching(
      first: map<string, Bytes>, tries: seq<set<string>>, foreign: set<string>, attempt: nat, stem: string,
      extension: string)
      reads this`files
    {
      && Keeps(first, files) && files.Keys == first.Keys + foreign && foreign !! first.Keys
      && |tries| == attempt && Taken(tries, first.Keys, first.Keys + foreign)
      && Collided(tries, attempt, stem, extension)
    }

    /** One name tried: on to the next, or an outcome. */
    method TryAttempt(
      stem: string, extension: string, attempt: nat, contents: Bytes, ghost first: map<string, Bytes>,
      ghost before: seq<set<string>>, ghost foreign': set<string>)
      returns (r: Option<Outcome>, ghost tries: seq<set<string>>, ghost foreign: set<string>)
      requires attempt < MAX_ATTEMPTS && Searching(first, before, foreign', attempt, stem, extension)
      modifies this
      ensures Keeps(first, files) && foreign !! first.Keys && Taken(tries, first.Keys, first.Keys + foreign)
      ensures r == None ==> Searching(first, tries, foreign, attempt + 1, stem, extension)
      ensures r.Some? ==>
        && files.Keys == first.Keys + foreign + (if r.value.Written? then {r.value.name} else {})
        && Tells(r.value, tries, path, stem, extension) && !r.value.Exhausted?
        && (r.value.Written? ==> r.value.name !in first.Keys + foreign && files[r.value.name] == contents)
      ensures failures == old(failures) + if r == Some(Broken) then 1 else 0
    {
      var candidate := Candidate(stem, attempt);
      tries, foreign := before, foreign';
      if Resolve(path, candidate, extension) == None {
        return Some(Refused), tries, foreign;
      }
      ghost var seen;
      var created;
      created, seen := TryName(candidate + "." + extension, contents);
      OneMoreTaken(tries, first.Keys, first.Keys + foreign, seen);
      foreign := seen - first.Keys;
      tries := tries + [seen];
      assert first.Keys + foreign == seen;
      match created {
        case Done => r := Some(Written(candidate + "." + extension, attempt));
        case AlreadyExists => r := None;
        case Failed => r := Some(Broken);
      }
    }

    /** `write_without_clobbering`, and the loop of `reserve_path`. `tries[k]` holds the names that
        were taken when name `k` was tried. */
    method WriteWithoutClobbering(stem: string, extension: string, contents: Bytes)
      returns (r: Outcome, ghost tries: seq<set<string>>, ghost foreign: set<string>)
      modifies this
      ensures Keeps(old(files), files)
      ensures files.Keys == old(files).Keys + foreign + if r.Written? then {r.name} else {}
      ensures foreign !! old(files).Keys
      ensures Taken(tries, old(files).Keys, old(files).Keys + foreign)
      ensures Tells(r, tries, path, stem, extension)
      ensures failures == old(failures) + if r == Broken then 1 else 0
      ensures r.Written? ==> r.name !in old(files).Keys + foreign && files[r.name] == contents
    {
      tries, foreign := [], {};
      for attempt := 0 to MAX_ATTEMPTS
        invariant Searching(old(files), tries, foreign, attempt, stem, extension) && failures == old(failures)
      {
        var outcome;
        outcome, tries, foreign := TryAttempt(stem, extension, attempt, contents, old(files), tries, foreign);
        if outcome.Some? {
          return outcome.value, tries, foreign;
        }
      }
      return Exhausted, tries, foreign;
    }

    /** `write_new`: reserves a name, then fills it, and takes its own reservation back if that
        fails, so that nothing of this call's is left behind. */
    method WriteNew(stem: string, extension: string, contents: Bytes)
      returns (r: Outcome, ghost tries: seq<set<string>>, ghost foreign: set<string>)
      modifies this
      ensures Keeps(old(files), files)
      ensures files.Keys == old(files).Keys + foreign + if r.Written? then {r.name} else {}
      ensures foreign !! old(files).Keys
      ensures Taken(tries, old(files).Keys, old(files).Keys + foreign)
      ensures Tells(r, tries, path, stem, extension)
      ensures failures == old(failures) + if r == Broken then 1 else 0
      ensures r.Written? ==> r.name !in old(files).Keys + foreign && files[r.name] == contents
    {
      r, tries, foreign := WriteWithoutClobbering(stem, extension, []);
      if r.Written? {
        ghost var added := OthersCreate();
        foreign := foreign + added;
        var ok := Fill(r.name, contents);
        if !ok {
          files := files - {r.name};
          return Broken, tries, foreign;
        }
      }
    }
  }

  /** Sets of names that existed one after the other, from those there at first to those there at last. */
  ghost predicate Taken(tries: seq<set<string>>, first: set<string>, last: set<string>) {
    && (forall k :: 0 <= k < |tries| ==> first <= tries[k] <= last)
    && forall j, k :: 0 <= j < k < |tries| ==> tries[j] <= tries[k]
  }

  lemma OneMoreTaken(tries: seq<set<string>>, first: set<string>, last: set<string>, seen: set<string>)
    requires Taken(tries, first, last) && first <= last <= seen
    ensures Taken(tries + [seen], first, seen)
  {
  }

  /** Each of the first `n` names was taken when it was tried. */
  ghost predicate Collided(tries: seq<set<string>>, n: nat, stem: string, extension: string) {
    n <= |tries| && forall j :: 0 <= j < n ==> FileName(stem, j, extension) in tries[j]
  }

  /** What each outcome says of the names tried. */
  ghost predicate Tells(r: Outcome, tries: seq<set<string>>, path: Path, stem: string, extension: string) {
    match r
    case Written(name, k) =>
      && k + 1 == |tries| <= MAX_ATTEMPTS && Collided(tries, k, stem, extension)
      && name == FileName(stem, k, extension) && name !in tries[k]
      && Resolve(path, Candidate(stem, k), extension).Some?
    case Refused =>
      && |tries| < MAX_ATTEMPTS && Collided(tries, |tries|, stem, extension)
      && Resolve(path, Candidate(stem, |tries|), extension) == None
    case Broken =>
      && 0 < |tries| <= MAX_ATTEMPTS && Collided(tries, |tries| - 1, stem, extension)
      && FileName(stem, |tries| - 1, extension) !in tries[|tries| - 1]
    case Exhausted => |tries| == MAX_ATTEMPTS && Collided(tries, MAX_ATTEMPTS, stem, extension)
  }

  /** So exhaustion is reported only of a directory where all the names ended up taken. */
  lemma ExhaustionMeansAllTaken(
    tries: seq<set<string>>, first: set<string>, last: set<string>, path: Path, stem: string, extension: string)
    requires Taken(tries, first, last) && Tells(Exhausted, tries, path, stem, extension)
    ensures forall k :: 0 <= k < MAX_ATTEMPTS ==> FileName(stem, k, extension) in last
    ensures |last| >= MAX_ATTEMPTS
  {
    ManyNames(stem, extension, MAX_ATTEMPTS, last);
  }

  lemma {:induction false} ManyNames(stem: string, extension: string, n: nat, names: set<string>)
    requires forall k :: 0 <= k < n ==> FileName(stem, k, extension) in names
    ensures |names| >= n
    decreases n
  {
    if n > 0 {
      var last := FileName(stem, n - 1, extension);
      forall k | 0 <= k < n - 1
        ensures FileName(stem, k, extension) in names - {last}
      {
        FileNamesDiffer(stem, k, n - 1, extension);
      }
      ManyNames(stem, extension, n - 1, names - {last});
    }
  }

  /** Every file that was there is there with its contents. */
  ghost predicate Keeps(before: map<string, Bytes>, after: map<string, Bytes>) {
    forall name :: name in before ==> name in after && after[name] == before[name]
  }

  /** A plain stem in a plain directory is never refused, whichever name it comes down to. */
  lemma PlainStemIsNeverRefused(directory: Path, stem: string, attempt: nat, extension: string)
    requires PlainStem(stem) && PlainExtension(extension) && !HasParentHop(directory)
    ensures Resolve(directory, Candidate(stem, attempt), extension)
      == Some(directory + [Normal(FileName(stem, attempt, extension))])
  {
    CandidateIsPlain(stem, attempt);
    PlainStemResolves(directory, Candidate(stem, attempt), extension);
  }

  /** From a template to a file: a template free of separators and drive letters, whatever its
      fields hold, names a direct child of the output directory under every attempt. */
  lemma ExpandedNameStaysInside(
    template: string, value: string -> string, reserved: seq<string>, directory: Path, attempt: nat, extension: string)
    requires !TemplateRules.HasSeparator(template) && Lacks(template, ':')
    requires PlainExtension(extension) && !HasParentHop(directory)
    ensures var stem := FilenameTemplate.FinalStem(FilenameTemplate.Expansion(template, value), reserved);
      Resolve(directory, Candidate(stem, attempt), extension)
        == Some(directory + [Normal(FileName(stem, attempt, extension))])
  {
    var raw := FilenameTemplate.Expansion(template, value);
    FilenameTemplate.ExpandedStemIsSafe(template, value, reserved);
    FilenameTemplate.ExpansionLacks(template, value, ':');
    FilenameTemplate.FinalStemIsSafe(raw, reserved);
    PlainStemIsNeverRefused(directory, FilenameTemplate.FinalStem(raw, reserved), attempt, extension);
  }
}
