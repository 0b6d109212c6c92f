/** The log writer of logging.rs: appends lines, rotates at a size, and notices when another process
    has rotated the file away under it. */
module RotatingLog {
  import opened Wrappers
  import opened LogDisk

  const STALENESS_CHECK_LINES := 256

  datatype Look = Length(n: nat) | NotFound | Unreadable

  /** A look at the log's path: the file that had the name then, its size then, and the answer. */
  datatype Seen = Seen(file: Option<File>, size: nat, answer: Look)

  /** What was done to the directory by way of this handle on it: the indices deleted, the looks at the
      log's path, and the files opened there, `None` for an attempt that failed. */
  datatype Log = Log(deleted: seq<nat>, looks: seq<Seen>, opens: seq<Option<File>>)

  /** Whether a look can have been taken between two states of the files, and answers truly. */
  ghost predicate Possible(seen: Seen, before: Contents, after: Contents) {
    && (seen.file.Some? ==>
      && seen.file.value < |after| && seen.size <= Size(after[seen.file.value])
      && (seen.file.value < |before| ==> Size(before[seen.file.value]) <= seen.size))
    && match seen.answer
       case Length(n) => seen.file.Some? && n == seen.size
       case NotFound => seen.file == None
       case Unreadable => true
  }

  /** A look that shows no file at the path, or one shorter than a writer's count. */
  predicate ShowsShortfall(seen: Seen, count: nat) {
    seen.answer.NotFound? || (seen.answer.Length? && seen.answer.n < count)
  }

  /** A shortfall is never seen of a file that held that count already. */
  lemma ShortfallIsOfAnotherFile(seen: Seen, before: Contents, after: Contents, count: nat, held: File)
    requires Possible(seen, before, after) && ShowsShortfall(seen, count)
    requires held < |before| && count <= Size(before[held])
    ensures seen.file != Some(held)
  {
  }

  /** The directory. When `shared`, others write, rotate and delete between any two operations; when
      `faulty`, operations may fail. */
  class Disk {
    const shared: bool
    const faulty: bool
    var names: Names
    var contents: Contents
    ghost var log: Log

    constructor (shared: bool, faulty: bool, names: Names, contents: Contents)
      requires WellFormed(names, contents)
      ensures Valid() && this.shared == shared && this.faulty == faulty
      ensures this.names == names && this.contents == contents && log == Log([], [], [])
    {
      this.shared, this.faulty, this.names, this.contents := shared, faulty, names, contents;
      log := Log([], [], []);
    }

    ghost predicate Valid()
      reads this
    {
      WellFormed(names, contents)
    }

    /** What others may do: anything but take lines from a file. */
    method Others()
      requires Valid()
      modifies this`names, this`contents
      ensures Valid() && |names| == |old(names)| && Grows(old(contents), contents)
      ensures !shared ==> names == old(names) && contents == old(contents)
    {
      var n: Names, c: Contents := *, *;
      if shared && WellFormed(n, c) && |n| == |names| && Grows(contents, c) {
        names, contents := n, c;
      }
    }

    method Fails() returns (fails: bool)
      ensures fails ==> faulty
    {
      fails := *;
      fails := fails && faulty;
    }

    method Metadata() returns (look: Look)
      requires Valid() && 0 < |names|
      modifies this
      ensures Valid() && |names| == |old(names)| && Grows(old(contents), contents)
      ensures !shared ==> names == old(names) && contents == old(contents)
      ensures log == old(log).(looks := old(log.looks) + [Seen(names[0], Size(Slot(names, contents, 0)), look)])
      ensures Possible(log.looks[|old(log.looks)|], old(contents), contents)
      ensures look.Length? ==> names[0].Some? && look.n == Size(contents[names[0].value])
      ensures look.NotFound? ==> names[0] == None
      ensures look.Unreadable? ==> faulty
    {
      Others();
      var fails := Fails();
      look := if fails then Unreadable else if names[0] == None then NotFound
              else Length(Size(contents[names[0].value]));
      log := log.(looks := log.looks + [Seen(names[0], Size(Slot(names, contents, 0)), look)]);
      if names[0].Some? && names[0].value < |old(contents)| {
        SizeOfAPrefix(old(contents)[names[0].value], contents[names[0].value]);
      }
    }

    method Exists(i: nat) returns (there: bool)
      requires Valid() && i < |names|
      modifies this`names, this`contents
      ensures Valid() && |names| == |old(names)| && Grows(old(contents), contents)
      ensures !shared ==> names == old(names) && contents == old(contents) && there == names[i].Some?
    {
      Others();
      there := names[i].Some?;
    }

    method Remove(i: nat) returns (ok: bool)
      requires Valid() && i < |names|
      modifies this
      ensures Valid() && |names| == |old(names)| && Grows(old(contents), contents)
      ensures !shared ==> contents == old(contents)
      ensures !shared ==> names == if ok then old(names)[i := None] else old(names)
      ensures log == if ok then old(log).(deleted := old(log.deleted) + [i]) else old(log)
      ensures !shared && !faulty && old(names)[i].Some? ==> ok
    {
      Others();
      ok := names[i].Some?;
      var fails := Fails();
      ok := ok && !fails;
      if ok {
        names := names[i := None];
        log := log.(deleted := log.deleted + [i]);
      }
    }

    method Rename(i: nat) returns (ok: bool)
      requires Valid() && i + 1 < |names|
      modifies this`names, this`contents
      ensures Valid() && |names| == |old(names)| && Grows(old(contents), contents)
      ensures !shared ==> contents == old(contents)
      ensures !shared ==> names == if ok then Moved(old(names), i) else old(names)
      ensures !shared && !faulty && old(names)[i].Some? ==> ok
    {
      Others();
      ok := names[i].Some?;
      var fails := Fails();
      ok := ok && !fails;
      if ok {
        names := Moved(names, i);
      }
    }

    /** Opens the active log, creating it where there is none, and takes its length. */
    method Open() returns (file: Option<(File, nat)>)
      requires Valid() && 0 < |names|
      modifies this
      ensures Valid() && |names| == |old(names)| && Grows(old(contents), contents)
      ensures log == old(log).(opens := old(log.opens) + [if file.Some? then Some(file.value.0) else None])
      ensures file.Some? ==> file.value.0 < |contents| && file.value.1 <= Size(contents[file.value.0])
      ensures !shared ==> if names == old(names) then contents == old(contents)
        else old(names)[0] == None && names == old(names)[0 := Some(|old(contents)|)] && contents == old(contents) + [[]]
      ensures !shared && file.Some? ==>
        names[0] == Some(file.value.0) && file.value.1 == Size(contents[file.value.0])
      ensures !shared && !faulty ==> file.Some?
    {
      Others();
      log := log.(opens := log.opens + [None]);
      var fails := Fails();
      if fails {
        return None;
      }
      if names[0] == None {
        names, contents := names[0 := Some(|contents|)], contents + [[]];
      }
      var f := names[0].value;
      Others();
      fails := Fails();
      if fails {
        return None;
      }
      file := Some((f, Size(contents[f])));
      log := log.(opens := old(log.opens) + [Some(f)]);
    }

    method Append(f: File, line: Line) returns (ok: bool)
      requires Valid() && f < |contents|
      modifies this`names, this`contents
      ensures Valid() && |names| == |old(names)| && Grows(old(contents), contents)
      ensures Size(contents[f]) >= Size(old(contents)[f]) + if ok then |line| + 1 else 0
      ensures ok ==> contents[f] != [] && contents[f][|contents[f]| - 1] == line
      ensures !shared ==> names == old(names)
      ensures !shared ==> contents == if ok then WithLine(old(contents), f, line) else old(contents)
      ensures !shared && !faulty ==> ok
    {
      Others();
      SizeOfAPrefix(old(contents)[f], contents[f]);
      var fails := Fails();
      if fails {
        return false;
      }
      SizeOfOneMore(contents[f], line);
      contents := WithLine(contents, f, line);
      return true;
    }
  }

  /** Within the limit, or one line that alone is over it. */
  predicate Fits(lines: seq<Line>, limit: nat) {
    Size(lines) <= limit || |lines| == 1
  }

  predicate AllFit(names: Names, contents: Contents, limit: nat)
    requires WellFormed(names, contents)
  {
    forall i :: 0 <= i < |names| && names[i].Some? ==> Fits(contents[names[i].value], limit)
  }

  predicate EndsWith(contents: Contents, file: Option<File>, line: Line) {
    && file.Some? && file.value < |contents| && contents[file.value] != []
    && contents[file.value][|contents[file.value]| - 1] == line
  }

  class RotatingWriter {
    const disk: Disk
    const maxFileBytes: nat
    const retained: nat
    var held: Option<File>
    var bytesWritten: nat
    var linesSinceCheck: nat
    var suppressedFailures: nat
    /** Every line in the log since the start, and those that deletion has taken. */
    ghost var written: seq<Line>
    ghost var gone: seq<Line>

    constructor (disk: Disk, maxFileBytes: nat, retained: nat)
      requires disk.Valid() && 0 < retained && |disk.names| == retained + 1
      requires !disk.shared && !disk.faulty ==> AllFit(disk.names, disk.contents, maxFileBytes)
      ensures this.disk == disk && this.maxFileBytes == maxFileBytes && this.retained == retained
      ensures Shape() && CountsFit() && KeepsHistory() && KeepsToLimit()
      ensures held == None && bytesWritten == linesSinceCheck == suppressedFailures == 0 && gone == []
    {
      this.disk, this.maxFileBytes, this.retained := disk, maxFileBytes, retained;
      held, bytesWritten, linesSinceCheck, suppressedFailures := None, 0, 0, 0;
      written, gone := Chain(disk.names, disk.contents, retained), [];
    }

    ghost predicate Shape()
      reads this, disk
    {
      disk.Valid() && 0 < retained && |disk.names| == retained + 1 && linesSinceCheck < STALENESS_CHECK_LINES
    }

    /** A writer holds the file it opened last, and never counts more than that has. */
    ghost predicate CountsFit()
      requires Shape()
      reads this, disk
    {
      held.Some? ==>
        && held.value < |disk.contents| && bytesWritten <= Size(disk.contents[held.value])
        && disk.log.opens != [] && held == disk.log.opens[|disk.log.opens| - 1]
        && (!disk.shared ==> held == disk.names[0] && bytesWritten == Size(disk.contents[held.value]))
    }

    /** What is read back is the end of what was written. */
    ghost predicate KeepsHistory()
      requires Shape()
      reads this, disk
    {
      !disk.shared ==> written == gone + Chain(disk.names, disk.contents, retained)
    }

    /** Of a lone writer's directory nothing was deleted, or the oldest archive was and nothing else, and
        that is what has gone from the log. */
    twostate predicate LosesAtMostTheOldest()
      requires old(Shape())
      reads this, disk
    {
      !disk.shared ==>
        if disk.log.deleted == old(disk.log.deleted) then gone == old(gone)
        else
          && disk.log.deleted == old(disk.log.deleted) + [retained]
          && gone == old(gone) + old(Slot(disk.names, disk.contents, retained))
    }

    /** Without failures every file keeps to the limit. */
    ghost predicate KeepsToLimit()
      requires Shape()
      reads this, disk
    {
      !disk.shared && !disk.faulty ==> AllFit(disk.names, disk.contents, maxFileBytes)
    }

    ghost predicate Valid()
      reads this, disk
    {
      && Shape() && CountsFit() && KeepsHistory() && KeepsToLimit()
      && (!disk.shared && !disk.faulty ==> held.Some? && suppressedFailures == 0)
    }

    /** Makes room at `index`. Only the oldest archive can still be there. */
    method Vacate(index: nat) returns (ok: bool)
      requires Shape() && held == None && KeepsHistory() && KeepsToLimit() && 0 < index <= retained
      requires !disk.shared && index < retained ==> disk.names[index] == None
      modifies disk, this`gone
      ensures Shape() && KeepsHistory() && KeepsToLimit() && LosesAtMostTheOldest()
      ensures Grows(old(disk.contents), disk.contents)
      ensures disk.log == old(disk.log) || disk.log == old(disk.log.(deleted := disk.log.deleted + [index]))
      ensures !disk.shared && index < retained ==> disk.log == old(disk.log)
      ensures !disk.shared && !disk.faulty ==> ok
      ensures !disk.shared && ok ==> disk.names == old(disk.names)[index := None]
      ensures !disk.shared ==> disk.contents == old(disk.contents)
      ensures !disk.shared ==> disk.names[index - 1] == old(disk.names)[index - 1]
    {
      var taken := disk.Exists(index);
      if !taken {
        assert !disk.shared ==> disk.names[index := None] == disk.names;
        return true;
      }
      ghost var names := disk.names;
      ok := disk.Remove(index);
      if ok && !disk.shared {
        WrittenStays(names, disk.contents, index, written, gone);
        gone := gone + Slot(names, disk.contents, index);
      }
    }

    /** Moves the file before `index` there, if there is one. */
    method ShiftTo(index: nat) returns (ok: bool)
      requires Shape() && held == None && KeepsHistory() && KeepsToLimit() && 0 < index <= retained
      requires !disk.shared && index < retained ==> disk.names[index] == None
      modifies disk, this`gone
      ensures Shape() && KeepsHistory() && KeepsToLimit() && LosesAtMostTheOldest()
      ensures Grows(old(disk.contents), disk.contents)
      ensures disk.log == old(disk.log) || disk.log == old(disk.log.(deleted := disk.log.deleted + [index]))
      ensures !disk.shared && index < retained ==> disk.log == old(disk.log)
      ensures !disk.shared && !disk.faulty ==> ok
      ensures !disk.shared ==> disk.contents == old(disk.contents)
      ensures !disk.shared && ok ==>
        disk.names == old(if disk.names[index - 1].Some? then Moved(disk.names, index - 1) else disk.names)
    {
      var there := disk.Exists(index - 1);
      if !there {
        return true;
      }
      ok := Vacate(index);
      if ok {
        if !disk.shared {
          MoveKeepsChain(disk.names, disk.contents, index - 1, retained);
          assert Moved(disk.names, index - 1) == Moved(old(disk.names), index - 1);
        }
        ok := disk.Rename(index - 1);
      }
    }

    /** One step of the shift of these names. */
    method ShiftNext(index: nat, ghost names: Names) returns (ok: bool)
      requires Shape() && held == None && KeepsHistory() && KeepsToLimit() && 0 < index <= retained
      requires !disk.shared ==> PartlyShifted(names, disk.names, index)
      modifies disk, this`gone
      ensures Shape() && KeepsHistory() && KeepsToLimit() && LosesAtMostTheOldest()
      ensures Grows(old(disk.contents), disk.contents)
      ensures disk.log == old(disk.log) || disk.log == old(disk.log.(deleted := disk.log.deleted + [index]))
      ensures !disk.shared && index < retained ==> disk.log == old(disk.log)
      ensures !disk.shared && !disk.faulty ==> ok
      ensures !disk.shared ==> disk.contents == old(disk.contents)
      ensures !disk.shared && ok ==> PartlyShifted(names, disk.names, index - 1)
    {
      if !disk.shared {
        ShiftOneMore(names, disk.names, index);
      }
      ok := ShiftTo(index);
    }

    /** Shifts each archive up by one, from the oldest; stops at the first failure. */
    method RotateArchives() returns (ok: bool)
      requires Shape() && held == None && KeepsHistory() && KeepsToLimit()
      modifies disk, this`gone
      ensures Shape() && KeepsHistory() && KeepsToLimit() && LosesAtMostTheOldest()
      ensures Grows(old(disk.contents), disk.contents)
      ensures disk.log == old(disk.log).(deleted := disk.log.deleted)
      ensures !disk.shared && !disk.faulty ==> ok
      ensures !disk.shared ==> disk.contents == old(disk.contents)
      ensures !disk.shared && ok ==> disk.names == Shifted(old(disk.names))
    {
      var index := retained;
      while index > 0
        invariant 0 <= index <= retained
        invariant Shape() && KeepsHistory() && KeepsToLimit() && LosesAtMostTheOldest()
        invariant Grows(old(disk.contents), disk.contents)
        invariant disk.log == old(disk.log).(deleted := disk.log.deleted)
        invariant !disk.shared ==> disk.contents == old(disk.contents)
        invariant !disk.shared && index == retained ==> disk.log == old(disk.log)
        invariant !disk.shared ==> PartlyShifted(old(disk.names), disk.names, index)
      {
        ok := ShiftNext(index, old(disk.names));
        if !ok {
          return;
        }
        index := index - 1;
      }
      return true;
    }

    /** These names with a new, empty file for the active log, and the other files as they were. */
    twostate predicate MadeNew(names: Names)
      reads disk
    {
      && names != [] && disk.names == names[0 := Some(|old(disk.contents)|)]
      && disk.contents == old(disk.contents) + [[]]
    }

    /** Opens the file at the log's path and counts from its length. */
    method TakeFile() returns (ok: bool)
      requires Shape() && held == None && KeepsHistory() && KeepsToLimit()
      modifies disk, this`held, this`bytesWritten
      ensures Shape() && CountsFit() && KeepsHistory() && KeepsToLimit()
      ensures Grows(old(disk.contents), disk.contents)
      ensures disk.log == old(disk.log).(opens := old(disk.log.opens) + [held])
      ensures ok <==> held.Some?
      ensures !disk.shared && !disk.faulty ==> ok
      ensures !disk.shared && ok && old(disk.names)[0] == None ==> bytesWritten == 0 && MadeNew(old(disk.names))
      ensures !disk.shared && old(disk.names)[0].Some? ==> disk.names == old(disk.names) && disk.contents == old(disk.contents)
      ensures !disk.shared ==> Slot(disk.names, disk.contents, retained) == old(Slot(disk.names, disk.contents, retained))
    {
      if !disk.shared && disk.names[0] == None {
        CreateKeepsChain(disk.names, disk.contents, retained);
        if !disk.faulty {
          CreateFits(disk.names, disk.contents, maxFileBytes);
        }
      }
      var file := disk.Open();
      ok := file.Some?;
      if ok {
        held, bytesWritten := Some(file.value.0), file.value.1;
      }
    }

    /** `rotate`. The shortcut, for a rotation that another process has already done, is taken exactly on
        seeing a shorter file, which is never the very file this writer was writing. */
    method Rotate() returns (ok: bool, ghost seen: Seen)
      requires Shape() && CountsFit() && KeepsHistory() && KeepsToLimit()
      modifies disk, this`held, this`bytesWritten, this`gone
      ensures Shape() && CountsFit() && KeepsHistory() && KeepsToLimit() && LosesAtMostTheOldest()
      ensures Grows(old(disk.contents), disk.contents)
      ensures disk.log.looks == old(disk.log.looks) + [seen] && Possible(seen, old(disk.contents), disk.contents)
      ensures (seen.answer.Unreadable? ==> disk.faulty) && (!disk.shared ==> seen.file == old(disk.names)[0])
      ensures disk.log.opens == old(disk.log.opens) + [held]
      ensures ShowsShortfall(seen, old(bytesWritten)) && old(held).Some? ==> seen.file != old(held)
      ensures seen.answer.Length? && ShowsShortfall(seen, old(bytesWritten)) ==>
        disk.log.deleted == old(disk.log.deleted) && ok == held.Some?
      ensures !disk.shared && old(held).Some? ==> !ShowsShortfall(seen, old(bytesWritten))
      ensures ok ==> held.Some?
      ensures !disk.shared && !disk.faulty ==> ok
      ensures !disk.shared && !disk.faulty && old(held).Some? ==> bytesWritten == 0 && MadeNew(Shifted(old(disk.names)))
    {
      held := None;
      var look := disk.Metadata();
      seen := disk.log.looks[|disk.log.looks| - 1];
      ghost var atLook := disk.contents;
      if ShowsShortfall(seen, bytesWritten) && old(held).Some? {
        ShortfallIsOfAnotherFile(seen, old(disk.contents), atLook, bytesWritten, old(held).value);
      }
      if look.Length? && look.n < bytesWritten {
        ok := TakeFile();
      } else {
        ok := RotateArchives();
        var taken := TakeFile();
        ok := ok && taken;
      }
      PossibleStays(seen, old(disk.contents), atLook, disk.contents);
    }

    method RotateOrReport()
      requires Shape() && CountsFit() && KeepsHistory() && KeepsToLimit()
      requires !disk.shared && !disk.faulty ==> suppressedFailures == 0
      modifies disk, this`held, this`bytesWritten, this`gone, this`suppressedFailures
      ensures Valid() && LosesAtMostTheOldest() && Grows(old(disk.contents), disk.contents)
      ensures old(disk.log.looks) <= disk.log.looks && |disk.log.looks| == |old(disk.log.looks)| + 1
      ensures disk.log.opens == old(disk.log.opens) + [held]
      ensures suppressedFailures == 0 || suppressedFailures == old(suppressedFailures) + 1
      ensures held == None ==> suppressedFailures == old(suppressedFailures) + 1
      ensures !disk.shared && !disk.faulty && old(held).Some? ==> bytesWritten == 0 && MadeNew(Shifted(old(disk.names)))
    {
      var ok, seen := Rotate();
      suppressedFailures := if ok then 0 else suppressedFailures + 1;
    }

    /** `new`: without a file to open there is no writer. A file that has reached the limit is rotated away
        before anything is written. */
    method Open() returns (ok: bool)
      requires Shape() && held == None && CountsFit() && KeepsHistory() && KeepsToLimit() && suppressedFailures == 0
      modifies disk, this
      ensures ok ==> Valid()
      ensures !disk.shared && !disk.faulty ==> ok
      ensures !disk.shared && !disk.faulty && old(disk.names)[0] == None && 0 < maxFileBytes ==> MadeNew(old(disk.names))
      ensures !disk.shared && !disk.faulty && old(disk.names)[0].Some? ==>
        if maxFileBytes <= old(Size(Slot(disk.names, disk.contents, 0))) then MadeNew(Shifted(old(disk.names)))
        else disk.names == old(disk.names) && disk.contents == old(disk.contents)
    {
      ok := TakeFile();
      if ok && bytesWritten >= maxFileBytes {
        RotateOrReport();
      }
    }

    /** The periodic check: one look at the path. A file there that is shorter than this writer's count,
        or none, is not the file this writer holds, so a live file is never given up; and on seeing that,
        the writer gives its file up and opens the one at the path. */
    method ReopenIfRotatedByAnotherProcess() returns (replaced: bool, ghost seen: Seen)
      requires Valid()
      modifies disk, this`held, this`bytesWritten
      ensures Valid() && Grows(old(disk.contents), disk.contents)
      ensures disk.log.looks == old(disk.log.looks) + [seen] && Possible(seen, old(disk.contents), disk.contents)
      ensures (seen.answer.Unreadable? ==> disk.faulty) && (!disk.shared ==> seen.file == old(disk.names)[0])
      ensures replaced <==> ShowsShortfall(seen, old(bytesWritten))
      ensures replaced && old(held).Some? ==> seen.file != old(held)
      ensures disk.log.opens == if replaced then old(disk.log.opens) + [held] else old(disk.log.opens)
      ensures disk.log.deleted == old(disk.log.deleted)
      ensures !replaced ==> held == old(held) && bytesWritten == old(bytesWritten)
      ensures !replaced && !disk.shared ==> disk.names == old(disk.names) && disk.contents == old(disk.contents)
      ensures !disk.shared ==> (replaced ==> old(held) == None)
      ensures !disk.shared ==> Slot(disk.names, disk.contents, retained) == old(Slot(disk.names, disk.contents, retained))
    {
      var look := disk.Metadata();
      seen := disk.log.looks[|disk.log.looks| - 1];
      ghost var atLook := disk.contents;
      replaced := look.NotFound? || (look.Length? && look.n < bytesWritten);
      if held.Some? {
        SizeOfAPrefix(old(disk.contents)[held.value], disk.contents[held.value]);
        if replaced {
          ShortfallIsOfAnotherFile(seen, old(disk.contents), atLook, bytesWritten, held.value);
        }
      }
      if replaced {
        held := None;
        var _ := TakeFile();
      }
      PossibleStays(seen, old(disk.contents), atLook, disk.contents);
    }

    /** What a write does, whether or not it comes through. */
    twostate predicate Wrote(line: Line, ok: bool)
      reads this, disk
    {
      && Grows(old(disk.contents), disk.contents) && disk.log == old(disk.log)
      && (if ok then written == old(written) + [line] && bytesWritten == old(bytesWritten) + |line| + 1
          else written == old(written) && bytesWritten == old(bytesWritten))
      && (ok ==> old(held).Some? && EndsWith(disk.contents, held, line))
      && (!disk.shared && !disk.faulty ==> ok)
      && (!disk.shared && ok ==>
        && disk.names == old(disk.names) && old(held).Some? && old(held).value < |old(disk.contents)|
        && disk.contents == WithLine(old(disk.contents), old(held).value, line))
    }

    /** A lone writer's append, which is the chain's last line. */
    method AppendAlone(f: File, line: Line) returns (ok: bool)
      requires Valid() && !disk.shared && held == Some(f)
      requires bytesWritten == 0 || bytesWritten + |line| + 1 <= maxFileBytes || disk.faulty
      modifies disk, this`bytesWritten, this`written
      ensures Valid() && Wrote(line, ok)
    {
      SizeOfOneMore(disk.contents[f], line);
      WrittenGrows(disk.names, disk.contents, retained, written, gone, line);
      if !disk.faulty {
        AppendFits(disk.names, disk.contents, maxFileBytes, line);
      }
      ok := disk.Append(f, line);
      if ok {
        bytesWritten := bytesWritten + |line| + 1;
        written := written + [line];
      }
    }

    /** An append to a file that others may write to. */
    method AppendAmongOthers(f: File, line: Line) returns (ok: bool)
      requires Valid() && disk.shared && held == Some(f)
      modifies disk, this`bytesWritten, this`written
      ensures Valid() && Wrote(line, ok)
    {
      ok := disk.Append(f, line);
      if ok {
        bytesWritten := bytesWritten + |line| + 1;
        written := written + [line];
      }
    }

    /** Appends to the held file what `write_line` was given, if there is a file. */
    method Append(line: Line) returns (ok: bool)
      requires Valid()
      requires bytesWritten == 0 || bytesWritten + |line| + 1 <= maxFileBytes || disk.shared || disk.faulty
      modifies disk, this`bytesWritten, this`written
      ensures Valid() && Wrote(line, ok)
    {
      if held == None {
        ok := false;
      } else if disk.shared {
        ok := AppendAmongOthers(held.value, line);
      } else {
        ok := AppendAlone(held.value, line);
      }
    }

    /** The look that is due every 256th line. Between looks and rotations a writer keeps its file, and its
        count only grows; seeing a shortfall of that count it opens the log anew. */
    twostate predicate NoticesAShortfall()
      reads this, disk
    {
      && old(disk.log.looks) <= disk.log.looks && old(disk.log.opens) <= disk.log.opens
      && (disk.log.opens == old(disk.log.opens) ==> held == old(held) && old(bytesWritten) <= bytesWritten)
      && (old(linesSinceCheck) + 1 == STALENESS_CHECK_LINES ==>
        && |old(disk.log.looks)| < |disk.log.looks|
        && (ShowsShortfall(disk.log.looks[|old(disk.log.looks)|], old(bytesWritten)) ==>
          && |old(disk.log.opens)| < |disk.log.opens|
          && (old(held).Some? ==> disk.log.looks[|old(disk.log.looks)|].file != old(held))))
    }

    /** `write_line`: every 256th line looks for another process's rotation, and a line that does
        not fit rotates first. */
    method WriteLine(line: Line)
      requires Valid()
      modifies disk, this
      ensures Valid() && LosesAtMostTheOldest() && NoticesAShortfall() && Grows(old(disk.contents), disk.contents)
      ensures linesSinceCheck == (old(linesSinceCheck) + 1) % STALENESS_CHECK_LINES
      ensures !disk.shared ==> written == old(written) || written == old(written) + [line]
      ensures !disk.shared && !disk.faulty ==> written == old(written) + [line]
      ensures old(linesSinceCheck) + 1 < STALENESS_CHECK_LINES ==>
        old(bytesWritten) == 0 || old(bytesWritten) + |line| + 1 <= maxFileBytes ==> disk.log == old(disk.log)
      ensures !disk.shared && !disk.faulty && (old(bytesWritten) == 0 || old(bytesWritten) + |line| + 1 <= maxFileBytes) ==>
        disk.names == old(disk.names) && disk.contents == WithLine(old(disk.contents), old(held).value, line)
      ensures !disk.shared && !disk.faulty && 0 < old(bytesWritten) && maxFileBytes < old(bytesWritten) + |line| + 1 ==>
        && disk.names == Shifted(old(disk.names))[0 := Some(|old(disk.contents)|)]
        && disk.contents == old(disk.contents) + [[line]]
    {
      Prepare(line);
      var _ := Append(line);
    }

    method Prepare(line: Line)
      requires Valid()
      modifies disk, this`held, this`bytesWritten, this`linesSinceCheck, this`suppressedFailures, this`gone
      ensures Valid() && LosesAtMostTheOldest() && NoticesAShortfall() && Grows(old(disk.contents), disk.contents)
      ensures linesSinceCheck == (old(linesSinceCheck) + 1) % STALENESS_CHECK_LINES
      ensures bytesWritten == 0 || bytesWritten + |line| + 1 <= maxFileBytes || disk.shared || disk.faulty
      ensures old(linesSinceCheck) + 1 < STALENESS_CHECK_LINES ==>
        old(bytesWritten) == 0 || old(bytesWritten) + |line| + 1 <= maxFileBytes ==> disk.log == old(disk.log)
      ensures !disk.shared && !disk.faulty && (old(bytesWritten) == 0 || old(bytesWritten) + |line| + 1 <= maxFileBytes) ==>
        disk.names == old(disk.names) && disk.contents == old(disk.contents) && held == old(held)
      ensures !disk.shared && !disk.faulty && 0 < old(bytesWritten) && maxFileBytes < old(bytesWritten) + |line| + 1 ==>
        MadeNew(Shifted(old(disk.names)))
    {
      if linesSinceCheck + 1 >= STALENESS_CHECK_LINES {
        linesSinceCheck := 0;
        var replaced, seen := ReopenIfRotatedByAnotherProcess();
      } else {
        linesSinceCheck := linesSinceCheck + 1;
      }
      if bytesWritten != 0 && bytesWritten + |line| + 1 > maxFileBytes {
        RotateOrReport();
      }
    }

    /** The logger's thread: line after line. Over any 256 of them or more, if every look at the path shows
        no file there or one shorter than the count the writer had at first, it has opened the log anew. */
    method WriteLines(lines: seq<Line>)
      requires Valid()
      modifies disk, this
      ensures Valid() && Grows(old(disk.contents), disk.contents)
      ensures old(disk.log.looks) <= disk.log.looks && old(disk.log.opens) <= disk.log.opens
      ensures |lines| >= STALENESS_CHECK_LINES && ShortfallLasts(|old(disk.log.looks)|, old(bytesWritten)) ==>
        |old(disk.log.opens)| < |disk.log.opens|
      ensures !disk.shared && !disk.faulty ==> written == old(written) + lines
    {
      for i := 0 to |lines|
        invariant Valid() && Grows(old(disk.contents), disk.contents)
        invariant old(disk.log.looks) <= disk.log.looks && old(disk.log.opens) <= disk.log.opens
        invariant disk.log.opens == old(disk.log.opens) ==> old(bytesWritten) <= bytesWritten
        invariant disk.log.opens == old(disk.log.opens) && ShortfallLasts(|old(disk.log.looks)|, old(bytesWritten)) ==>
          linesSinceCheck == old(linesSinceCheck) + i
        invariant !disk.shared && !disk.faulty ==> written == old(written) + lines[..i]
      {
        WriteLine(lines[i]);
        assert lines[..i + 1] == lines[..i] + [lines[i]];
      }
      assert lines[..|lines|] == lines;
    }

    /** Every look from the `from`th on shows a shortfall of this count. */
    ghost predicate ShortfallLasts(from: nat, count: nat)
      reads disk
    {
      forall k :: from <= k < |disk.log.looks| ==> ShowsShortfall(disk.log.looks[k], count)
    }
  }

  /** Each file a name up, the oldest deleted to make room, and no file moved where there is none. */
  function Shifted(names: Names): (r: Names)
    ensures |r| == |names|
  {
    seq(|names|, i requires 0 <= i < |names| =>
      if i == 0 then None
      else if names[i - 1].Some? then names[i - 1]
      else if i == |names| - 1 then names[i] else None)
  }

  /** The names above `index` shifted, and those below as they were. */
  predicate PartlyShifted(before: Names, after: Names, index: nat) {
    && |after| == |before| && index < |before|
    && (forall i :: 0 <= i < index ==> after[i] == before[i])
    && (forall i :: index < i < |before| ==> after[i] == Shifted(before)[i])
    && after[index] == if index == |before| - 1 then before[index] else None
  }

  lemma ShiftOneMore(before: Names, after: Names, index: nat)
    requires 0 < index && PartlyShifted(before, after, index)
    ensures PartlyShifted(before, if after[index - 1].Some? then Moved(after, index - 1) else after, index - 1)
  {
  }

  lemma PossibleStays(seen: Seen, before: Contents, between: Contents, after: Contents)
    requires Possible(seen, before, between) && Grows(between, after)
    ensures Possible(seen, before, after)
  {
    if seen.file.Some? {
      SizeOfAPrefix(between[seen.file.value], after[seen.file.value]);
    }
  }

  lemma WrittenGrows(names: Names, contents: Contents, k: nat, written: seq<Line>, gone: seq<Line>, line: Line)
    requires WellFormed(names, contents) && k < |names| && names[0].Some?
    requires written == gone + Chain(names, contents, k)
    ensures WellFormed(names, WithLine(contents, names[0].value, line))
    ensures written + [line] == gone + Chain(names, WithLine(contents, names[0].value, line), k)
  {
    AppendExtendsChain(names, contents, line, k);
    assert (gone + Chain(names, contents, k)) + [line] == gone + (Chain(names, contents, k) + [line]);
  }

  lemma WrittenStays(names: Names, contents: Contents, k: nat, written: seq<Line>, gone: seq<Line>)
    requires WellFormed(names, contents) && 0 < k < |names| && names[k].Some?
    requires written == gone + Chain(names, contents, k)
    ensures WellFormed(names[k := None], contents)
    ensures written == (gone + Slot(names, contents, k)) + Chain(names[k := None], contents, k)
  {
    RemoveOldest(names, contents, k);
    var s, rest := Slot(names, contents, k), Chain(names[k := None], contents, k);
    assert gone + (s + rest) == (gone + s) + rest;
  }

  lemma CreateFits(names: Names, contents: Contents, limit: nat)
    requires WellFormed(names, contents) && 0 < |names| && AllFit(names, contents, limit) && names[0] == None
    ensures var m, d := names[0 := Some(|contents|)], contents + [[]];
      WellFormed(m, d) && AllFit(m, d, limit)
  {
  }

  /** A line that still fits, or that starts a file, leaves the file within its limit. */
  lemma AppendFits(names: Names, contents: Contents, limit: nat, line: Line)
    requires WellFormed(names, contents) && 0 < |names| && AllFit(names, contents, limit) && names[0].Some?
    requires var size := Size(contents[names[0].value]); size == 0 || size + |line| + 1 <= limit
    ensures WellFormed(names, WithLine(contents, names[0].value, line))
    ensures AllFit(names, WithLine(contents, names[0].value, line), limit)
  {
    SizeOfOneMore(contents[names[0].value], line);
  }
}
