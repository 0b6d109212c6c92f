/** The host's review methods as one thread runs them: `queue_review`, `open_review` and
    `conclude_review` of recording.rs, which call each other until a review is open or nothing
    waits. ReviewProtocol has their interleavings with other threads. */
module RecordingHost {
  import opened Wrappers
  import opened ReviewProtocol

  /** How a draft left the host: with a fate, or to a thread that will give it one. */
  datatype Settlement = Fated(fate: Fate) | ToSaver

  class Host {
    var open: bool
    var waiting: seq<Draft>
    var inReview: Option<Draft>
    var settled: seq<(Draft, Settlement)>
    /** What the desktop said to each request for a review, how each write as recorded went, and whether
        each thread to save an edit came up. */
    ghost var requests: seq<bool>
    ghost var writes: seq<bool>
    ghost var spawns: seq<bool>

    constructor ()
      ensures Queue() == ReviewQueue(false, []) && inReview == None && settled == [] && Valid()
    {
      open, waiting, inReview, settled := false, [], None, [];
      requests, writes, spawns := [], [], [];
    }

    function Queue(): ReviewQueue
      reads this
    {
      ReviewQueue(open, waiting)
    }

    /** Nothing waits behind a closed queue, and an open queue has its draft in the window. */
    ghost predicate Valid()
      reads this
    {
      (open <==> inReview.Some?) && (waiting != [] ==> open) && Accounted()
    }

    /** The drafts kept are told of as their writes went, in order. */
    ghost predicate Accounted()
      reads this`settled, this`writes
    {
      WritesOf(settled) == writes
    }

    method RequestReview() returns (accepted: bool)
      modifies this`requests
      ensures requests == old(requests) + [accepted]
    {
      accepted := *;
      requests := requests + [accepted];
    }

    /** Writes a draft as it was recorded. */
    method WriteUnchanged() returns (ok: bool)
      modifies this`writes
      ensures writes == old(writes) + [ok]
    {
      ok := *;
      writes := writes + [ok];
    }

    method SpawnSaver() returns (ok: bool)
      modifies this`spawns
      ensures spawns == old(spawns) + [ok]
    {
      ok := *;
      spawns := spawns + [ok];
    }

    method QueueReview(d: Draft)
      requires Valid()
      modifies this
      ensures Valid()
      ensures old(open) ==> Queue() == Enter(old(Queue()), d) && inReview == old(inReview) && settled == old(settled)
      ensures old(open) ==> requests == old(requests)
      ensures !old(open) ==> requests == old(requests) + [open]
      ensures !old(open) && open ==> inReview == Some(d) && waiting == [] && settled == old(settled)
      ensures !open ==> KeepsAll(old(settled), settled, [d])
    {
      if open {
        waiting := waiting + [d];
        return;
      }
      open := true;
      OpenReview(d);
    }

    /** Opens the review of `d`, or, where there is no desktop or it refuses, keeps `d` and every
        draft behind it as recorded. */
    method OpenReview(d: Draft)
      requires open && inReview == None && Accounted()
      modifies this
      ensures Valid() && requests == old(requests) + [open] && spawns == old(spawns)
      ensures open ==> inReview == Some(d) && waiting == old(waiting) && settled == old(settled)
      ensures !open ==> waiting == [] && KeepsAll(old(settled), settled, [d] + old(waiting))
      decreases |waiting|, 1
    {
      var accepted := RequestReview();
      if accepted {
        inReview := Some(d);
        return;
      }
      ConcludeReview(d, Closed);
      KeepsOneMore(old(settled), settled, d, old(waiting));
    }

    /** Acts on a review's answer, then turns to the drafts that waited. A closing answer leaves none
        of them; any other stops at the first whose review opens. */
    method ConcludeReview(d: Draft, outcome: Outcome)
      requires open && inReview == None && Accounted()
      modifies this
      ensures Valid()
      ensures requests == old(requests) + if outcome.Closed? || old(waiting) == [] then [] else [open]
      ensures outcome.Closed? || old(waiting) == [] ==> !open
      ensures Settles(old(settled), settled, d, outcome)
      ensures spawns == old(spawns) + if outcome == Save(true) then [settled[|old(settled)|].1 == ToSaver] else []
      ensures open ==> |settled| == |old(settled)| + 1
      ensures open ==> inReview == Some(old(waiting)[0]) && waiting == old(waiting)[1..]
      ensures !open ==> waiting == [] && KeepsAll(settled[..|old(settled)| + 1], settled, old(waiting))
      decreases |waiting|, 0
    {
      Act(d, outcome);
      ghost var before, left := settled, waiting;
      if waiting == [] {
        open := false;
        return;
      }
      var next := waiting[0];
      waiting := waiting[1..];
      assert left == [next] + waiting;
      if outcome.Closed? {
        ConcludeReview(next, Closed);
        KeepsOneMore(before, settled, next, left[1..]);
      } else {
        OpenReview(next);
      }
      assert before == settled[..|before|];
      assert settled[|old(settled)|] == before[|old(settled)|];
    }

    /** What becomes of the draft itself; a write and a spawn may each fail. Only an edit whose thread came
        up goes there, only a discard is let go, and everything else is written as recorded. */
    method Act(d: Draft, outcome: Outcome)
      requires Accounted()
      modifies this`settled, this`writes, this`spawns
      ensures Accounted() && |settled| == |old(settled)| + 1 && Settles(old(settled), settled, d, outcome)
      ensures spawns == old(spawns) + if outcome == Save(true) then [settled[|old(settled)|].1 == ToSaver] else []
    {
      var how;
      match outcome {
        case Save(changes) =>
          var spawned := false;
          if changes {
            spawned := SpawnSaver();
          }
          if spawned {
            how := ToSaver;
          } else {
            var ok := WriteUnchanged();
            how := Fated(Kept(ok));
          }
        case Closed =>
          var ok := WriteUnchanged();
          how := Fated(Kept(ok));
        case Failed =>
          var ok := WriteUnchanged();
          how := Fated(Kept(ok));
        case Discard => how := Fated(Discarded);
      }
      OneMoreSettled(settled, (d, how));
      settled := settled + [(d, how)];
    }
  }

  /** How the writes of the drafts kept must have gone. */
  function WritesOf(settled: seq<(Draft, Settlement)>): seq<bool> {
    if settled == [] then []
    else
      var newest := settled[|settled| - 1].1;
      WritesOf(settled[..|settled| - 1]) +
        if newest == Fated(SavedAsRecorded) then [true] else if newest == Fated(WriteFailed) then [false] else []
  }

  lemma OneMoreSettled(settled: seq<(Draft, Settlement)>, newest: (Draft, Settlement))
    ensures WritesOf(settled + [newest]) == WritesOf(settled) +
      if newest.1 == Fated(SavedAsRecorded) then [true] else if newest.1 == Fated(WriteFailed) then [false] else []
  {
    assert (settled + [newest])[..|settled|] == settled;
  }

  /** Written as recorded, or reported as unwritten. */
  predicate KeptAs(how: Settlement) {
    how.Fated? && how.fate in {SavedAsRecorded, WriteFailed}
  }

  /** What an answer may lead to. Only an edit goes to a saver, and only a discard is let go. */
  predicate Answers(how: Settlement, outcome: Outcome) {
    match outcome
    case Save(changes) => KeptAs(how) || (changes && how == ToSaver)
    case Discard => how == Fated(Discarded)
    case _ => KeptAs(how)
  }

  /** `after` is `before` and one entry for `d`, as its review's answer has it, and perhaps more. */
  ghost predicate Settles(before: seq<(Draft, Settlement)>, after: seq<(Draft, Settlement)>, d: Draft,
                          outcome: Outcome)
  {
    && |before| < |after| && before == after[..|before|]
    && after[|before|].0 == d && Answers(after[|before|].1, outcome)
  }

  /** `after` is `before` and each of these drafts, in this order, kept as recorded. */
  ghost predicate KeepsAll(before: seq<(Draft, Settlement)>, after: seq<(Draft, Settlement)>, drafts: seq<Draft>) {
    && |after| == |before| + |drafts| && before == after[..|before|]
    && forall i :: |before| <= i < |after| ==> after[i].0 == drafts[i - |before|] && KeptAs(after[i].1)
  }

  lemma KeepsOneMore(before: seq<(Draft, Settlement)>, after: seq<(Draft, Settlement)>, d: Draft, rest: seq<Draft>)
    requires Settles(before, after, d, Closed)
    requires KeepsAll(after[..|before| + 1], after, rest)
    ensures KeepsAll(before, after, [d] + rest)
  {
  }
}
