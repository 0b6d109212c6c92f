/** The bounded queue between a recording's pacing loop and its encoder, and that loop: the queue's
    monitor, `queued_frames` and `record_into` of recording.rs. Each method of `FrameQueue` runs
    under the queue's lock, so what every one of them keeps holds in every interleaving. */
module RecordingPipeline {
  import opened Wrappers

  // ---- How many frames wait ----

  const QUEUE_BYTES := 128 * 1024 * 1024
  const FEWEST_FRAMES := 2
  const MOST_FRAMES := 90

  function Clamp(n: nat, low: nat, high: nat): (r: nat)
    requires low <= high
    ensures low <= r <= high
    ensures low <= n <= high ==> r == n
  {
    if n < low then low else if n > high then high else n
  }

  /** The largest number of frames that fits the byte budget, but never under two or over ninety. */
  function QueueCapacity(bytes: nat): (capacity: nat)
    ensures FEWEST_FRAMES <= capacity <= MOST_FRAMES
    ensures capacity * bytes <= QUEUE_BYTES || capacity == FEWEST_FRAMES
    ensures capacity == MOST_FRAMES || QUEUE_BYTES < (capacity + 1) * bytes
  {
    var each := if bytes == 0 then 1 else bytes;
    var fit := QUEUE_BYTES / each;
    DivisionFits(QUEUE_BYTES, each, Clamp(fit, FEWEST_FRAMES, MOST_FRAMES));
    Clamp(fit, FEWEST_FRAMES, MOST_FRAMES)
  }

  lemma DivisionFits(total: nat, each: nat, n: nat)
    requires each > 0
    ensures n <= total / each <==> n * each <= total
    ensures n + 1 <= total / each <==> (n + 1) * each <= total
  {
    var q := total / each;
    assert q * each <= total < (q + 1) * each;
    Scaled(n, q, each);
    Scaled(n + 1, q, each);
  }

  lemma Scaled(n: nat, q: nat, each: nat)
    ensures n <= q ==> n * each <= q * each
    ensures q < n ==> (q + 1) * each <= n * each
  {
    if n <= q {
      Larger(n, q, each);
    } else {
      Larger(q + 1, n, each);
    }
  }

  lemma Larger(m: nat, n: nat, each: nat)
    requires m <= n
    ensures m * each <= n * each
  {
    assert n * each == m * each + (n - m) * each;
  }

  // ---- The queue ----

  type Bytes = seq<bv8>

  /** A frame and how long into the recording it was captured. */
  datatype Frame = Frame(pixels: Bytes, at: nat)

  datatype Next = Popped(frame: Frame) | Closed(end: nat)

  predicate Increasing(s: seq<nat>) {
    forall i, j :: 0 <= i < j < |s| ==> s[i] < s[j]
  }

  /** No frame is earlier than one before it. */
  predicate InTime(frames: seq<Frame>) {
    forall i, j :: 0 <= i < j < |frames| ==> frames[i].at <= frames[j].at
  }

  /** Every frame of one size. */
  predicate Sized(frames: seq<Frame>, bytes: nat) {
    forall i :: 0 <= i < |frames| ==> |frames[i].pixels| == bytes
  }

  predicate Below(s: seq<nat>, bound: nat) {
    forall i :: 0 <= i < |s| ==> s[i] < bound
  }

  /** The frames of `all` at these places. */
  function Select(all: seq<Frame>, places: seq<nat>): (r: seq<Frame>)
    requires Below(places, |all|)
    ensures |r| == |places| && forall i :: 0 <= i < |r| ==> r[i] == all[places[i]]
  {
    seq(|places|, i requires 0 <= i < |places| => all[places[i]])
  }

  function BytesOf(frames: seq<Frame>): nat {
    if frames == [] then 0 else |frames[0].pixels| + BytesOf(frames[1..])
  }

  lemma {:induction false} BytesOfSized(frames: seq<Frame>, bytes: nat)
    requires Sized(frames, bytes)
    ensures BytesOf(frames) == |frames| * bytes
  {
    if frames != [] {
      BytesOfSized(frames[1..], bytes);
      assert |frames| * bytes == bytes + (|frames| - 1) * bytes;
    }
  }

  class FrameQueue {
    /** What a frame takes, and how many may wait. */
    const bytes: nat
    const capacity: nat
    var frames: seq<Frame>
    var closedAt: Option<nat>
    var dropped: nat
    var failed: bool
    /** Every frame the queue accepted, which of them it handed out, and how many a failure cleared. */
    ghost var pushed: seq<Frame>
    ghost var taken: seq<nat>
    ghost var cleared: nat
    /** What the writer took of the frames handed out, and how many it refused. */
    ghost var written: seq<Frame>
    ghost var refusals: nat

    constructor (bytes: nat)
      ensures Valid() && this.bytes == bytes
      ensures Unused()
    {
      this.bytes, capacity := bytes, QueueCapacity(bytes);
      frames, closedAt, dropped, failed := [], None, 0, false;
      pushed, taken, cleared, written, refusals := [], [], 0, [], 0;
    }

    ghost predicate Unused()
      reads this
    {
      pushed == [] && taken == [] && written == [] && closedAt == None && !failed
    }

    /** What holds between any two operations: what was accepted is handed out, dropped, cleared or
        waiting, what waits is the newest of it, frames leave in the order they came, and the newest
        frame is never the one dropped. */
    ghost predicate Valid()
      reads this
    {
      && capacity == QueueCapacity(bytes) && |frames| <= capacity && Sized(frames, bytes)
      && |pushed| == |taken| + dropped + cleared + |frames|
      && (forall i :: 0 <= i < |frames| ==> frames[i] == pushed[|pushed| - |frames| + i])
      && Increasing(taken) && Below(taken, |pushed| - |frames|)
      && (failed ==> frames == [])
      && (!failed ==> cleared == 0)
      && |written| <= |taken| && (forall i :: 0 <= i < |written| ==> written[i] == pushed[taken[i]])
      && (!failed && frames == [] && pushed != [] ==> taken != [] && taken[|taken| - 1] == |pushed| - 1)
    }

    /** What the encoder got, in the order it got it. */
    ghost function Delivered(): seq<Frame>
      requires Valid()
      reads this
    {
      Select(pushed, taken)
    }

    /** Whatever the interleaving, the encoder gets its frames in the order of their times. */
    lemma DeliveredInTime()
      requires Valid() && InTime(pushed)
      ensures InTime(Delivered())
    {
    }

    /** What waits takes no more than the byte budget, or than two frames. */
    lemma WaitingBytes()
      requires Valid()
      ensures BytesOf(frames) <= QUEUE_BYTES || BytesOf(frames) <= FEWEST_FRAMES * bytes
    {
      BytesOfSized(frames, bytes);
      Larger(|frames|, capacity, bytes);
    }

    method Push(frame: Frame)
      requires Valid() && |frame.pixels| == bytes
      modifies this
      ensures Valid() && closedAt == old(closedAt) && failed == old(failed) && taken == old(taken)
      ensures written == old(written)
      ensures failed ==> pushed == old(pushed) && dropped == old(dropped)
      ensures !failed ==> pushed == old(pushed) + [frame]
      ensures !failed ==> frames == old(if |frames| < capacity then frames else frames[1..]) + [frame]
      ensures !failed ==> dropped == old(if |frames| < capacity then dropped else dropped + 1)
    {
      if failed {
        return;
      }
      if |frames| >= capacity {
        frames := frames[1..];
        dropped := dropped + 1;
      }
      frames := frames + [frame];
      pushed := pushed + [frame];
    }

    method Close(at: nat)
      requires Valid()
      modifies this`closedAt
      ensures Valid() && closedAt == Some(at)
    {
      closedAt := Some(at);
    }

    method Fail()
      requires Valid()
      modifies this
      ensures Valid() && failed && frames == []
      ensures pushed == old(pushed) && taken == old(taken) && dropped == old(dropped) && closedAt == old(closedAt)
      ensures written == old(written) && refusals == old(refusals)
    {
      cleared := cleared + |frames|;
      failed := true;
      frames := [];
    }

    /** One look at the queue by `pop`: nothing there and not closed means the encoder waits. */
    method Pop() returns (next: Option<Next>)
      requires Valid()
      modifies this
      ensures Valid() && closedAt == old(closedAt) && failed == old(failed) && dropped == old(dropped)
      ensures pushed == old(pushed) && written == old(written) && refusals == old(refusals)
      ensures old(frames) != [] ==>
        && next == Some(Popped(old(frames)[0])) && frames == old(frames)[1..]
        && taken == old(taken) + [|pushed| - old(|frames|)]
      ensures old(frames) == [] ==> taken == old(taken) && frames == []
      ensures old(frames) == [] ==> next == if closedAt == None then None else Some(Closed(closedAt.value))
    {
      if frames != [] {
        next := Some(Popped(frames[0]));
        taken := taken + [|pushed| - |frames|];
        frames := frames[1..];
        return;
      }
      next := if closedAt == None then None else Some(Closed(closedAt.value));
    }

    /** Gives the writer the frame handed out last, which it takes or refuses. */
    method Encode(frame: Frame) returns (ok: bool)
      requires Valid() && |written| + 1 == |taken| && frame == pushed[taken[|written|]]
      modifies this`written, this`refusals
      ensures Valid() && refusals == old(refusals) + if ok then 0 else 1
      ensures written == if ok then old(written) + [frame] else old(written)
    {
      ok := *;
      if ok {
        written := written + [frame];
      } else {
        refusals := refusals + 1;
      }
    }

    /** The encoder at work while the queue is open: one frame, if there is one, which the writer takes. */
    method EncodeOne()
      requires Valid() && |written| == |taken|
      modifies this
      ensures Valid() && |written| == |taken| && closedAt == old(closedAt) && pushed == old(pushed)
      ensures failed == old(failed) && (old(frames) == [] ==> frames == [])
    {
      var next := Pop();
      if next.Some? && next.value.Popped? {
        written := written + [next.value.frame];
      }
    }

    /** One turn of `queued_frames`: the next frame to the writer, the end, or nothing more. */
    method EncodeNext() returns (end: Option<nat>, ok: bool)
      requires Valid() && closedAt.Some? && |written| == |taken|
      modifies this
      ensures Valid() && closedAt == old(closedAt) && pushed == old(pushed) && dropped == old(dropped)
      ensures refusals == old(refusals) + (if ok then 0 else 1) && failed == (old(failed) || !ok)
      ensures ok ==> |written| == |taken|
      ensures if end.Some? then end == closedAt && frames == [] && ok else ok ==> |frames| < old(|frames|)
    {
      var next := Pop();
      match next.value {
        case Closed(at) => end, ok := Some(at), true;
        case Popped(frame) =>
          end := None;
          ok := Encode(frame);
          if !ok {
            Fail();
          }
      }
    }

    /** `queued_frames` once the queue is closed: everything waiting goes to the writer, in order, then the
        end; or nothing more once a frame cannot be encoded. */
    method QueuedFrames() returns (end: Option<nat>)
      requires Valid() && closedAt.Some? && |written| == |taken|
      modifies this
      ensures Valid() && closedAt == old(closedAt) && pushed == old(pushed) && dropped == old(dropped)
      ensures end.Some? ==> end == closedAt && frames == [] && failed == old(failed) && |written| == |taken|
      ensures end.Some? && !failed && pushed != [] ==> taken != [] && taken[|taken| - 1] == |pushed| - 1
      ensures refusals == old(refusals) + if end == None then 1 else 0
      ensures end == None ==> failed
    {
      while true
        invariant Valid() && closedAt == old(closedAt) && pushed == old(pushed) && dropped == old(dropped)
        invariant failed == old(failed) && refusals == old(refusals) && |written| == |taken|
        decreases |frames|
      {
        var ok;
        end, ok := EncodeNext();
        if end.Some? || !ok {
          return;
        }
      }
    }
  }

  // ---- The pacing loop ----

  const STOP_POLL := 15_000_000
  const FAILURES_TOLERATED := 5

  datatype End = Stopped | TimeLimit | WindowClosed

  datatype Recording =
    | Report(duration: nat, captured: nat, dropped: nat, ended: End)
    | NotStarted
    | SourceFailed
    | PixelsFailed
    | EncoderFailed
    | FileFailed

  /** A capture: a frame, the window found gone, or a failure. Of a frame: whether it is an HDR one,
      whether the recorded area meets its display and can be cut from it, and its pixels at the
      recording's size. */
  datatype Capture = Shot(hdr: bool, meets: bool, cuts: bool, pixels: Bytes) | Gone | Failure

  /** Whether `pixels_for` makes pixels of a frame. */
  predicate Converts(got: Capture) {
    got.Shot? && !got.hdr && got.meets && got.cuts
  }

  datatype Fault = Encoding | Writing

  /** The encoder thread: at work, or its file written, or ended by an error, or by a panic. */
  datatype Encoder = Running | Wrote | Broke(fault: Fault) | Panicked

  /** A turn at the source: when it was due, and what the clock said when the next was scheduled. */
  datatype Turn = Turn(due: nat, read: nat)

  /** A sleep asked for: when, and for how long. */
  datatype Nap = Nap(from: nat, time: nat)

  /** What happens outside while a recording runs: time passes, in nanoseconds, a stop may be asked
      for, the recorded window may close, and the encoder ends. None of it is ever taken back. */
  class World {
    var now: nat
    var stopRequested: bool
    var windowClosed: bool
    var encoder: Encoder
    /** What each capture came to, whether no thread was to be had, and what reading the size of
        the written file came to. */
    ghost var captures: seq<Capture>
    ghost var threadRefused: bool
    ghost var sizeReads: seq<bool>
    /** The turns taken at the source after the first capture, and the sleeps before them. */
    ghost var turns: seq<Turn>
    ghost var sleeps: seq<Nap>

    constructor (now: nat)
      ensures this.now == now && Untouched()
    {
      this.now, stopRequested, windowClosed, encoder := now, false, false, Running;
      captures, threadRefused, sizeReads, turns, sleeps := [], false, [], [], [];
    }

    ghost predicate Untouched()
      reads this
    {
      encoder == Running && captures == [] && turns == [] && !threadRefused && sizeReads == []
    }

    method Pass(least: nat)
      modifies this`now, this`stopRequested, this`windowClosed
      ensures old(now) + least <= now
      ensures (old(stopRequested) ==> stopRequested) && (old(windowClosed) ==> windowClosed)
    {
      var later :| now + least <= later;
      now := later;
      if * {
        stopRequested := true;
      }
      if * {
        windowClosed := true;
      }
    }

    method Sleep(time: nat)
      modifies this`now, this`stopRequested, this`windowClosed, this`sleeps
      ensures old(now) + time <= now && sleeps == old(sleeps) + [Nap(old(now), time)]
      ensures (old(stopRequested) ==> stopRequested) && (old(windowClosed) ==> windowClosed)
    {
      sleeps := sleeps + [Nap(now, time)];
      Pass(time);
    }

    /** Captures a frame; a capture that fails once the window is closed finds it gone. */
    method NextFrame(bytes: nat) returns (got: Capture)
      modifies this`now, this`stopRequested, this`windowClosed, this`captures
      ensures old(now) <= now && captures == old(captures) + [got]
      ensures got.Shot? ==> |got.pixels| == bytes
      ensures got == Gone ==> windowClosed
      ensures got == Failure ==> !windowClosed
    {
      Pass(0);
      got := *;
      if !got.Shot? || |got.pixels| != bytes {
        got := if windowClosed then Gone else Failure;
      }
      captures := captures + [got];
    }

    method SpawnEncoder() returns (refused: bool)
      requires !threadRefused
      modifies this`threadRefused
      ensures refused == threadRefused
    {
      refused := *;
      threadRefused := refused;
    }

    /** The encoder's doings while the pacing loop is elsewhere: any number of frames, perhaps its end. */
    method EncoderRuns(queue: FrameQueue)
      requires Attached(queue, this)
      modifies queue, this`encoder
      ensures Attached(queue, this) && queue.closedAt == old(queue.closedAt) && queue.pushed == old(queue.pushed)
      ensures old(encoder) != Running ==> encoder == old(encoder)
    {
      if encoder != Running {
        return;
      }
      var pops: int := *;
      while pops > 0
        invariant Attached(queue, this) && encoder == Running
        invariant queue.closedAt == old(queue.closedAt) && queue.pushed == old(queue.pushed)
      {
        pops := pops - 1;
        queue.EncodeOne();
      }
      if * {
        Break(queue);
      } else if * {
        encoder := Panicked;
      }
    }

    /** An error ends the encoder, which tells the queue. */
    method Break(queue: FrameQueue)
      requires Attached(queue, this)
      modifies queue, this`encoder
      ensures Attached(queue, this) && encoder.Broke?
      ensures queue.closedAt == old(queue.closedAt) && queue.pushed == old(queue.pushed)
    {
      var fault: Fault := *;
      encoder := Broke(fault);
      queue.Fail();
    }

    /** Waits for the encoder, which takes what is left once the queue is closed. */
    method JoinEncoder(queue: FrameQueue)
      requires Attached(queue, this) && queue.closedAt.Some? && encoder != Wrote
      modifies queue, this`encoder
      ensures Attached(queue, this) && queue.closedAt == old(queue.closedAt) && queue.pushed == old(queue.pushed)
      ensures encoder != Running && (old(encoder) != Running ==> encoder == old(encoder))
      ensures encoder == Wrote && queue.pushed != [] ==>
        queue.frames == [] && queue.taken != [] && queue.taken[|queue.taken| - 1] == |queue.pushed| - 1
    {
      EncoderRuns(queue);
      if encoder != Running {
        return;
      }
      var end := queue.QueuedFrames();
      if end == None {
        encoder := Broke(Encoding);
      } else if * {
        Break(queue);
      } else {
        var panics: bool := *;
        encoder := if panics then Panicked else Wrote;
      }
    }

    /** Reads the size of the written file. */
    method ReadSize() returns (read: bool)
      modifies this`sizeReads
      ensures sizeReads == old(sizeReads) + [read]
    {
      read := *;
      sizeReads := sizeReads + [read];
    }
  }

  /** The queue has failed exactly if an error ended the encoder, and no file is written before the
      queue is closed. */
  ghost predicate Attached(queue: FrameQueue, world: World)
    reads queue, world
  {
    && queue.Valid() && (queue.failed <==> world.encoder.Broke?)
    && (world.encoder in {Running, Wrote} ==> |queue.written| == |queue.taken|)
    && (world.encoder == Wrote ==> queue.closedAt.Some? && queue.frames == [])
  }

  /** Whether the world has given this reason to end. */
  predicate Justified(world: World, started: nat, limit: nat, ended: End)
    reads world
  {
    match ended
    case Stopped => world.stopRequested
    case TimeLimit => started + limit <= world.now
    case WindowClosed => world.windowClosed
  }

  /** When frame `k` of the schedule is due. */
  function Due(k: nat, interval: nat): nat {
    if k == 0 then 0 else Due(k - 1, interval) + interval
  }

  lemma {:induction false} DueIsMultiple(k: nat, interval: nat)
    ensures Due(k, interval) == k * interval
  {
    if k > 0 {
      DueIsMultiple(k - 1, interval);
    }
  }

  lemma {:induction false} DueInOrder(j: nat, k: nat, interval: nat)
    requires j <= k
    ensures Due(j, interval) <= Due(k, interval)
    decreases k
  {
    if j < k {
      DueInOrder(j, k - 1, interval);
    }
  }

  /** No frame is early. */
  predicate Paced(frames: seq<Frame>, interval: nat) {
    forall k :: 0 <= k < |frames| ==> Due(k, interval) <= frames[k].at
  }

  /** At most one frame an interval, however long each capture takes: `n` frames stamped within the
      first `elapsed` of the recording fit in it at one an interval, counting the first at zero. */
  lemma PacedFramesAreFew(frames: seq<Frame>, interval: nat, n: nat, elapsed: nat)
    requires Paced(frames, interval) && 0 < interval
    requires n <= |frames| && (n > 0 ==> frames[n - 1].at <= elapsed)
    ensures n <= 1 + elapsed / interval
  {
    if n > 0 {
      DueIsMultiple(n - 1, interval);
      DivisionFits(elapsed, interval, n - 1);
    }
  }

  /** All but the newest frame were captured within the limit. */
  predicate OnlyLastIsLate(frames: seq<Frame>, limit: nat) {
    forall k :: 0 <= k < |frames| - 1 ==> frames[k].at < limit
  }

  predicate Within(frames: seq<Frame>, elapsed: nat) {
    forall k :: 0 <= k < |frames| ==> frames[k].at <= elapsed
  }

  /** The pixels of the captures that came and converted. */
  function Shots(captures: seq<Capture>): seq<Bytes> {
    if captures == [] then []
    else
      var newest := captures[|captures| - 1];
      Shots(captures[..|captures| - 1]) + if Converts(newest) then [newest.pixels] else []
  }

  lemma OneMoreCapture(captures: seq<Capture>, got: Capture)
    ensures Shots(captures + [got]) == Shots(captures) + if Converts(got) then [got.pixels] else []
  {
    assert (captures + [got])[..|captures|] == captures;
  }

  /** Every capture reached the queue, in order, until the encoder stopped. */
  ghost predicate Captured(frames: seq<Frame>, shots: seq<Bytes>, failed: bool) {
    && 0 < |frames| <= |shots| && (!failed ==> |frames| == |shots|)
    && forall k :: 0 <= k < |frames| ==> frames[k].pixels == shots[k]
  }

  lemma OneMoreCaptured(frames: seq<Frame>, shots: seq<Bytes>, failed: bool, frame: Frame)
    requires Captured(frames, shots, failed)
    ensures Captured(frames, shots + [frame.pixels], true)
    ensures !failed ==> Captured(frames + [frame], shots + [frame.pixels], false)
  {
  }

  /** No sleep from the `from`th on is over 15 ms, so that a stop is noticed by then, nor past `next`. */
  predicate BriefFrom(sleeps: seq<Nap>, from: nat, next: nat) {
    forall k :: from <= k < |sleeps| ==> 0 < sleeps[k].time <= 15_000_000 && sleeps[k].from + sleeps[k].time <= next
  }

  /** Waits for the next frame's time, noticing the end of the recording. A stop, the limit and a
      closed window are each looked for at every turn, so none of them is there at the first when the
      frame's time comes. */
  method WaitForNext(world: World, started: nat, next: nat, limit: nat) returns (ended: Option<End>)
    requires started <= world.now
    modifies world`now, world`stopRequested, world`windowClosed, world`sleeps
    ensures old(world.now) <= world.now
    ensures (old(world.stopRequested) ==> world.stopRequested) && (old(world.windowClosed) ==> world.windowClosed)
    ensures ended == None ==> next <= world.now && old(world.now) < started + limit
    ensures ended == None ==> !old(world.stopRequested) && !old(world.windowClosed)
    ensures ended.Some? ==> Justified(world, started, limit, ended.value)
    ensures old(world.stopRequested) ==> ended == Some(Stopped) && world.now == old(world.now)
    ensures old(world.sleeps) <= world.sleeps && BriefFrom(world.sleeps, old(|world.sleeps|), next)
  {
    while true
      invariant old(world.now) <= world.now
      invariant (old(world.stopRequested) ==> world.stopRequested) && (old(world.windowClosed) ==> world.windowClosed)
      invariant old(world.stopRequested) ==> world.now == old(world.now)
      invariant old(world.sleeps) <= world.sleeps && BriefFrom(world.sleeps, old(|world.sleeps|), next)
      decreases started + limit - world.now
    {
      if world.stopRequested {
        return Some(Stopped);
      }
      world.Pass(0);
      if world.now >= started + limit {
        return Some(TimeLimit);
      }
      if world.windowClosed {
        return Some(WindowClosed);
      }
      world.Pass(0);
      if world.now >= next {
        return None;
      }
      world.Sleep(if next - world.now < STOP_POLL then next - world.now else STOP_POLL);
    }
  }

  /** One of the six captures from `k` on did not fail. */
  predicate FrameSoon(captures: seq<Capture>, k: nat) {
    exists j :: k <= j <= k + FAILURES_TOLERATED && j < |captures| && captures[j] != Failure
  }

  predicate NoSixFailures(captures: seq<Capture>) {
    forall k: nat :: k + FAILURES_TOLERATED < |captures| ==> FrameSoon(captures, k)
  }

  /** How many failures the captures end with. */
  predicate EndsWithFailures(captures: seq<Capture>, failures: nat) {
    && failures <= |captures| && (failures < |captures| ==> captures[|captures| - failures - 1] != Failure)
    && forall j :: |captures| - failures <= j < |captures| ==> captures[j] == Failure
  }

  lemma OneMoreTry(captures: seq<Capture>, failures: nat, got: Capture)
    requires NoSixFailures(captures) && EndsWithFailures(captures, failures) && failures <= FAILURES_TOLERATED
    ensures EndsWithFailures(captures + [got], if got == Failure then failures + 1 else 0)
    ensures NoSixFailures(captures + [got]) <==> got != Failure || failures < FAILURES_TOLERATED
  {
    var more := captures + [got];
    var n := |captures|;
    forall k: nat | k + FAILURES_TOLERATED < n
      ensures FrameSoon(more, k)
    {
      assert FrameSoon(captures, k);
      var j :| k <= j <= k + FAILURES_TOLERATED && j < n && captures[j] != Failure;
      assert more[j] != Failure;
    }
    if n >= FAILURES_TOLERATED {
      if got != Failure {
        assert more[n] != Failure;
      } else if failures < FAILURES_TOLERATED {
        assert more[n - failures - 1] != Failure;
      } else {
        assert !FrameSoon(more, n - FAILURES_TOLERATED);
      }
    }
  }

  /** What is kept of the frames captured `elapsed` into the recording. */
  predicate OnSchedule(frames: seq<Frame>, interval: nat, limit: nat, elapsed: nat) {
    InTime(frames) && Paced(frames, interval) && Within(frames, elapsed) && OnlyLastIsLate(frames, limit)
  }

  lemma OneMoreFrame(frames: seq<Frame>, frame: Frame, interval: nat, limit: nat, slot: nat, checked: nat)
    requires OnSchedule(frames, interval, limit, checked) && checked < limit
    requires |frames| <= slot && Due(slot, interval) <= frame.at && checked <= frame.at
    ensures OnSchedule(frames + [frame], interval, limit, frame.at)
  {
    DueInOrder(|frames|, slot, interval);
  }

  function Until(now: nat, end: nat): nat {
    if now < end then end - now else 0
  }

  /** When the turn after these is due: an interval after the last was due, or, where that is past,
      after it was taken. */
  function DueAfter(turns: seq<Turn>, started: nat, interval: nat): nat {
    if turns == [] then started + interval
    else
      var last := turns[|turns| - 1];
      if last.due + interval < last.read then last.read + interval else last.due + interval
  }

  /** Every turn is due as the ones before have it, and none is taken before it is due. */
  predicate Scheduled(turns: seq<Turn>, started: nat, interval: nat) {
    turns == [] ||
    (var before, last := turns[..|turns| - 1], turns[|turns| - 1];
     Scheduled(before, started, interval) && last.due == DueAfter(before, started, interval) <= last.read)
  }

  lemma OneMoreTurn(turns: seq<Turn>, started: nat, interval: nat, turn: Turn)
    requires Scheduled(turns, started, interval) && turn.due == DueAfter(turns, started, interval) <= turn.read
    ensures Scheduled(turns + [turn], started, interval)
  {
    assert (turns + [turn])[..|turns|] == turns;
  }

  /** As long as no turn has overrun a whole interval, turns are due on the beat: one late for any other
      reason delays none after it. */
  lemma {:induction false} TurnsKeepTheBeat(turns: seq<Turn>, started: nat, interval: nat)
    requires Scheduled(turns, started, interval)
    requires forall k :: 0 <= k < |turns| ==> turns[k].read <= turns[k].due + interval
    ensures DueAfter(turns, started, interval) == started + Due(|turns| + 1, interval)
  {
    assert Due(|turns| + 1, interval) == Due(|turns|, interval) + interval;
    if turns != [] {
      TurnsKeepTheBeat(turns[..|turns| - 1], started, interval);
    }
  }

  /** Reschedules: from the schedule, or from now where a whole interval was overrun. The next frame
      is never due in the past nor more than an interval ahead. */
  method Reschedule(world: World, due: nat, interval: nat) returns (next: nat)
    requires due <= world.now
    modifies world`now, world`stopRequested, world`windowClosed, world`turns
    ensures old(world.now) <= world.now && due + interval <= next
    ensures world.now <= next <= world.now + interval
    ensures world.turns == old(world.turns) + [Turn(due, world.now)]
    ensures next == if world.now <= due + interval then due + interval else world.now + interval
  {
    world.Pass(0);
    next := due + interval;
    if next < world.now {
      next := world.now + interval;
    }
    world.turns := world.turns + [Turn(due, world.now)];
  }

  /** One turn at the source: a frame into the queue, or why not. */
  method TakeFrame(queue: FrameQueue, world: World, started: nat) returns (got: Capture, ghost at: nat)
    requires Attached(queue, world) && queue.closedAt == None && started <= world.now
    modifies queue, world`now, world`stopRequested, world`windowClosed, world`encoder, world`captures
    ensures Attached(queue, world) && queue.closedAt == None
    ensures old(queue.failed) ==> queue.failed
    ensures old(world.now) - started <= at <= world.now - started
    ensures got == Gone ==> world.windowClosed
    ensures world.captures == old(world.captures) + [got]
    ensures queue.pushed ==
      if Converts(got) && !queue.failed then old(queue.pushed) + [Frame(got.pixels, at)] else old(queue.pushed)
  {
    got := world.NextFrame(queue.bytes);
    world.EncoderRuns(queue);
    world.Pass(0);
    at := world.now - started;
    if Converts(got) {
      HandOver(queue, world, Frame(got.pixels, world.now - started));
    }
  }

  method HandOver(queue: FrameQueue, world: World, frame: Frame)
    requires Attached(queue, world) && queue.closedAt == None && |frame.pixels| == queue.bytes
    modifies queue
    ensures Attached(queue, world) && queue.closedAt == None && queue.failed == old(queue.failed)
    ensures queue.pushed == if queue.failed then old(queue.pushed) else old(queue.pushed) + [frame]
  {
    queue.Push(frame);
  }

  /** The end of `record_into`: closes the queue, waits for the encoder and reports. */
  method Finish(queue: FrameQueue, world: World, started: nat, limit: nat, captured: nat, ended: End, inFile: bool)
    returns (r: Recording)
    requires Attached(queue, world) && queue.closedAt == None && world.sizeReads == []
    requires Captured(queue.pushed, Shots(world.captures), queue.failed) && captured == |Shots(world.captures)|
    requires started <= world.now && Within(queue.pushed, world.now - started)
    requires ended == TimeLimit ==> started + limit <= world.now
    modifies queue, world`now, world`stopRequested, world`windowClosed, world`encoder, world`sizeReads
    ensures Attached(queue, world) && queue.pushed == old(queue.pushed) && queue.closedAt.Some?
    ensures old(world.now) <= world.now
    ensures (old(world.stopRequested) ==> world.stopRequested) && (old(world.windowClosed) ==> world.windowClosed)
    ensures old(queue.failed) ==> queue.failed
    ensures Outcome(world, inFile, r)
    ensures r.Report? ==> Reported(queue, r, limit) && r.captured == captured && r.ended == ended
    ensures r.Report? && r.duration < limit ==> old(world.now) - started <= r.duration <= world.now - started
    ensures r.Report? && r.duration == limit ==> limit <= world.now - started
  {
    world.Pass(0);
    var elapsed := world.now - started;
    var duration := if elapsed < limit then elapsed else limit;
    queue.Close(duration);
    world.JoinEncoder(queue);
    r := ReportOn(queue, world, duration, captured, ended, inFile);
  }

  /** The report, once the encoder has ended. */
  method ReportOn(queue: FrameQueue, world: World, duration: nat, captured: nat, ended: End, inFile: bool)
    returns (r: Recording)
    requires world.encoder != Running && world.sizeReads == []
    modifies world`sizeReads
    ensures Outcome(world, inFile, r)
    ensures r.Report? ==> r == Report(duration, captured, queue.dropped, ended)
  {
    if world.encoder == Panicked {
      return EncoderFailed;
    }
    if world.encoder.Broke? {
      return if world.encoder.fault == Encoding then EncoderFailed else FileFailed;
    }
    if inFile {
      var read := world.ReadSize();
      if !read {
        return FileFailed;
      }
    }
    r := Report(duration, captured, queue.dropped, ended);
  }

  /** What a recording whose loop came to an end comes to, by what happened outside: the size of a file
      is read once it is written, and that of a recording in memory is known. */
  ghost predicate Outcome(world: World, inFile: bool, r: Recording)
    reads world
  {
    && (r.Report? || r == EncoderFailed || r == FileFailed)
    && |world.sizeReads| == (if inFile && world.encoder == Wrote then 1 else 0)
    && (r.Report? <==> world.encoder == Wrote && false !in world.sizeReads)
    && (r == EncoderFailed <==> world.encoder == Panicked || world.encoder == Broke(Encoding))
    && (r == FileFailed <==> world.encoder == Broke(Writing) || (world.encoder == Wrote && false in world.sizeReads))
  }

  /** What a report says of its recording: every captured frame was encoded or dropped, the newest
      was encoded, and a frame is stamped past the recording's end exactly if it is past the limit. */
  ghost predicate Reported(queue: FrameQueue, r: Recording, limit: nat)
    requires r.Report?
    reads queue
  {
    && queue.closedAt == Some(r.duration) && !queue.failed && queue.frames == []
    && r.captured == |queue.pushed| == |queue.taken| + r.dropped
    && |queue.written| == |queue.taken| && queue.taken != [] && queue.taken[|queue.taken| - 1] == r.captured - 1
    && r.duration <= limit && (r.ended == TimeLimit ==> r.duration == limit)
    && forall k :: 0 <= k < r.captured ==> (queue.pushed[k].at <= r.duration <==> queue.pushed[k].at <= limit)
  }

  /** Between two captures: the queue open, every capture in it, the schedule kept. */
  ghost predicate Underway(queue: FrameQueue, world: World, started: nat, interval: nat, limit: nat)
    reads queue, world
  {
    && Attached(queue, world) && queue.closedAt == None && started <= world.now
    && Captured(queue.pushed, Shots(world.captures), queue.failed)
    && OnSchedule(queue.pushed, interval, limit, world.now - started)
    && !world.threadRefused && world.sizeReads == []
  }

  /** One capture for the first frame and for every turn, each in its time, and the next due at `due`. */
  ghost predicate InSchedule(world: World, started: nat, interval: nat, due: nat)
    reads world
  {
    && |world.captures| == |world.turns| + 1 && Scheduled(world.turns, started, interval)
    && due == DueAfter(world.turns, started, interval)
  }

  /** Waits for the next frame's time with the encoder at work, and sees whether it still is. */
  method AwaitTurn(queue: FrameQueue, world: World, started: nat, due: nat, limit: nat) returns (ended: Option<End>)
    requires Attached(queue, world) && started <= world.now
    modifies queue, world`now, world`stopRequested, world`windowClosed, world`encoder, world`sleeps
    ensures Attached(queue, world) && queue.closedAt == old(queue.closedAt) && queue.pushed == old(queue.pushed)
    ensures (old(queue.failed) ==> queue.failed) && old(world.now) <= world.now
    ensures ended == None ==> !queue.failed && old(world.now) < started + limit && due <= world.now
    ensures ended.Some? ==> Justified(world, started, limit, ended.value) || (ended == Some(Stopped) && queue.failed)
  {
    world.EncoderRuns(queue);
    ended := WaitForNext(world, started, due, limit);
    world.EncoderRuns(queue);
    if ended == None && queue.failed {
      ended := Some(Stopped);
    }
  }

  /** One round of the loop: waits for its turn, then takes a frame, unless the recording ends. */
  method TakeTurn(queue: FrameQueue, world: World, started: nat, interval: nat, limit: nat, due: nat, ghost slot: nat)
    returns (ended: Option<End>, got: Capture, next: nat)
    requires Underway(queue, world, started, interval, limit)
    requires |queue.pushed| <= slot && Due(slot, interval) <= due - started && 0 < interval
    requires InSchedule(world, started, interval, due)
    modifies queue, world
    ensures Underway(queue, world, started, interval, limit) && old(world.now) <= world.now
    ensures ended.Some? ==> Justified(world, started, limit, ended.value) || (ended == Some(Stopped) && queue.failed)
    ensures ended == None && got == Gone ==> world.windowClosed
    ensures world.captures == if ended == None then old(world.captures) + [got] else old(world.captures)
    ensures InSchedule(world, started, interval, if ended == None then next else due)
    ensures ended == None ==> Due(slot + 1, interval) <= next - started && due < next
    ensures ended == None ==> old(world.now) < started + limit && due <= world.now
  {
    next, got := due, Failure;
    ghost var checked := world.now - started;
    ended := AwaitTurn(queue, world, started, due, limit);
    if ended.Some? {
      return;
    }
    next := Reschedule(world, due, interval);
    OneMoreTurn(old(world.turns), started, interval, world.turns[|world.turns| - 1]);
    got := TakeFrameInTurn(queue, world, started, interval, limit, slot, checked);
  }

  /** The frame, when it is due, of a recording found within its limit `checked` into it. */
  method TakeFrameInTurn(
    queue: FrameQueue, world: World, started: nat, interval: nat, limit: nat, ghost slot: nat, ghost checked: nat)
    returns (got: Capture)
    requires Underway(queue, world, started, interval, limit)
    requires OnSchedule(queue.pushed, interval, limit, checked) && checked < limit && started + checked <= world.now
    requires |queue.pushed| <= slot && Due(slot, interval) <= world.now - started
    modifies queue, world`now, world`stopRequested, world`windowClosed, world`encoder, world`captures
    ensures Underway(queue, world, started, interval, limit) && old(world.now) <= world.now
    ensures got == Gone ==> world.windowClosed
    ensures world.captures == old(world.captures) + [got]
  {
    ghost var frames := queue.pushed;
    ghost var at;
    got, at := TakeFrame(queue, world, started);
    OneMoreCapture(old(world.captures), got);
    if Converts(got) {
      OneMoreFrame(frames, Frame(got.pixels, at), interval, limit, slot, checked);
      OneMoreCaptured(frames, Shots(old(world.captures)), old(queue.failed), Frame(got.pixels, at));
    }
  }

  /** What the loop's counters say of the captures so far, none of which ended it. */
  ghost predicate Tally(captures: seq<Capture>, captured: nat, failures: nat) {
    && NoSixFailures(captures) && EndsWithFailures(captures, failures) && failures <= FAILURES_TOLERATED
    && captured == |Shots(captures)| && !EndsUnconverted(captures)
  }

  lemma NextTally(captures: seq<Capture>, captured: nat, failures: nat, got: Capture)
    requires Tally(captures, captured, failures)
    ensures Converts(got) ==> Tally(captures + [got], captured + 1, 0)
    ensures got == Failure && failures < FAILURES_TOLERATED ==> Tally(captures + [got], captured, failures + 1)
    ensures NoSixFailures(captures + [got]) <==> got != Failure || failures < FAILURES_TOLERATED
    ensures !Converts(got) ==> captured == |Shots(captures + [got])|
  {
    OneMoreTry(captures, failures, got);
    OneMoreCapture(captures, got);
  }

  predicate EndsUnconverted(captures: seq<Capture>) {
    captures != [] && captures[|captures| - 1].Shot? && !Converts(captures[|captures| - 1])
  }

  /** Why the loop is over. */
  datatype Halt = Ended(end: End) | SixFailures | NotConverted

  /** What is known once the loop is over. */
  ghost predicate Halted(
    queue: FrameQueue, world: World, started: nat, interval: nat, limit: nat, captured: nat, halt: Halt)
    reads queue, world
  {
    && Underway(queue, world, started, interval, limit)
    && captured == |Shots(world.captures)|
    && |world.captures| == |world.turns| + 1 && Scheduled(world.turns, started, interval)
    && (halt == NotConverted <==> EndsUnconverted(world.captures))
    && (halt == SixFailures <==> !NoSixFailures(world.captures))
    && (halt.Ended? ==> Justified(world, started, limit, halt.end) || (halt.end == Stopped && queue.failed))
  }

  /** One round with its reckoning: the counters go on to the next round, or the loop is over. */
  method CountedTurn(
    queue: FrameQueue, world: World, started: nat, interval: nat, limit: nat, captured: nat, failures: nat, due: nat,
    ghost slot: nat)
    returns (halt: Option<Halt>, captured': nat, failures': nat, next: nat)
    requires Underway(queue, world, started, interval, limit) && 0 < interval
    requires Tally(world.captures, captured, failures)
    requires |queue.pushed| <= slot && Due(slot, interval) <= due - started
    requires InSchedule(world, started, interval, due)
    modifies queue, world
    ensures halt.Some? ==> Halted(queue, world, started, interval, limit, captured', halt.value)
    ensures halt == None ==> Underway(queue, world, started, interval, limit)
    ensures halt == None ==> Tally(world.captures, captured', failures') && InSchedule(world, started, interval, next)
    ensures halt == None ==> Due(slot + 1, interval) <= next - started && due < next
    ensures captured' <= captured + 1 && old(world.captures) <= world.captures
    ensures halt == None ==> old(world.now) < started + limit && due <= world.now
  {
    ghost var before := world.captures;
    var ended, got;
    ended, got, next := TakeTurn(queue, world, started, interval, limit, due, slot);
    captured', failures', halt := captured, 0, None;
    if ended.Some? {
      halt := Some(Ended(ended.value));
      return;
    }
    NextTally(before, captured, failures, got);
    match got {
      case Gone => halt := Some(Ended(WindowClosed));
      case Shot(_, _, _, _) =>
        if Converts(got) {
          captured' := captured + 1;
        } else {
          halt := Some(NotConverted);
        }
      case Failure =>
        failures' := failures + 1;
        if failures' > FAILURES_TOLERATED {
          halt := Some(SixFailures);
        }
    }
  }

  /** The loop of `record_into`. */
  method Pace(queue: FrameQueue, world: World, started: nat, interval: nat, limit: nat)
    returns (halt: Halt, captured: nat)
    requires Underway(queue, world, started, interval, limit) && 0 < interval && Tally(world.captures, 1, 0)
    requires |world.captures| == 1 && world.turns == []
    modifies queue, world
    ensures Halted(queue, world, started, interval, limit, captured, halt)
    ensures old(world.captures) <= world.captures
  {
    ghost var slot := 1;
    var failures, due := 0, started + interval;
    captured := 1;
    while true
      invariant Underway(queue, world, started, interval, limit)
      invariant Tally(world.captures, captured, failures) && old(world.captures) <= world.captures
      invariant captured <= slot && Due(slot, interval) <= due - started
      invariant InSchedule(world, started, interval, due)
      decreases Until(due, started + limit), Until(world.now, started + limit)
    {
      var over;
      over, captured, failures, due := CountedTurn(queue, world, started, interval, limit, captured, failures, due, slot);
      if over.Some? {
        return over.value, captured;
      }
      slot := slot + 1;
    }
  }

  /** The first capture came to nothing: it failed, or the area to be recorded is not on its display,
      or there was no thread for the encoder. */
  ghost predicate NeverStarted(world: World, whole: bool)
    reads world
  {
    || world.threadRefused
    || (|world.captures| == 1 && (!world.captures[0].Shot? || (!whole && !world.captures[0].meets)))
  }

  /** What a recording that started comes to, by the captures and by what became of the encoder and
      its file. A frame that does not convert leaves the encoder waiting on an open queue. */
  ghost predicate Told(queue: FrameQueue, world: World, started: nat, limit: nat, inFile: bool, r: Recording)
    reads queue, world
  {
    && r != NotStarted
    && (r == PixelsFailed <==> EndsUnconverted(world.captures))
    && (queue.closedAt == None <==> EndsUnconverted(world.captures))
    && (r == SourceFailed <==> !NoSixFailures(world.captures))
    && (r == SourceFailed ==>
         started <= world.now && queue.closedAt == Some(world.now - started) && world.encoder != Running)
    && (queue.closedAt.Some? && NoSixFailures(world.captures) ==> Outcome(world, inFile, r))
    && (r.Report? ==>
         && Reported(queue, r, limit) && Justified(world, started, limit, r.ended)
         && Captured(queue.pushed, Shots(world.captures), false))
  }

  /** `record_into`, for a window's frames (`whole`) or an area of a display's. */
  method RecordInto(queue: FrameQueue, world: World, interval: nat, limit: nat, whole: bool, inFile: bool)
    returns (r: Recording)
    requires queue.Valid() && queue.Unused() && 0 < interval && world.Untouched()
    modifies queue, world
    ensures old(world.now) <= world.now && Attached(queue, world)
    ensures OnSchedule(queue.pushed, interval, limit, world.now - old(world.now))
    ensures |world.captures| == |world.turns| + 1 && Scheduled(world.turns, old(world.now), interval)
    ensures r == NotStarted <==> NeverStarted(world, whole)
    ensures r == NotStarted ==> queue.pushed == [] && queue.closedAt == None
    ensures r != NotStarted ==> Told(queue, world, old(world.now), limit, inFile, r)
  {
    var started := world.now;
    var first := world.NextFrame(queue.bytes);
    if !first.Shot? || (!whole && !first.meets) {
      return NotStarted;
    }
    var refused := world.SpawnEncoder();
    if refused {
      return NotStarted;
    }
    if !Converts(first) {
      return PixelsFailed;
    }
    r := RecordFrom(queue, world, started, interval, limit, inFile, first);
  }

  /** The rest of it, from the first frame on. */
  method RecordFrom(
    queue: FrameQueue, world: World, started: nat, interval: nat, limit: nat, inFile: bool, first: Capture)
    returns (r: Recording)
    requires queue.Valid() && queue.Unused() && started <= world.now
    requires Converts(first) && |first.pixels| == queue.bytes && world.captures == [first]
    requires world.encoder == Running && !world.threadRefused && world.sizeReads == [] && 0 < interval
    requires world.turns == []
    modifies queue, world
    ensures Attached(queue, world) && started <= world.now && Scheduled(world.turns, started, interval)
    ensures |world.captures| == |world.turns| + 1
    ensures OnSchedule(queue.pushed, interval, limit, world.now - started)
    ensures !world.threadRefused && world.captures != [] && world.captures[0] == first
    ensures Told(queue, world, started, limit, inFile, r)
  {
    PushFirst(queue, world, started, interval, limit, first);
    var halt, captured := Pace(queue, world, started, interval, limit);
    r := Conclude(queue, world, started, interval, limit, captured, halt, inFile);
  }

  method PushFirst(queue: FrameQueue, world: World, started: nat, interval: nat, limit: nat, first: Capture)
    requires queue.Valid() && queue.Unused() && started <= world.now
    requires Converts(first) && |first.pixels| == queue.bytes && world.captures == [first]
    requires world.encoder == Running && !world.threadRefused && world.sizeReads == []
    modifies queue
    ensures Underway(queue, world, started, interval, limit) && Tally(world.captures, 1, 0)
  {
    queue.Push(Frame(first.pixels, 0));
    OneMoreCapture([], first);
    assert [] + [first] == [first];
  }

  /** The end of a recording whose loop is over. */
  method Conclude(queue: FrameQueue, world: World, started: nat, interval: nat, limit: nat, captured: nat, halt: Halt,
                  inFile: bool)
    returns (r: Recording)
    requires Halted(queue, world, started, interval, limit, captured, halt)
    modifies queue, world`now, world`stopRequested, world`windowClosed, world`encoder, world`sizeReads
    ensures Attached(queue, world) && started <= world.now && Scheduled(world.turns, started, interval)
    ensures OnSchedule(queue.pushed, interval, limit, world.now - started)
    ensures Told(queue, world, started, limit, inFile, r)
  {
    match halt {
      case Ended(end) => r := Finish(queue, world, started, limit, captured, end, inFile);
      case SixFailures =>
        queue.Close(world.now - started);
        world.JoinEncoder(queue);
        r := SourceFailed;
      case NotConverted => r := PixelsFailed;
    }
  }
}
