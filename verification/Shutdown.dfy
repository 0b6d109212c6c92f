/** The shutdown coordinator (worker_registry.rs): one deadline split among several waits. Times are
    in milliseconds. */
module Shutdown {
  import opened Wrappers

  const SHUTDOWN_TIMEOUT := 3000
  const TEARDOWN_RESERVE := 500
  const JOIN_POLL := 10

  function Max(a: nat, b: nat): (m: nat)
    ensures m >= a && m >= b && (m == a || m == b)
  {
    if a < b then b else a
  }

  /** The latest end of an earlier wait that leaves `reserve` of the budget, or now. */
  function ReservedDeadline(now: nat, deadline: nat, reserve: nat): (r: nat)
    ensures now <= r
    ensures now + reserve <= deadline ==> r + reserve == deadline
    ensures deadline < now + reserve ==> r == now
  {
    Max(if reserve <= deadline then deadline - reserve else now, now)
  }

  function GuaranteedDeadline(now: nat, deadline: nat, minimum: nat): (r: nat)
    ensures deadline <= r && now + minimum <= r && (r == deadline || r == now + minimum)
  {
    Max(deadline, now + minimum)
  }

  // ---- Time and threads ----

  /** A sleep takes at least its time and at most `slack` more; nothing else takes any here but what
      is said to. */
  class Clock {
    const slack: nat
    var now: nat

    constructor (slack: nat, now: nat)
      ensures this.slack == slack && this.now == now
    {
      this.slack, this.now := slack, now;
    }

    method Sleep(time: nat)
      modifies this
      ensures old(now) + time <= now <= old(now) + time + slack
    {
      var later :| now + time <= later <= now + time + slack;
      now := later;
    }

    /** Some other work, of any length. */
    method Pass()
      modifies this
      ensures old(now) <= now
    {
      var later :| now <= later;
      now := later;
    }
  }

  class Thread {
    var finished: bool

    constructor ()
    {
      finished := false;
    }

    /** It runs on, and perhaps ends. */
    method Runs()
      modifies this
      ensures old(finished) ==> finished
    {
      if * {
        finished := true;
      }
    }
  }

  /** The polling wait of `join_capture_worker_until` and of the workers' `stop_inner`: it ends no
      later than one sleep past its deadline, whatever the thread does, and gives up on the thread only
      at the deadline. */
  method WaitUntilFinished(thread: Thread, clock: Clock, deadline: nat, poll: nat) returns (joined: bool)
    requires 0 < poll
    modifies thread, clock
    ensures old(clock.now) <= clock.now
    ensures clock.now == old(clock.now) || clock.now < deadline + poll + clock.slack
    ensures joined <==> thread.finished
    ensures !joined ==> deadline <= clock.now
    ensures old(thread.finished) ==> joined && clock.now == old(clock.now)
  {
    while true
      invariant old(clock.now) <= clock.now
      invariant clock.now == old(clock.now) || clock.now < deadline + poll + clock.slack
      invariant old(thread.finished) ==> thread.finished && clock.now == old(clock.now)
      decreases deadline - clock.now
    {
      thread.Runs();
      if thread.finished {
        return true;
      }
      if clock.now >= deadline {
        break;
      }
      clock.Sleep(poll);
    }
    thread.Runs();
    joined := thread.finished;
  }

  // ---- The registry ----

  datatype Command = Stop | Other
  datatype Part = Capture | Selection | Clipboard | FileOutput | Hotkey

  /** The capture worker's bounded command channel. */
  class CommandQueue {
    const capacity: nat
    var connected: bool
    var commands: seq<Command>

    constructor (capacity: nat)
      ensures this.capacity == capacity && connected && commands == []
    {
      this.capacity, connected, commands := capacity, true, [];
    }

    method TrySend(c: Command) returns (full: bool, sent: bool)
      modifies this
      ensures connected == old(connected)
      ensures full <==> old(connected && |commands| >= capacity)
      ensures sent <==> old(connected && |commands| < capacity)
      ensures commands == if sent then old(commands) + [c] else old(commands)
    {
      full, sent := connected && |commands| >= capacity, connected && |commands| < capacity;
      if sent {
        commands := commands + [c];
      }
    }
  }

  /** One worker's `stop_before`: by when it was to end, when it began and when it returned. */
  datatype StopCall = StopCall(part: Part, deadline: nat, begun: nat, ended: nat)

  /** The workers but the capture worker, each of which waits for its thread in its own way. */
  class Others {
    ghost var calls: seq<StopCall>

    constructor ()
      ensures calls == []
    {
      calls := [];
    }

    method StopBefore(part: Part, clock: Clock, deadline: nat)
      modifies this, clock
      ensures old(clock.now) <= clock.now
      ensures calls == old(calls) + [StopCall(part, deadline, old(clock.now), clock.now)]
    {
      ghost var begun := clock.now;
      clock.Pass();
      calls := calls + [StopCall(part, deadline, begun, clock.now)];
    }
  }

  function Only(part: Part, present: set<Part>): seq<Part> {
    if part in present then [part] else []
  }

  /** The order in which `teardown` stops them, if they are there. */
  function Order(present: set<Part>): seq<Part> {
    Only(Hotkey, present) + Only(Selection, present) + Only(Clipboard, present) + Only(FileOutput, present)
  }

  /** The calls stop these workers in order, by `deadline`: one begins as the one before returns, but
      for the one at `gap`. */
  predicate InTurn(calls: seq<StopCall>, order: seq<Part>, gap: nat, deadline: nat) {
    && |calls| == |order|
    && (forall i :: 0 <= i < |calls| ==>
         calls[i].part == order[i] && calls[i].deadline == deadline && calls[i].begun <= calls[i].ended)
    && (forall i :: 0 < i < |calls| && i != gap ==> calls[i].begun == calls[i - 1].ended)
  }

  /** What the wait for the capture worker, from `stopped` on, leaves the next worker: the reserve but
      for `late`, or at once where that was not there any more. */
  predicate LeavesReserve(stopped: nat, begun: nat, deadline: nat, late: nat) {
    && stopped <= begun
    && (stopped + TEARDOWN_RESERVE <= deadline ==> begun + TEARDOWN_RESERVE <= deadline + late)
    && (deadline < stopped + TEARDOWN_RESERVE ==> begun <= stopped + late)
  }

  /** Why the daemon's loop is over. */
  datatype LoopEnd = Expired | Reported

  class WorkerRegistry {
    const clock: Clock
    const queue: CommandQueue
    const capture: Thread
    const others: Others
    var present: set<Part>
    var paused: bool
    var asked: set<Part>
    var deadline: Option<nat>
    var shutdownSent: bool
    /** When a shutdown was asked for, time after time, and how many stop commands
        `send_capture_shutdown` got through. */
    ghost var requests: seq<nat>
    ghost var stops: nat
    /** What the daemon's loop met: when it was asked to stop, when each of its waits began, and whether the
        capture worker reported its end. */
    ghost var asks: seq<nat>
    ghost var waits: seq<nat>
    ghost var reported: bool

    constructor (clock: Clock, queue: CommandQueue, capture: Thread, others: Others, present: set<Part>)
      requires Capture in present
      ensures this.clock == clock && this.queue == queue && this.capture == capture && this.others == others
      ensures this.present == present
      ensures Valid() && Untouched()
    {
      this.clock, this.queue, this.capture, this.others, this.present := clock, queue, capture, others, present;
      paused, asked, deadline, shutdownSent := false, {}, None, false;
      requests, stops, asks, waits, reported := [], 0, [], [], false;
    }

    ghost predicate Untouched()
      reads this
    {
      deadline == None && !shutdownSent && requests == asks == waits == [] && !reported
    }

    /** Once shutdown has begun everyone there has been asked to stop, and the deadline is that of the
        first request, however many followed. */
    ghost predicate Valid()
      reads this
    {
      && Capture in present
      && deadline == (if requests == [] then None else Some(requests[0] + SHUTDOWN_TIMEOUT))
      && (deadline.Some? ==> paused && asked == present)
      && stops <= 1 && (stops == 1 ==> shutdownSent)
    }

    method RequestStopAll()
      modifies this`paused, this`asked
      ensures paused && asked == present
    {
      paused, asked := true, present;
    }

    /** The first request owns the deadline; later ones change nothing. */
    method BeginShutdown()
      requires Valid()
      modifies this`deadline, this`requests, this`paused, this`asked
      ensures Valid() && requests == old(requests) + [clock.now]
      ensures old(deadline).Some? ==>
        deadline == old(deadline) && paused == old(paused) && asked == old(asked)
      ensures old(deadline) == None ==> deadline == Some(clock.now + SHUTDOWN_TIMEOUT)
    {
      requests := requests + [clock.now];
      if deadline.Some? {
        return;
      }
      deadline := Some(clock.now + SHUTDOWN_TIMEOUT);
      RequestStopAll();
    }

    predicate DeadlineExpired()
      reads this, clock
    {
      deadline.Some? && deadline.value <= clock.now
    }

    /** Sends the stop command once, trying again while the queue is full. */
    method SendCaptureShutdown()
      requires Valid()
      modifies this`shutdownSent, this`stops, queue
      ensures Valid()
      ensures old(shutdownSent) ==> shutdownSent && queue.commands == old(queue.commands) && stops == old(stops)
      ensures !old(shutdownSent) ==>
        (shutdownSent <==> old(!queue.connected || |queue.commands| < queue.capacity))
      ensures queue.connected == old(queue.connected)
      ensures queue.commands == old(queue.commands) || queue.commands == old(queue.commands) + [Stop]
      ensures stops == old(stops) + |queue.commands| - old(|queue.commands|)
    {
      if shutdownSent {
        return;
      }
      var full, sent := queue.TrySend(Stop);
      if !full {
        shutdownSent := true;
      }
      if sent {
        stops := stops + 1;
      }
    }

    /** Whether anybody asks for a stop now. */
    method StopAsked() returns (asked: bool)
      modifies this`asks
      ensures asks == old(asks) + if asked then [clock.now] else []
    {
      asked := *;
      if asked {
        asks := asks + [clock.now];
      }
    }

    /** The loop's wait for the capture worker's report, while that takes commands, ends, or both, and other
        commands come. */
    method WaitForReport() returns (done: bool)
      modifies this`waits, this`reported, queue, clock, capture
      ensures old(clock.now) <= clock.now && (old(capture.finished) ==> capture.finished)
      ensures waits == old(waits) + [old(clock.now)] && reported == (old(reported) || done)
    {
      waits := waits + [clock.now];
      queue.commands := *;
      queue.connected := *;
      clock.Pass();
      capture.Runs();
      done := *;
      reported := reported || done;
    }

    /** A stop that is asked for is begun. */
    method BeginIfAsked(ghost from: nat)
      requires Valid() && requests == asks && InTime() && AskedSince(from)
      modifies this`asks, this`deadline, this`requests, this`paused, this`asked
      ensures Valid() && requests == asks && InTime() && AskedSince(from)
      ensures asks == old(asks) || asks == old(asks) + [clock.now]
    {
      var asked := StopAsked();
      if asked {
        BeginShutdown();
      }
    }

    /** The wait of a round whose deadline has not passed. */
    method WaitInTime(ghost from: nat) returns (done: bool)
      requires Valid() && requests == asks && InTime() && AskedSince(from) && !DeadlineExpired()
      modifies this`waits, this`reported, queue, clock, capture
      ensures Valid() && InTime() && AskedSince(from) && old(clock.now) <= clock.now
      ensures waits == old(waits) + [old(clock.now)] && reported == (old(reported) || done)
    {
      done := WaitForReport();
    }

    /** One round of the loop: it is over when the deadline has passed or the capture worker reports; else,
        once a stop was asked for, the command is sent, or the queue is too full for it. */
    method DaemonRound(ghost from: nat) returns (over: Option<LoopEnd>)
      requires Valid() && requests == asks && !reported && InTime() && AskedSince(from)
      modifies this`asks, this`waits, this`reported, this`deadline, this`requests, this`paused, this`asked
      modifies this`shutdownSent, this`stops, queue, clock, capture
      ensures Valid() && requests == asks && old(clock.now) <= clock.now && old(asks) <= asks
      ensures InTime() && AskedSince(from)
      ensures over == Some(Expired) ==> DeadlineExpired() && !reported && waits == old(waits)
      ensures over != Some(Expired) ==> waits == old(waits) + [old(clock.now)]
      ensures reported <==> over == Some(Reported)
      ensures over == None && asks != [] ==> shutdownSent || (queue.connected && queue.capacity <= |queue.commands|)
    {
      BeginIfAsked(from);
      if DeadlineExpired() {
        return Some(Expired);
      }
      var done := WaitInTime(from);
      if done {
        return Some(Reported);
      }
      BeginIfAsked(from);
      if deadline.Some? {
        SendCaptureShutdown();
      }
      over := None;
    }

    /** No wait began once three seconds had passed since the first request. */
    ghost predicate InTime()
      reads this`waits, this`asks, clock
    {
      forall i :: 0 <= i < |waits| ==> waits[i] <= clock.now && (asks != [] ==> waits[i] < asks[0] + 3000)
    }

    /** Every request came in turn, since `from`. */
    ghost predicate AskedSince(from: nat)
      reads this`asks, clock
    {
      from <= clock.now && forall i :: 0 <= i < |asks| ==> from <= asks[0] <= asks[i] <= clock.now
    }

    /** Any number of rounds of the daemon's loop, with any requests to stop in them: the deadline is the
        first request's, no wait begins after it, and one stop command at most was sent, if the queue had
        room for it. */
    method DaemonLoop(rounds: nat) returns (over: Option<LoopEnd>)
      requires Valid() && Untouched()
      modifies this`asks, this`waits, this`reported, this`deadline, this`requests, this`paused, this`asked
      modifies this`shutdownSent, this`stops, queue, clock, capture
      ensures Valid() && stops <= 1 && old(clock.now) <= clock.now && requests == asks && InTime()
      ensures deadline == if asks == [] then None else Some(asks[0] + 3000)
      ensures AskedSince(old(clock.now))
      ensures over == Some(Expired) ==> asks != [] && asks[0] + 3000 <= clock.now && !reported
      ensures reported <==> over == Some(Reported)
      ensures over == None ==> |waits| == rounds
      ensures over == None && 0 < rounds && asks != [] ==>
        shutdownSent || (queue.connected && queue.capacity <= |queue.commands|)
    {
      over := None;
      for round := 0 to rounds
        invariant Valid() && old(clock.now) <= clock.now && requests == asks && !reported && InTime()
        invariant |waits| == round && over == None
        invariant AskedSince(old(clock.now))
        invariant 0 < round && asks != [] ==> shutdownSent || (queue.connected && queue.capacity <= |queue.commands|)
      {
        over := DaemonRound(old(clock.now));
        if over.Some? {
          return;
        }
      }
    }

    /** The stop of the hotkey listener and of the capture worker, and the time each was over. */
    method StopCapture(end: nat) returns (joined: bool, stopped: nat)
      requires others.calls == []
      modifies queue, clock, capture, others
      ensures InTurn(others.calls, Only(Hotkey, present), |Only(Hotkey, present)|, end)
      ensures old(clock.now) <= stopped && LeavesReserve(stopped, clock.now, end, JOIN_POLL + clock.slack)
      ensures others.calls == if Hotkey in present then [StopCall(Hotkey, end, old(clock.now), stopped)] else []
      ensures Hotkey !in present ==> stopped == old(clock.now)
      ensures queue.commands ==
        old(if queue.connected && |queue.commands| < queue.capacity then queue.commands + [Stop] else queue.commands)
      ensures joined <==> capture.finished
      ensures !joined ==> ReservedDeadline(stopped, end, TEARDOWN_RESERVE) <= clock.now
    {
      if Hotkey in present {
        others.StopBefore(Hotkey, clock, end);
      }
      stopped := clock.now;
      var _, _ := queue.TrySend(Stop);
      joined := WaitUntilFinished(
        capture, clock, ReservedDeadline(clock.now, end, TEARDOWN_RESERVE), JOIN_POLL);
    }

    /** Stops one more worker, if it is there. */
    method StopNext(part: Part, end: nat, ghost order: seq<Part>, ghost gap: nat)
      requires InTurn(others.calls, order, gap, end) && gap <= |others.calls|
      requires gap < |others.calls| ==> others.calls[|others.calls| - 1].ended == clock.now
      modifies clock, others
      ensures InTurn(others.calls, order + Only(part, present), gap, end) && old(others.calls) <= others.calls
      ensures gap < |others.calls| ==> others.calls[|others.calls| - 1].ended == clock.now
      ensures |old(others.calls)| == gap < |others.calls| ==> others.calls[gap].begun == old(clock.now)
      ensures |others.calls| == gap ==> clock.now == old(clock.now)
    {
      if part in present {
        others.StopBefore(part, clock, end);
      }
    }

    /** The workers after the capture worker. */
    method StopRest(end: nat, ghost order: seq<Part>)
      requires InTurn(others.calls, order, |order|, end)
      modifies clock, others
      ensures old(others.calls) <= others.calls
      ensures InTurn(others.calls, order + Only(Selection, present) + Only(Clipboard, present) + Only(FileOutput, present),
        |order|, end)
      ensures |order| < |others.calls| ==> others.calls[|order|].begun == old(clock.now)
    {
      StopNext(Selection, end, order, |order|);
      StopNext(Clipboard, end, order + Only(Selection, present), |order|);
      StopNext(FileOutput, end, order + Only(Selection, present) + Only(Clipboard, present), |order|);
    }

    /** By when a teardown that begins now is to be over. */
    function EndBy(now: nat): nat
      reads this`deadline
    {
      if deadline.Some? then deadline.value else now + SHUTDOWN_TIMEOUT
    }

    /** `teardown`: every worker there is stopped once, in order, against the one deadline. Where the
        hotkey listener's stop left the reserve, the worker stopped after the capture worker, which
        owns the last write of the interface's state, has it less one poll, however long the capture
        worker takes. */
    method Teardown() returns (joined: bool)
      requires Valid() && others.calls == []
      modifies this`paused, this`asked, queue, clock, capture, others
      ensures paused && asked == present
      ensures InTurn(others.calls, Order(present), |Only(Hotkey, present)|, EndBy(old(clock.now)))
      ensures forall c :: c in others.calls ==>
        c.deadline == if deadline.Some? then deadline.value else old(clock.now) + 3000
      ensures Hotkey in present ==> others.calls[0].begun == old(clock.now)
      ensures var next := |Only(Hotkey, present)|;
        var stopped := if next == 0 then old(clock.now) else others.calls[0].ended;
        next < |others.calls| ==>
          && LeavesReserve(stopped, others.calls[next].begun, EndBy(old(clock.now)), JOIN_POLL + clock.slack)
          && (joined || ReservedDeadline(stopped, EndBy(old(clock.now)), TEARDOWN_RESERVE) <= others.calls[next].begun)
      ensures queue.commands ==
        old(if queue.connected && |queue.commands| < queue.capacity then queue.commands + [Stop] else queue.commands)
      ensures joined <==> capture.finished
    {
      var end := EndBy(clock.now);
      RequestStopAll();
      var stopped;
      joined, stopped := StopCapture(end);
      StopRest(end, Only(Hotkey, present));
    }
  }
}
