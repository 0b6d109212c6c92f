/** Switching file output off and on (daemon.rs), while each worker's thread races the deadline for
    stopping it (file_output.rs) and the process counts the threads left behind (detach.rs). Each step
    is one atomic action of the daemon's thread or of a worker's. */
module WorkerLifetime {

  /** `usize`. */
  const WORD := 0x1_0000_0000_0000_0000
  const CEILING := 1

  datatype Cell = Running | Detached | Finished

  /** The cell both sides reach for, each with one atomic operation. */
  class Lifetime {
    var cell: Cell

    constructor ()
      ensures cell == Running
    {
      cell := Running;
    }

    /** Claims the detach; refused once the thread has finished. */
    method Detach() returns (claimed: bool)
      modifies this
      ensures claimed <==> old(cell) == Running
      ensures cell == AfterDetach(Worker(old(cell), Writing, Stopping)).cell
    {
      claimed := cell == Running;
      if claimed {
        cell := Detached;
      }
    }

    /** The thread's last act; says whether it had been written off. */
    method Finish() returns (writtenOff: bool)
      modifies this
      ensures writtenOff <==> old(cell) == Detached
      ensures cell == Finished
    {
      writtenOff := cell == Detached;
      cell := Finished;
    }
  }

  /** A worker's thread: still writing, or past `finished` having found itself written off or not. */
  datatype Thread = Writing | Swapped(detached: bool) | Gone(detached: bool)

  /** The daemon's side of the same worker. */
  datatype Side = Registered | Stopping | Joining | Joined | Claimed | Recorded

  datatype Worker = Worker(cell: Cell, thread: Thread, side: Side)

  /** All workers ever started, and the ledger's two counts. */
  datatype State = State(workers: seq<Worker>, live: nat, total: nat)

  datatype Step =
    | Start          // switched on: no worker registered, no detach standing in the way
    | RequestStop    // switched off: the daemon begins to wait
    | SeeExit        // the wait ends with the thread gone
    | Claim          // the wait ends at the deadline: `detach`
    | Join           // the thread finished first and is joined
    | Record         // the detach goes into the ledger
    | Finish(i: nat) // a worker's `finished`
    | Leave(i: nat)  // its rejoin, if it was written off, and its end

  const BEGIN := State([], 0, 0)

  predicate Idle(s: State) {
    s.workers == [] || s.workers[|s.workers| - 1].side in {Joined, Recorded}
  }

  predicate LastIs(s: State, side: Side) {
    s.workers != [] && s.workers[|s.workers| - 1].side == side
  }

  predicate Enabled(s: State, step: Step) {
    match step
    case Start => Idle(s) && s.live < CEILING
    case RequestStop => LastIs(s, Registered)
    case SeeExit => LastIs(s, Stopping) && s.workers[|s.workers| - 1].thread.Gone?
    case Claim => LastIs(s, Stopping)
    case Join => LastIs(s, Joining) && s.workers[|s.workers| - 1].thread.Gone?
    case Record => LastIs(s, Claimed)
    case Finish(i) => i < |s.workers| && s.workers[i].thread == Writing
    case Leave(i) => i < |s.workers| && s.workers[i].thread.Swapped?
  }

  function SetLast(s: State, w: Worker): State
    requires s.workers != []
  {
    s.(workers := s.workers[|s.workers| - 1 := w])
  }

  /** The compare-and-exchange: the detach is claimed only of a running worker. */
  function AfterDetach(w: Worker): Worker {
    if w.cell == Running then w.(cell := Detached, side := Claimed) else w.(side := Joining)
  }

  function Apply(s: State, step: Step): State
    requires Enabled(s, step)
  {
    match step
    case Start => s.(workers := s.workers + [Worker(Running, Writing, Registered)])
    case RequestStop => SetLast(s, s.workers[|s.workers| - 1].(side := Stopping))
    case SeeExit => SetLast(s, s.workers[|s.workers| - 1].(side := Joined))
    case Claim => SetLast(s, AfterDetach(s.workers[|s.workers| - 1]))
    case Join => SetLast(s, s.workers[|s.workers| - 1].(side := Joined))
    case Record =>
      SetLast(s, s.workers[|s.workers| - 1].(side := Recorded)).(live := (s.live + 1) % WORD, total := s.total + 1)
    case Finish(i) =>
      s.(workers := s.workers[i := s.workers[i].(cell := Finished, thread := Swapped(s.workers[i].cell == Detached))])
    case Leave(i) =>
      var w := s.workers[i];
      s.(workers := s.workers[i := w.(thread := Gone(w.thread.detached))],
         live := if w.thread.detached then (s.live + WORD - 1) % WORD else s.live)
  }

  ghost predicate Follows(s: State, u: State) {
    exists step :: Enabled(s, step) && Apply(s, step) == u
  }

  /** Any interleaving, of any length. */
  ghost predicate Run(states: seq<State>) {
    && states != [] && states[0] == BEGIN
    && forall i :: 0 <= i < |states| - 1 ==> Follows(states[i], states[i + 1])
  }

  ghost predicate Reachable(s: State) {
    exists states :: Run(states) && states[|states| - 1] == s
  }

  // ---- What every step keeps ----

  /** One side of the race has the cell, and what each knows of it agrees. */
  predicate Fits(w: Worker) {
    && (w.cell == Finished <==> w.thread != Writing)
    && (w.cell == Detached ==> w.side in {Claimed, Recorded})
    && (w.cell == Running ==> w.side in {Registered, Stopping})
    && (w.thread != Writing ==> (w.thread.detached <==> w.side in {Claimed, Recorded}))
    && (w.side == Joined ==> w.thread.Gone?)
  }

  predicate Settled(w: Worker) {
    w.thread.Gone? && w.side in {Joined, Recorded}
  }

  /** What a worker adds to the ledger: its detach once entered, less its return. */
  function Net(w: Worker): int {
    (if w.side == Recorded then 1 else 0) - if w.thread == Gone(true) then 1 else 0
  }

  function Wrapped(n: int): nat
    requires -1 <= n <= 1
  {
    if n < 0 then WORD - 1 else n
  }

  function Detaches(workers: seq<Worker>): nat {
    if workers == [] then 0 else
      Detaches(workers[..|workers| - 1]) + if workers[|workers| - 1].side == Recorded then 1 else 0
  }

  /** All but the newest worker are over and done with, and only it is on the ledger. */
  predicate Safe(s: State) {
    && (forall i :: 0 <= i < |s.workers| ==> Fits(s.workers[i]))
    && (forall i :: 0 <= i < |s.workers| - 1 ==> Settled(s.workers[i]))
    && s.live == (if s.workers == [] then 0 else Wrapped(Net(s.workers[|s.workers| - 1])))
  }

  lemma StepKeepsSafe(s: State, step: Step)
    requires Safe(s) && Enabled(s, step)
    ensures Safe(Apply(s, step))
  {
  }

  lemma OneMoreWorker(workers: seq<Worker>, w: Worker)
    ensures Detaches(workers + [w]) == Detaches(workers) + if w.side == Recorded then 1 else 0
  {
    assert (workers + [w])[..|workers|] == workers;
  }

  lemma {:induction false} ChangedWorker(workers: seq<Worker>, i: nat, w: Worker)
    requires i < |workers|
    ensures Detaches(workers[i := w])
      == Detaches(workers) - (if workers[i].side == Recorded then 1 else 0) + if w.side == Recorded then 1 else 0
  {
    var n := |workers| - 1;
    if i < n {
      assert workers[i := w][..n] == workers[..n][i := w];
      ChangedWorker(workers[..n], i, w);
    } else {
      assert workers[i := w][..n] == workers[..n];
    }
  }

  lemma StepKeepsTotal(s: State, step: Step)
    requires s.total == Detaches(s.workers) && Enabled(s, step)
    ensures Apply(s, step).total == Detaches(Apply(s, step).workers)
  {
    var n := |s.workers| - 1;
    match step {
      case Start => OneMoreWorker(s.workers, Worker(Running, Writing, Registered));
      case RequestStop => ChangedWorker(s.workers, n, s.workers[n].(side := Stopping));
      case SeeExit => ChangedWorker(s.workers, n, s.workers[n].(side := Joined));
      case Claim => ChangedWorker(s.workers, n, AfterDetach(s.workers[n]));
      case Join => ChangedWorker(s.workers, n, s.workers[n].(side := Joined));
      case Record => ChangedWorker(s.workers, n, s.workers[n].(side := Recorded));
      case Finish(i) => ChangedWorker(s.workers, i, Apply(s, step).workers[i]);
      case Leave(i) => ChangedWorker(s.workers, i, Apply(s, step).workers[i]);
    }
  }

  lemma {:induction false} RunIsSafe(states: seq<State>, k: nat)
    requires Run(states) && k < |states|
    ensures Safe(states[k]) && states[k].total == Detaches(states[k].workers)
  {
    if k > 0 {
      RunIsSafe(states, k - 1);
      assert Follows(states[k - 1], states[k]);
      var step :| Enabled(states[k - 1], step) && Apply(states[k - 1], step) == states[k];
      StepKeepsSafe(states[k - 1], step);
      StepKeepsTotal(states[k - 1], step);
    }
  }

  // ---- What holds in every run ----

  /** No two workers are ever writing at once: every one but the newest is gone. */
  lemma OneWorkerAtATime(s: State)
    requires Reachable(s)
    ensures forall i :: 0 <= i < |s.workers| - 1 ==> s.workers[i].thread.Gone?
  {
    var states :| Run(states) && states[|states| - 1] == s;
    RunIsSafe(states, |states| - 1);
  }

  /** One side claims the cell: a worker past its end was written off exactly if the daemon claimed
      the detach, and of one that is over on both sides the detach was entered exactly if it returned. */
  lemma OneSideClaims(s: State, i: nat)
    requires Reachable(s) && i < |s.workers|
    ensures var w := s.workers[i];
      && (w.thread != Writing ==> (w.thread.detached <==> w.side in {Claimed, Recorded}))
      && (Settled(w) ==> (w.side == Recorded <==> w.thread == Gone(true)))
  {
    var states :| Run(states) && states[|states| - 1] == s;
    RunIsSafe(states, |states| - 1);
  }

  /** With every worker over, nothing is live on the ledger and every detach is in its total. */
  lemma LedgerSettles(s: State)
    requires Reachable(s) && forall i :: 0 <= i < |s.workers| ==> Settled(s.workers[i])
    ensures s.live == 0 && s.total == Detaches(s.workers)
  {
    var states :| Run(states) && states[|states| - 1] == s;
    RunIsSafe(states, |states| - 1);
  }

  /** Detaches entered and not yet returned. */
  function Outstanding(workers: seq<Worker>): nat {
    if workers == [] then 0 else
      var w := workers[|workers| - 1];
      Outstanding(workers[..|workers| - 1]) + if w.side == Recorded && w.thread != Gone(true) then 1 else 0
  }

  lemma {:induction false} SettledOweNothing(workers: seq<Worker>)
    requires forall i :: 0 <= i < |workers| ==> Fits(workers[i]) && Settled(workers[i])
    ensures Outstanding(workers) == 0
  {
    if workers != [] {
      SettledOweNothing(workers[..|workers| - 1]);
      assert Fits(workers[|workers| - 1]) && Settled(workers[|workers| - 1]);
    }
  }

  /** A return that came before its detach was entered. */
  predicate ReturnedFirst(s: State) {
    LastIs(s, Claimed) && s.workers[|s.workers| - 1].thread == Gone(true)
  }

  /** The live count reads as the largest word exactly while a return is ahead of its detach, and is
      otherwise the number of detaches entered and not returned, which is never over the ceiling. */
  lemma LiveCountIs(s: State)
    requires Reachable(s)
    ensures s.live == WORD - 1 <==> ReturnedFirst(s)
    ensures !ReturnedFirst(s) ==> s.live == Outstanding(s.workers) <= CEILING
  {
    var states :| Run(states) && states[|states| - 1] == s;
    RunIsSafe(states, |states| - 1);
    if s.workers != [] {
      SettledOweNothing(s.workers[..|s.workers| - 1]);
      assert Fits(s.workers[|s.workers| - 1]);
    }
  }

  lemma BeginIsReachable()
    ensures Reachable(BEGIN)
  {
    assert Run([BEGIN]);
    assert [BEGIN][|[BEGIN]| - 1] == BEGIN;
  }

  lemma StepTo(s: State, step: Step, u: State)
    requires Reachable(s) && Enabled(s, step) && Apply(s, step) == u
    ensures Reachable(u)
  {
    var states :| Run(states) && states[|states| - 1] == s;
    var more := states + [u];
    assert Follows(s, u);
    forall i | 0 <= i < |more| - 1
      ensures Follows(more[i], more[i + 1])
    {
      assert i < |states| - 1 ==> Follows(states[i], states[i + 1]);
    }
    assert Run(more) && more[|more| - 1] == u;
  }

  /** The worker's return may reach the ledger before its detach does, and the live count then reads
      as the largest word until the entry catches up. */
  lemma ReturnMayComeFirst()
    ensures Reachable(State([Worker(Finished, Gone(true), Claimed)], WORD - 1, 0))
    ensures Reachable(State([Worker(Finished, Gone(true), Recorded)], 0, 1))
  {
    BeginIsReachable();
    WriteOff();
    var s4 := State([Worker(Finished, Swapped(true), Claimed)], 0, 0);
    StepTo(State([Worker(Detached, Writing, Claimed)], 0, 0), Finish(0), s4);
    var s5 := State([Worker(Finished, Gone(true), Claimed)], WORD - 1, 0);
    StepTo(s4, Leave(0), s5);
    StepTo(s5, Record, State([Worker(Finished, Gone(true), Recorded)], 0, 1));
  }

  lemma WriteOff()
    ensures Reachable(State([Worker(Detached, Writing, Claimed)], 0, 0))
  {
    BeginIsReachable();
    var s1 := State([Worker(Running, Writing, Registered)], 0, 0);
    StepTo(BEGIN, Start, s1);
    var s2 := State([Worker(Running, Writing, Stopping)], 0, 0);
    StepTo(s1, RequestStop, s2);
    StepTo(s2, Claim, State([Worker(Detached, Writing, Claimed)], 0, 0));
  }
}
