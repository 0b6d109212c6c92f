/** The capture worker of daemon.rs: a loop over commands that owns the capture engine, rebuilds it
    when it is lost, waits for a desktop to come back, and keeps the capture budget. Times are in
    milliseconds. */
module CaptureWorker {
  import opened Wrappers
  import opened EngineHistory

  const MAX_U64 := 0xFFFF_FFFF_FFFF_FFFF
  const BACKOFF_POLL := 10

  function Increment(n: nat, limit: nat): nat {
    if n < limit then n + 1 else limit
  }

  datatype Recovery = Recovery(failedAttempts: nat, nextAttempt: nat, waiting: bool)

  function Delay(failed: nat, waiting: bool): nat {
    if waiting then DESKTOP_POLL else RecoveryDelay(failed)
  }

  datatype Notice = Unavailable | Recovered

  /** Outages and recoveries in turn, an outage first. */
  predicate TakeTurns(notices: seq<Notice>) {
    forall k :: 0 <= k < |notices| ==> (notices[k] == Unavailable <==> k % 2 == 0)
  }

  /** Each later capture has a higher number, or the last number there is. */
  predicate Ascending(ids: seq<nat>) {
    forall i, j :: 0 <= i < j < |ids| ==> ids[i] < ids[j] || ids[j] == MAX_U64
  }

  /** `next` has not been given out, unless the numbers have run out. */
  predicate Unused(ids: seq<nat>, next: nat) {
    forall i :: 0 <= i < |ids| ==> ids[i] < next || next == MAX_U64
  }

  predicate CaptureBudgetExhausted(maximum: Option<nat>, attempts: nat) {
    maximum.Some? && attempts >= maximum.value
  }

  predicate CaptureLimitReached(maximum: Option<nat>, attempts: nat, inFlight: nat) {
    inFlight == 0 && CaptureBudgetExhausted(maximum, attempts)
  }

  datatype Command =
    | Trigger(mayOpenOverlay: bool)
    | RecordFrame
    | LiveSelection(id: nat)
    | SelectionFinished(id: nat)
    | Shutdown

  datatype Received = Message(command: Command) | Timeout | HungUp

  /** What became of a finished capture or a confirmed selection on its way to the selection worker:
      taken there, delivered without it, refused by it, or its trace found in disorder. */
  datatype Handoff = Taken | Delivered | Refused | Disordered

  /** The selection worker reports on captures it holds, and on each of them once. */
  predicate Honest(received: Received, owned: multiset<nat>) {
    match received
    case Message(LiveSelection(id)) => id in owned
    case Message(SelectionFinished(id)) => id in owned
    case _ => true
  }

  /** What the selection worker holds once a capture has been handed on, or not. */
  predicate HeldAfter(before: multiset<nat>, after: multiset<nat>, id: nat, handed: Option<Handoff>) {
    after == if handed == Some(Taken) then before + multiset{id} else before
  }

  /** The handoff a log ends with that it did not have before. */
  function NewHandoff(before: seq<Handoff>, after: seq<Handoff>): Option<Handoff> {
    if |before| < |after| then Some(after[|after| - 1]) else None
  }

  datatype Stop = Requested | LimitReached | Disconnected | Ordered | Fatal

  class Worker {
    const maxCaptures: Option<nat>
    var hasBackend: bool
    var recovery: Option<Recovery>
    var recoveryNotified: bool
    var attempts: nat
    var selectionsInFlight: nat
    var nextCaptureId: nat
    /** The clock, the flags others set, and what the selection worker holds. */
    var now: nat
    var stopRequested: bool
    var recordingActive: bool
    var owned: multiset<nat>
    /** What was done with the engine, the outage notices, the capture numbers given out, what each
        wait for a command came to, and what became of the captures handed on. */
    ghost var history: History
    ghost var notices: seq<Notice>
    ghost var ids: seq<nat>
    ghost var inbox: seq<Received>
    ghost var handoffs: seq<Handoff>

    constructor (maxCaptures: Option<nat>)
      ensures this.maxCaptures == maxCaptures && Fresh()
    {
      this.maxCaptures := maxCaptures;
      hasBackend, recovery, recoveryNotified := false, None, false;
      attempts, selectionsInFlight, nextCaptureId := 0, 0, 1;
      now, stopRequested, recordingActive, owned := 0, false, false, multiset{};
      history, notices, ids, inbox, handoffs := Start, [], [], [], [];
    }

    ghost predicate Fresh()
      reads this
    {
      && !hasBackend && recovery == None && !recoveryNotified && attempts == selectionsInFlight == 0
      && nextCaptureId == 1 && history == Start && notices == [] && ids == [] && owned == multiset{}
    }

    /** The newest event is one that this state of recovery may follow. */
    ghost predicate EngineFits()
      reads this`hasBackend, this`recovery, this`history, this`now
    {
      && history.Then? && Sound(history) && history.event.at <= now
      && (hasBackend ==> history.event.Built? || (history.event.Tried? && !Loses(history.event)))
      && (recovery.Some? ==> RecoveryFits(recovery.value, history) && RecoveryIsSoon(recovery.value, history, now))
    }

    /** The count of failures, and whether the user has been told, are those of the history. */
    ghost predicate CountsFit()
      reads this`recovery, this`recoveryNotified, this`history
    {
      && recoveryNotified == Notified(history)
      && (recovery.Some? ==> recovery.value.failedAttempts == AtMost(CountedFailures(history), MAX_U32))
    }

    ghost predicate EngineValid()
      reads this`hasBackend, this`recovery, this`recoveryNotified, this`history, this`now
    {
      && (hasBackend <==> recovery.None?) && EngineFits() && CountsFit()
      && (hasBackend ==> !OwnBuild(history.event)) && (recoveryNotified ==> recovery.Some?)
    }

    ghost predicate NoticesValid()
      reads this`recoveryNotified, this`notices
    {
      TakeTurns(notices) && (recoveryNotified <==> |notices| % 2 == 1)
    }

    ghost predicate NumbersValid()
      reads this`nextCaptureId, this`ids
    {
      Ascending(ids) && Unused(ids, nextCaptureId) && nextCaptureId <= MAX_U64
    }

    ghost predicate BudgetValid()
      reads this`attempts, this`selectionsInFlight, this`owned
    {
      (maxCaptures.Some? ==> attempts <= maxCaptures.value) && selectionsInFlight == |owned|
    }

    /** What holds whenever the loop comes round. */
    ghost predicate Valid()
      reads this
    {
      EngineValid() && NoticesValid() && NumbersValid() && BudgetValid()
    }

    twostate predicate TimePasses()
      reads this`now, this`stopRequested
    {
      old(now) <= now && (old(stopRequested) ==> stopRequested)
    }

    /** Time passes, and a stop may be asked for, for good. */
    method Later(least: nat)
      modifies this`now, this`stopRequested
      ensures now >= old(now) + least && (old(stopRequested) ==> stopRequested)
    {
      var later :| now + least <= later;
      now := later;
      if * {
        stopRequested := true;
      }
    }

    /** One sleep of a back-off: no longer than 10 ms, so that a stop is noticed by then, nor than the
        back-off itself. */
    method Nap(time: nat, ghost deadline: nat)
      requires 0 < time <= 10 && now + time <= deadline
      modifies this`now, this`stopRequested
      ensures now >= old(now) + time && (old(stopRequested) ==> stopRequested)
    {
      Later(time);
    }

    /** Sleeps out a back-off, giving it up once a stop is asked for. */
    method WaitForBackoff(delay: nat) returns (cut: bool)
      modifies this`now, this`stopRequested
      ensures TimePasses()
      ensures cut ==> stopRequested
      ensures !cut ==> old(now) + delay <= now
      ensures old(stopRequested) ==> cut && now == old(now)
    {
      var deadline := now + delay;
      while true
        invariant old(now) <= now && (old(stopRequested) ==> stopRequested && now == old(now))
        decreases deadline - now
      {
        if stopRequested {
          return true;
        }
        if now >= deadline {
          return false;
        }
        Nap(if deadline - now < BACKOFF_POLL then deadline - now else BACKOFF_POLL, deadline);
      }
    }

    /** Builds an engine, or learns why not: for want of a desktop, or otherwise. */
    method CreateBackend(ghost own: bool) returns (failure: Option<bool>)
      modifies this`now, this`stopRequested, this`history
      ensures TimePasses()
      ensures history ==
        Then(old(history), if failure == None then Built(own, now) else NotBuilt(own, failure.value, now))
    {
      Later(0);
      if * {
        failure := None;
        history := Then(history, Built(own, now));
      } else {
        var waiting: bool := *;
        failure := Some(waiting);
        history := Then(history, NotBuilt(own, waiting, now));
      }
    }

    /** Asks the engine for a capture, or whether its display list is current. */
    method TryEngine() returns (result: Result)
      modifies this`now, this`stopRequested, this`history
      ensures TimePasses()
      ensures history == Then(old(history), Tried(result, now))
    {
      Later(0);
      result := *;
      history := Then(history, Tried(result, now));
    }

    /** Between two tries of a capture that keeps losing the engine. */
    ghost predicate Retrying(begun: History, recoveries: nat)
      reads this`hasBackend, this`history, this`now
    {
      && hasBackend && history.Then? && Sound(history) && history.event.at <= now && Extends(history, begun)
      && (if recoveries == 0 then history == begun
          else OwnBuild(history.event) && history.event.Built? && OwnRebuilds(history.before) == recoveries - 1
               && history.before.Then? && Loses(history.before.event))
      && Tries(history) == Tries(begun) + recoveries && Builds(history) == Builds(begun) + recoveries
    }

    /** After a try that lost the engine. */
    ghost predicate Lost(begun: History, tries: nat)
      reads this`history, this`now
    {
      && history.Then? && Sound(history) && history.event.at <= now && Extends(history, begun)
      && 0 < tries && history.event == Tried(Failed(true), history.event.at) && OwnRebuilds(history) == tries - 1
      && Tries(history) == Tries(begun) + tries && Builds(history) == Builds(begun) + tries - 1
    }

    /** After them: done, failed, cut short, or without a new engine. */
    ghost predicate Retried(begun: History, result: Result, recoveries: nat, failure: Option<bool>)
      reads this`hasBackend, this`history, this`now, this`stopRequested
    {
      && history.Then? && Sound(history) && history.event.at <= now && Extends(history, begun)
      && recoveries <= RECOVERY_RETRIES
      && Tries(history) == Tries(begun) + (if hasBackend then recoveries + 1 else recoveries)
      && Builds(history) == Builds(begun) + (if hasBackend || failure.Some? then recoveries else recoveries - 1)
      && (hasBackend ==> failure == None && (result == Failed(true) ==> recoveries == RECOVERY_RETRIES))
      && (!hasBackend ==> result == Failed(true) && 0 < recoveries && (failure.Some? || stopRequested))
      && match failure
         case Some(waiting) =>
           && history.event == NotBuilt(true, waiting, history.event.at) && OwnRebuilds(history.before) == recoveries - 1
           && history.before.Then?
         case None => history.event == Tried(result, history.event.at)
    }

    /** Gives up the lost engine, sleeps out the back-off and builds another. */
    method RebuildAfterBackoff(ghost begun: History, recoveries: nat) returns (failure: Option<bool>)
      requires recoveries <= RECOVERY_RETRIES && Lost(begun, recoveries)
      modifies this`hasBackend, this`now, this`stopRequested, this`history
      ensures TimePasses()
      ensures if hasBackend then Retrying(begun, recoveries) && failure == None
              else Retried(begun, Failed(true), recoveries, failure)
    {
      hasBackend := false;
      var cut := WaitForBackoff(RecoveryDelay(recoveries));
      if cut {
        return None;
      }
      failure := CreateBackend(true);
      hasBackend := failure == None;
    }

    /** Tries an operation on the engine, rebuilding it after each error that loses it: four tries
        and three rebuilds at most. The engine is missing afterwards only if a stop cut the back-off
        short or a rebuild failed, and then the error is one that calls for recovery. */
    method CaptureWithBackendRecovery() returns (result: Result, recoveries: nat, failure: Option<bool>)
      requires hasBackend && EngineFits() && !OwnBuild(history.event)
      modifies this`hasBackend, this`now, this`stopRequested, this`history
      ensures TimePasses()
      ensures Retried(old(history), result, recoveries, failure)
    {
      recoveries, failure := 0, None;
      while true
        invariant TimePasses()
        invariant recoveries <= RECOVERY_RETRIES && failure == None && Retrying(old(history), recoveries)
        invariant history.event.Built? || (history.event.Tried? && !Loses(history.event))
        decreases RECOVERY_RETRIES - recoveries
      {
        result := TryEngine();
        if result != Failed(true) || recoveries >= RECOVERY_RETRIES {
          return;
        }
        recoveries := recoveries + 1;
        failure := RebuildAfterBackoff(old(history), recoveries);
        if !hasBackend {
          return;
        }
      }
    }

    /** After a failed rebuild: the next attempt is put off by what the failure was. */
    method PutOff(failed: nat, waiting: bool)
      requires history.Then? && history.event.NotBuilt? && history.event.waiting == waiting && history.event.at <= now
      requires failed == AtMost(CountedFailures(history), MAX_U32)
      modifies this`recovery, this`now, this`stopRequested
      ensures TimePasses() && recovery.Some? && recovery.value.failedAttempts == failed
      ensures recovery.value.waiting == waiting && RecoveryFits(recovery.value, history)
      ensures RecoveryIsSoon(recovery.value, history, now)
    {
      CappedCountDelaysAlike(CountedFailures(history));
      Later(0);
      recovery := Some(Recovery(failed, now + Delay(failed, waiting), waiting));
    }

    /** Starts recovering at once, for an error that no rebuild has answered yet. */
    method RecoverFrom(result: Result)
      requires recovery == None ==> history.Then? && history.event == Tried(result, history.event.at)
      requires recovery.Some? ==> !hasBackend
      requires !hasBackend && recovery.None? ==> result == Failed(true)
      modifies this`hasBackend, this`recovery, this`now, this`stopRequested
      ensures (hasBackend <==> recovery.None?) && TimePasses()
      ensures old(recovery).Some? ==> recovery == old(recovery)
      ensures old(recovery).None? ==> recovery == if result == Failed(true) then Some(Recovery(0, now, false)) else None
    {
      Later(0);
      if result == Failed(true) && recovery.None? {
        hasBackend := false;
        recovery := Some(Recovery(0, now, false));
      }
    }

    /** A retried operation and what it leaves of the engine. */
    method Attempt() returns (result: Result)
      requires EngineValid() && hasBackend
      modifies this`hasBackend, this`recovery, this`now, this`stopRequested, this`history
      ensures EngineValid() && TimePasses() && Extends(history, old(history))
      ensures 0 < Tries(history) - Tries(old(history)) <= RECOVERY_RETRIES + 1
      ensures 0 <= Builds(history) - Builds(old(history)) <= RECOVERY_RETRIES
      ensures result == Done ==> hasBackend && history.event == Tried(Done, history.event.at)
      ensures result != Done ==> history.event != Tried(Done, history.event.at)
    {
      var recoveries, failure;
      result, recoveries, failure := CaptureWithBackendRecovery();
      if failure.Some? {
        PutOff(recoveries, failure.value);
      }
      RecoverFrom(result);
    }

    /** Tells the user of an outage, or of its end. */
    method Announce(notice: Notice)
      requires NoticesValid() && (notice == Recovered <==> recoveryNotified)
      modifies this`recoveryNotified, this`notices
      ensures NoticesValid()
      ensures recoveryNotified != old(recoveryNotified) && notices == old(notices) + [notice]
    {
      recoveryNotified := !recoveryNotified;
      notices := notices + [notice];
    }

    /** The cheap question, whether there is anything to capture. */
    method Ask() returns (answer: SourceWait)
      modifies this`history
      ensures history == Then(old(history), Asked(answer, now))
    {
      answer := *;
      history := Then(history, Asked(answer, now));
    }

    /** Asks whether there is anything to capture yet; if not, the next question is put off. */
    method AskFirst() returns (ready: bool)
      requires EngineValid() && recovery.Some? && recovery.value.waiting && recovery.value.nextAttempt <= now
      modifies this`recovery, this`now, this`stopRequested, this`history
      ensures TimePasses() && (!ready ==> EngineValid())
      ensures ready ==> recovery == old(recovery) && now == old(now)
      ensures history.Then? && history.before == old(history) && history.event.Asked? && history.event.at == old(now)
      ensures Sound(history) && (ready <==> history.event.answer == Ready)
    {
      var answer := Ask();
      ready := answer == Ready;
      if !ready {
        Later(0);
        recovery := Some(recovery.value.(nextAttempt := now + PollInterval(answer)));
      }
    }

    /** Whether a build may be tried now. */
    ghost predicate MayBuild()
      reads this`hasBackend, this`recovery, this`history, this`now
    {
      && recovery.Some? && !hasBackend && history.Then? && Sound(history) && history.event.at <= now
      && recovery.value.failedAttempts == AtMost(CountedFailures(history), MAX_U32)
      && match history.event
         case Asked(answer, _) => answer == Ready
         case NotBuilt(_, waiting, at) => !waiting && at + RecoveryDelay(CountedFailures(history)) <= now
         case Tried(_, _) => Loses(history.event)
         case Built(_, _) => false
    }

    method Rebuild()
      requires MayBuild()
      modifies this`hasBackend, this`recovery, this`now, this`stopRequested, this`history
      ensures (hasBackend <==> recovery.None?) && EngineFits() && TimePasses()
      ensures history.Then? && history.before == old(history) && IsBuild(history.event) && !history.event.own
      ensures if hasBackend then history.event.Built? else history.event.NotBuilt?
      ensures !hasBackend ==>
        && recovery.value.failedAttempts == AtMost(CountedFailures(history), MAX_U32)
        && recovery.value.waiting == history.event.waiting
    {
      var failure := CreateBackend(false);
      if failure == None {
        hasBackend := true;
        recovery := None;
        return;
      }
      PutOff(Increment(recovery.value.failedAttempts, MAX_U32), failure.value);
    }

    /** The loop's own retry, once the next attempt is due. While waiting for a desktop it asks the
        cheap question first and builds nothing until that is answered Ready. The user is told of an
        outage and of its end, once each. */
    method RetryEngine()
      requires EngineValid() && NoticesValid() && recovery.Some? && recovery.value.nextAttempt <= now
      modifies this`hasBackend, this`recovery, this`recoveryNotified, this`now, this`stopRequested
      modifies this`history, this`notices
      ensures EngineValid() && NoticesValid() && TimePasses()
      ensures Extends(history, old(history)) && Retries(old(history), history, old(recovery).value.waiting)
      ensures notices == if recoveryNotified == old(recoveryNotified) then old(notices)
                         else old(notices) + [if hasBackend then Recovered else Unavailable]
    {
      if recovery.value.waiting {
        var ready := AskFirst();
        if !ready {
          return;
        }
      }
      Rebuild();
      if hasBackend {
        if recoveryNotified {
          Announce(Recovered);
        }
      } else if !recovery.value.waiting && !recoveryNotified {
        if recovery.value.failedAttempts >= OUTAGE_NOTICE_ATTEMPTS {
          Announce(Unavailable);
        }
      }
    }

    method NextCaptureId() returns (id: nat)
      requires NumbersValid()
      modifies this`nextCaptureId, this`ids
      ensures NumbersValid() && id == old(nextCaptureId) && ids == old(ids) + [id]
    {
      id := nextCaptureId;
      ids := ids + [id];
      nextCaptureId := Increment(nextCaptureId, MAX_U64);
    }

    /** What becomes of a capture or a confirmed selection handed on. */
    method HandOn() returns (handoff: Handoff)
      modifies this`handoffs
      ensures handoffs == old(handoffs) + [handoff]
    {
      handoff := *;
      handoffs := handoffs + [handoff];
    }

    /** A frame for a running recording: one try, and no budget spent. */
    method OnRecordFrame()
      requires EngineValid() && NumbersValid()
      modifies this`hasBackend, this`recovery, this`now, this`stopRequested, this`history, this`nextCaptureId, this`ids
      ensures EngineValid() && NumbersValid() && TimePasses() && Extends(history, old(history))
      ensures if old(hasBackend) then history.Then? && history.before == old(history) && history.event.Tried?
              else history == old(history)
      ensures ids == if old(hasBackend) then old(ids) + [old(nextCaptureId)] else old(ids)
    {
      if !hasBackend {
        return;
      }
      var _ := NextCaptureId();
      var result := TryEngine();
      RecoverFrom(result);
    }

    /** The capture a press asks for, after a check of the displays where an overlay may open. */
    method CaptureForTrigger(mayOpenOverlay: bool) returns (captured: bool)
      requires EngineValid() && hasBackend
      modifies this`hasBackend, this`recovery, this`now, this`stopRequested, this`history
      ensures EngineValid() && TimePasses() && Extends(history, old(history))
      ensures 0 < Tries(history) - Tries(old(history)) <= 2 * (RECOVERY_RETRIES + 1)
      ensures 0 <= Builds(history) - Builds(old(history)) <= 2 * RECOVERY_RETRIES
      ensures captured <==> history.event == Tried(Done, history.event.at)
      ensures captured ==> hasBackend && (mayOpenOverlay ==> 2 <= Tries(history) - Tries(old(history)))
    {
      ghost var checked := history;
      if mayOpenOverlay {
        var validation := Attempt();
        if validation != Done {
          return false;
        }
        checked := history;
      }
      var result := Attempt();
      ExtendsOn(history, checked, old(history));
      captured := result == Done;
    }

    method Hold(id: nat)
      requires BudgetValid()
      modifies this`selectionsInFlight, this`owned
      ensures BudgetValid() && owned == old(owned) + multiset{id}
    {
      selectionsInFlight := selectionsInFlight + 1;
      owned := owned + multiset{id};
    }

    method OnSelectionFinished(id: nat)
      requires BudgetValid() && id in owned
      modifies this`selectionsInFlight, this`owned
      ensures BudgetValid() && owned == old(owned) - multiset{id}
    {
      selectionsInFlight := selectionsInFlight - 1;
      owned := owned - multiset{id};
    }

    /** Hands on a finished capture; the selection worker holds it only once its job is taken there. */
    method HandToSelections(id: nat) returns (fatal: bool)
      requires BudgetValid()
      modifies this`selectionsInFlight, this`owned, this`handoffs
      ensures BudgetValid() && |handoffs| == |old(handoffs)| + 1 && old(handoffs) <= handoffs
      ensures HeldAfter(old(owned), owned, id, Some(handoffs[|handoffs| - 1]))
      ensures fatal <==> handoffs[|handoffs| - 1] == Disordered
    {
      var handoff := HandOn();
      if handoff == Taken {
        Hold(id);
      }
      fatal := handoff == Disordered;
    }

    /** The capture of a press, handed on once it is made. */
    method TakeCapture(mayOpenOverlay: bool, id: nat) returns (fatal: bool)
      requires EngineValid() && hasBackend && BudgetValid()
      modifies this`hasBackend, this`recovery, this`now, this`stopRequested, this`history
      modifies this`selectionsInFlight, this`owned, this`handoffs
      ensures EngineValid() && BudgetValid() && TimePasses() && Extends(history, old(history))
      ensures 0 < Tries(history) - Tries(old(history)) <= 2 * (RECOVERY_RETRIES + 1)
      ensures mayOpenOverlay && history.event == Tried(Done, history.event.at) ==>
        2 <= Tries(history) - Tries(old(history))
      ensures old(handoffs) <= handoffs
      ensures |handoffs| == |old(handoffs)| + if history.event == Tried(Done, history.event.at) then 1 else 0
      ensures HeldAfter(old(owned), owned, id, NewHandoff(old(handoffs), handoffs))
      ensures fatal <==> handoffs == old(handoffs) + [Disordered]
    {
      var captured := CaptureForTrigger(mayOpenOverlay);
      fatal := false;
      if captured {
        fatal := HandToSelections(id);
      }
    }

    /** What a press comes to. It counts against the budget whatever becomes of it, unless the budget is
        spent or a recording runs; a capture that is made is handed on, and no other. */
    twostate predicate Pressed(mayOpenOverlay: bool, was: History)
      reads this
    {
      && HeldAfter(old(owned), owned, old(nextCaptureId), NewHandoff(old(handoffs), handoffs))
      && old(handoffs) <= handoffs && history.Then?
      && if recordingActive || CaptureBudgetExhausted(maxCaptures, old(attempts)) then
           attempts == old(attempts) && ids == old(ids) && history == was && handoffs == old(handoffs)
         else
           && attempts == old(attempts) + 1 && ids == old(ids) + [old(nextCaptureId)]
           && if Present(was) then
                && 0 < Tries(history) - Tries(was) <= 2 * (RECOVERY_RETRIES + 1)
                && (mayOpenOverlay && Made(history) ==> 2 <= Tries(history) - Tries(was))
                && |handoffs| == |old(handoffs)| + if Made(history) then 1 else 0
              else history == was && handoffs == old(handoffs)
    }

    /** A hotkey press; while a recording runs it is not a capture's. */
    method OnTrigger(mayOpenOverlay: bool) returns (fatal: bool)
      requires EngineValid() && NumbersValid() && BudgetValid()
      modifies this`hasBackend, this`recovery, this`now, this`stopRequested, this`history, this`nextCaptureId, this`ids
      modifies this`attempts, this`selectionsInFlight, this`owned, this`handoffs
      ensures EngineValid() && NumbersValid() && BudgetValid() && TimePasses() && Extends(history, old(history))
      ensures Pressed(mayOpenOverlay, old(history))
      ensures fatal <==> handoffs == old(handoffs) + [Disordered]
    {
      fatal := false;
      if recordingActive || CaptureBudgetExhausted(maxCaptures, attempts) {
        return;
      }
      attempts := attempts + 1;
      var id := NextCaptureId();
      if hasBackend {
        fatal := TakeCapture(mayOpenOverlay, id);
      }
    }

    /** The capture a confirmed selection asks for. Its job goes back to the selection worker, or,
        where that does not take it, ends here. */
    method OnLiveSelection(id: nat)
      requires EngineValid() && BudgetValid() && id in owned
      modifies this`hasBackend, this`recovery, this`now, this`stopRequested, this`history
      modifies this`selectionsInFlight, this`owned, this`handoffs
      ensures EngineValid() && BudgetValid() && TimePasses() && Extends(history, old(history))
      ensures if old(hasBackend) then 0 < Tries(history) - Tries(old(history)) <= RECOVERY_RETRIES + 1
              else history == old(history)
      ensures |handoffs| == |old(handoffs)| + 1 && old(handoffs) <= handoffs
      ensures owned == if handoffs[|handoffs| - 1] == Refused then old(owned) - multiset{id} else old(owned)
    {
      if hasBackend {
        var _ := Attempt();
      }
      var handoff := HandOn();
      if handoff == Refused {
        OnSelectionFinished(id);
      }
    }

    /** Before the loop: the worker starts with an engine, or waiting for a desktop, or not at all. */
    method Begin() returns (started: bool)
      requires Fresh()
      modifies this`hasBackend, this`recovery, this`now, this`stopRequested, this`history
      ensures started ==> Valid()
      ensures TimePasses()
      ensures !started <==> history.Then? && history.event.NotBuilt? && !history.event.waiting
      ensures history.Then? && history.before == Start
    {
      var failure := CreateBackend(false);
      started := failure != Some(false);
      hasBackend := failure == None;
      if failure == Some(true) {
        PutOff(0, true);
      }
    }

    /** Waits for a command; while recovering, only until the next attempt is due. */
    method Receive() returns (received: Received)
      requires EngineValid()
      modifies this`now, this`stopRequested, this`recordingActive, this`inbox
      ensures EngineValid() && Honest(received, owned) && TimePasses()
      ensures received == Timeout ==> recovery.Some? && recovery.value.nextAttempt <= now
      ensures inbox == old(inbox) + [received]
    {
      Later(0);
      recordingActive := *;
      received := *;
      if received == Timeout {
        if recovery == None {
          received := HungUp;
        } else {
          Later(if recovery.value.nextAttempt > now then recovery.value.nextAttempt - now else 0);
        }
      } else if received.Message? && !Honest(received, owned) {
        received := HungUp;
      }
      inbox := inbox + [received];
    }

    /** The logs and the count of attempts only grow. */
    twostate predicate Remembers()
      reads this
    {
      && Extends(history, old(history)) && old(notices) <= notices && old(ids) <= ids
      && old(attempts) <= attempts && old(inbox) <= inbox && old(handoffs) <= handoffs && TimePasses()
    }

    /** What a command leaves, `was` being the engine's history when it came. */
    twostate predicate Did(command: Command, was: History)
      reads this
    {
      match command
      case Trigger(mayOpenOverlay) => Pressed(mayOpenOverlay, was)
      case RecordFrame =>
        && attempts == old(attempts) && owned == old(owned) && handoffs == old(handoffs)
        && if Present(was) then
             history.Then? && history.before == was && history.event.Tried? && ids == old(ids) + [old(nextCaptureId)]
           else history == was && ids == old(ids)
      case LiveSelection(id) =>
        && attempts == old(attempts) && ids == old(ids)
        && |handoffs| == |old(handoffs)| + 1 && old(handoffs) <= handoffs
        && owned == (if handoffs[|handoffs| - 1] == Refused then old(owned) - multiset{id} else old(owned))
        && if Present(was) then 0 < Tries(history) - Tries(was) <= RECOVERY_RETRIES + 1 else history == was
      case SelectionFinished(id) =>
        && attempts == old(attempts) && ids == old(ids) && handoffs == old(handoffs) && history == was
        && owned == old(owned) - multiset{id}
      case Shutdown => Idle(was)
    }

    /** Nothing done for anybody. */
    twostate predicate Idle(was: History)
      reads this
    {
      && attempts == old(attempts) && ids == old(ids) && handoffs == old(handoffs) && history == was
      && owned == old(owned)
    }

    method Handle(command: Command) returns (stop: Option<Stop>)
      requires Valid() && Honest(Message(command), owned)
      modifies this`hasBackend, this`recovery, this`now, this`stopRequested, this`history, this`nextCaptureId, this`ids
      modifies this`attempts, this`selectionsInFlight, this`owned, this`handoffs
      ensures Valid() && Remembers() && Did(command, old(history))
      ensures stop == Some(Ordered) <==> command == Shutdown
      ensures stop == Some(Fatal) <==> command.Trigger? && NewHandoff(old(handoffs), handoffs) == Some(Disordered)
      ensures stop == None || stop == Some(Ordered) || stop == Some(Fatal)
    {
      stop := None;
      match command {
        case Trigger(mayOpenOverlay) =>
          var fatal := Press(mayOpenOverlay);
          stop := if fatal then Some(Fatal) else None;
        case RecordFrame => RecordOne();
        case LiveSelection(id) => Confirm(id);
        case SelectionFinished(id) => Release(id);
        case Shutdown => stop := Some(Ordered);
      }
    }

    /** The commands, each leaving what the loop keeps. */
    method Press(mayOpenOverlay: bool) returns (fatal: bool)
      requires Valid()
      modifies this`hasBackend, this`recovery, this`now, this`stopRequested, this`history, this`nextCaptureId, this`ids
      modifies this`attempts, this`selectionsInFlight, this`owned, this`handoffs
      ensures Valid() && Remembers() && Did(Trigger(mayOpenOverlay), old(history))
      ensures fatal <==> NewHandoff(old(handoffs), handoffs) == Some(Disordered)
    {
      fatal := OnTrigger(mayOpenOverlay);
    }

    method RecordOne()
      requires Valid()
      modifies this`hasBackend, this`recovery, this`now, this`stopRequested, this`history, this`nextCaptureId, this`ids
      ensures Valid() && Remembers() && Did(RecordFrame, old(history))
    {
      OnRecordFrame();
    }

    method Confirm(id: nat)
      requires Valid() && id in owned
      modifies this`hasBackend, this`recovery, this`now, this`stopRequested, this`history
      modifies this`selectionsInFlight, this`owned, this`handoffs
      ensures Valid() && Remembers() && Did(LiveSelection(id), old(history))
    {
      OnLiveSelection(id);
    }

    method Release(id: nat)
      requires Valid() && id in owned
      modifies this`selectionsInFlight, this`owned
      ensures Valid() && Remembers() && Did(SelectionFinished(id), old(history))
    {
      OnSelectionFinished(id);
    }

    /** What the loop does before it waits for a command: its retry, exactly if that is due by then. */
    twostate predicate RetriedIfDue(new after: History)
      reads this
    {
      && (old(recovery).Some? && old(recovery).value.nextAttempt <= old(now) ==>
           Retries(old(history), after, old(recovery).value.waiting))
      && (after == old(history) ||
           (old(recovery).Some? && Retries(old(history), after, old(recovery).value.waiting)))
    }

    /** The loop's work before it waits for a command. */
    method RetryIfDue()
      requires Valid()
      modifies this`hasBackend, this`recovery, this`recoveryNotified, this`now, this`stopRequested
      modifies this`history, this`notices
      ensures Valid() && Remembers() && RetriedIfDue(history)
      ensures |notices| <= |old(notices)| + 1
    {
      Later(0);
      if recovery.Some? && recovery.value.nextAttempt <= now {
        RetryEngine();
      }
    }

    /** Waits for a command and does it. */
    method Serve() returns (stop: Option<Stop>)
      requires Valid()
      modifies this
      ensures Valid() && Remembers() && notices == old(notices) && Served(stop, old(history))
    {
      var received := Receive();
      match received {
        case Timeout => stop := None;
        case HungUp => stop := Some(Disconnected);
        case Message(command) => stop := Handle(command);
      }
    }

    /** What came of one wait for a command. */
    twostate predicate Served(new stop: Option<Stop>, new was: History)
      reads this
    {
      && |inbox| == |old(inbox)| + 1 && old(inbox) <= inbox
      && var received := inbox[|inbox| - 1];
         && (if received.Message? then Did(received.command, was) else Idle(was))
         && (stop == Some(Disconnected) <==> received == HungUp)
         && (stop == Some(Ordered) <==> received == Message(Shutdown))
         && (stop == Some(Fatal) <==>
              received.Message? && received.command.Trigger? && NewHandoff(old(handoffs), handoffs) == Some(Disordered))
         && (stop == None || stop == Some(Ordered) || stop == Some(Fatal) || stop == Some(Disconnected))
    }

    /** A round's work: the engine's retry if it is due, then a command. */
    method Work() returns (stop: Option<Stop>, ghost between: History)
      requires Valid()
      modifies this
      ensures Valid() && Remembers() && |notices| <= |old(notices)| + 1
      ensures RetriedIfDue(between) && Extends(history, between) && Served(stop, between)
    {
      RetryIfDue();
      between := history;
      stop := Serve();
      ExtendsOn(history, between, old(history));
    }

    /** One round of the loop. It stops for the capture limit only once every capture the limit
        allows has been taken on and none is still with the selection worker. */
    method Round() returns (stop: Option<Stop>, ghost between: History)
      requires Valid()
      modifies this
      ensures Valid() && Remembers() && |notices| <= |old(notices)| + 1
      ensures stop == Some(Requested) <==> old(stopRequested)
      ensures stop == Some(LimitReached) <==>
        !old(stopRequested) && maxCaptures.Some? && old(attempts) == maxCaptures.value && old(owned) == multiset{}
      ensures stop == Some(Requested) || stop == Some(LimitReached) ==>
        Idle(old(history)) && inbox == old(inbox) && between == history
      ensures stop != Some(Requested) && stop != Some(LimitReached) ==>
        RetriedIfDue(between) && Extends(history, between) && Served(stop, between)
    {
      between := history;
      if stopRequested {
        stop := Some(Requested);
      } else if CaptureLimitReached(maxCaptures, attempts, selectionsInFlight) {
        stop := Some(LimitReached);
      } else {
        stop, between := Work();
      }
    }

    /** Any number of rounds, from the first. */
    method Run(rounds: nat) returns (stop: Option<Stop>)
      requires Fresh()
      modifies this
      ensures Valid() || stop == Some(Fatal)
      ensures Remembers()
      ensures stop == None ==> |inbox| == |old(inbox)| + rounds
      ensures stop == Some(Requested) ==> stopRequested
      ensures stop == Some(LimitReached) ==>
        owned == multiset{} && maxCaptures.Some? && attempts == maxCaptures.value
    {
      var started := Begin();
      if !started {
        return Some(Fatal);
      }
      stop := None;
      for round := 0 to rounds
        invariant Valid() && stop == None && Remembers() && |inbox| == |old(inbox)| + round
      {
        ghost var before := history;
        ghost var between;
        stop, between := Round();
        ExtendsOn(history, before, old(history));
        if stop.Some? {
          return;
        }
      }
    }
  }

  /** What one retry of the loop adds to the history: a question, a build, or a question answered Ready
      and a build; never a build before the question while waiting for a desktop. */
  predicate Retries(before: History, after: History, waiting: bool) {
    && after.Then?
    && if waiting then
         || (after.before == before && after.event.Asked? && after.event.answer != Ready)
         || (after.before.Then? && after.before.before == before && after.before.event.Asked?
             && after.before.event.answer == Ready && IsBuild(after.event) && !after.event.own)
       else after.before == before && IsBuild(after.event) && !after.event.own
  }

  /** What is known of the engine's last event while recovery waits for its next attempt. */
  predicate RecoveryFits(recovery: Recovery, h: History)
    requires h.Then?
  {
    match h.event
    case Asked(answer, at) => recovery.waiting && answer != Ready && at + PollInterval(answer) <= recovery.nextAttempt
    case NotBuilt(_, waiting, at) =>
      recovery.waiting == waiting && at + Delay(CountedFailures(h), waiting) <= recovery.nextAttempt
    case Tried(_, _) => Loses(h.event) && !recovery.waiting
    case Built(_, _) => false
  }

  /** And that it waits no longer than that. */
  predicate RecoveryIsSoon(recovery: Recovery, h: History, now: nat)
    requires h.Then?
  {
    recovery.nextAttempt <= now +
      match h.event
      case Asked(answer, _) => PollInterval(answer)
      case NotBuilt(_, waiting, _) => if waiting then DESKTOP_POLL else RecoveryDelay(CountedFailures(h))
      case _ => 0
  }

  /** Whether there is an engine after this history: its last build succeeded, and no try has lost it. */
  predicate Present(h: History) {
    h.Then? && (h.event.Built? || (h.event.Tried? && !Loses(h.event)))
  }

  /** The capture tried last was made. */
  predicate Made(h: History) {
    h.Then? && h.event == Tried(Done, h.event.at)
  }
}
