/** What happens to the capture engine of daemon.rs's worker, as a history of questions, builds and
    tries: which may follow which, how soon, and when the user is told. Times are in milliseconds. */
module EngineHistory {
  import opened Wrappers

  const RECOVERY_RETRIES := 3
  const OUTAGE_NOTICE_ATTEMPTS := 3
  const DESKTOP_POLL := 500
  const DISPLAY_POLL := 2000
  const MAX_U32 := 0xFFFF_FFFF

  // ---- How long to wait ----

  datatype SourceWait = Session | Displays | Ready

  function PollInterval(wait: SourceWait): nat {
    match wait
    case Session => DESKTOP_POLL
    case Displays => DISPLAY_POLL
    case Ready => 0
  }

  function PowerOfTwo(n: nat): (p: nat)
    ensures p > 0
  {
    if n == 0 then 1 else 2 * PowerOfTwo(n - 1)
  }

  /** The back-off after so many failures, under a ceiling of two seconds. */
  function RecoveryDelay(failed: nat): (delay: nat)
    ensures 50 <= delay
  {
    AtMost(50 * PowerOfTwo(Exponent(failed)), 2000)
  }

  function Exponent(failed: nat): nat {
    if failed == 0 then 0 else AtMost(failed - 1, 5)
  }

  /** It doubles from 50 to 1600 ms and stays there: the ceiling is never reached. */
  lemma RecoveryDelayDoubles(failed: nat)
    ensures failed <= 1 ==> RecoveryDelay(failed) == 50
    ensures 1 < failed <= 6 ==> RecoveryDelay(failed) == 2 * RecoveryDelay(failed - 1)
    ensures failed >= 6 ==> RecoveryDelay(failed) == 1600
    ensures RecoveryDelay(failed) <= 1600 < 2000
  {
    PowersOfTwo();
  }

  lemma CappedCountDelaysAlike(failed: nat)
    ensures RecoveryDelay(AtMost(failed, MAX_U32)) == RecoveryDelay(failed)
  {
  }

  function AtMost(n: nat, limit: nat): (r: nat)
    ensures r <= limit && (n <= limit ==> r == n)
  {
    if n < limit then n else limit
  }

  lemma PowersOfTwo()
    ensures PowerOfTwo(0) == 1 && PowerOfTwo(1) == 2 && PowerOfTwo(2) == 4
    ensures PowerOfTwo(3) == 8 && PowerOfTwo(4) == 16 && PowerOfTwo(5) == 32
  {
    assert PowerOfTwo(2) == 2 * PowerOfTwo(1);
    assert PowerOfTwo(4) == 2 * PowerOfTwo(3);
  }

  // ---- What happened to the engine ----

  /** What a capture or a check of the display list came to; only some errors lose the engine. */
  datatype Result = Done | Failed(losesEngine: bool)

  datatype Event =
    | Asked(answer: SourceWait, at: nat)
    | Built(own: bool, at: nat)              // `own`: by a capture's own retries
    | NotBuilt(own: bool, waiting: bool, at: nat)
    | Tried(result: Result, at: nat)

  /** Newest last. */
  datatype History = Start | Then(before: History, event: Event)

  /** A build for a capture that lost the engine, which that capture's next try follows. */
  predicate OwnBuild(e: Event) {
    IsBuild(e) && e.own
  }

  predicate IsBuild(e: Event) {
    e.Built? || e.NotBuilt?
  }

  /** A try whose error means the engine is of no more use. */
  predicate Loses(e: Event) {
    e.Tried? && e.result == Failed(true)
  }

  /** How many times the capture whose try came last had the engine rebuilt for it. */
  function OwnRebuilds(h: History): nat {
    match h
    case Then(Then(b, Built(true, _)), Tried(_, _)) => OwnRebuilds(b) + 1
    case _ => 0
  }

  /** The failures counted towards an outage: those of the loop's builds one by one, and for a build by
      a capture's own retries all the retries that capture had come to. */
  function CountedFailures(h: History): nat {
    match h
    case Start => 0
    case Then(Start, _) => 0
    case Then(b, NotBuilt(true, _, _)) => OwnRebuilds(b) + 1
    case Then(b, NotBuilt(false, _, _)) => CountedFailures(b) + 1
    case Then(b, Asked(_, _)) => CountedFailures(b)
    case Then(_, _) => 0
  }

  /** What may come next, and how soon: above all, a lost engine is not tried again before one is built,
      and no build is tried before its back-off. */
  predicate MayFollow(h: History, e: Event)
    requires h.Then?
  {
    var a := h.event;
    && a.at <= e.at
    && match e
       case Asked(_, at) =>
         || (a.NotBuilt? && a.waiting && a.at + DESKTOP_POLL <= at)
         || (a.Asked? && a.answer != Ready && a.at + PollInterval(a.answer) <= at)
       case Tried(_, _) => a.Built? || (a.Tried? && !Loses(a))
       case _ =>
         if e.own then
           Loses(a) && OwnRebuilds(h) < RECOVERY_RETRIES && a.at + RecoveryDelay(OwnRebuilds(h) + 1) <= e.at
         else
           || Loses(a)
           || (a.NotBuilt? && !a.waiting && a.at + RecoveryDelay(CountedFailures(h)) <= e.at)
           || (a.Asked? && a.answer == Ready)
  }

  predicate Sound(h: History) {
    match h
    case Start => true
    case Then(Start, e) => IsBuild(e) && !e.own
    case Then(b, e) => MayFollow(b, e) && Sound(b)
  }

  /** `h` is `g` with perhaps more after it. */
  predicate Extends(h: History, g: History) {
    h == g || (h.Then? && Extends(h.before, g))
  }

  lemma {:induction false} ExtendsOn(h: History, g: History, f: History)
    requires Extends(h, g) && Extends(g, f)
    ensures Extends(h, f)
    decreases h
  {
    if h != g {
      ExtendsOn(h.before, g, f);
    }
  }

  function Tries(h: History): nat {
    match h
    case Start => 0
    case Then(b, e) => Tries(b) + if e.Tried? then 1 else 0
  }

  function Builds(h: History): nat {
    match h
    case Start => 0
    case Then(b, e) => Builds(b) + if IsBuild(e) then 1 else 0
  }

  /** Failed builds since the engine last worked or was last there. */
  function FailedBuilds(h: History): nat {
    match h
    case Start => 0
    case Then(b, NotBuilt(_, _, _)) => FailedBuilds(b) + 1
    case Then(b, Asked(_, _)) => FailedBuilds(b)
    case Then(_, _) => 0
  }

  /** By how much the count is ahead of the builds that failed: by the rebuilds that succeeded before the
      capture's last one failed, or one behind after a start without a desktop. */
  function Ahead(h: History): int {
    match h
    case Then(Start, NotBuilt(_, _, _)) => -1
    case Then(b, NotBuilt(true, _, _)) => OwnRebuilds(b)
    case Then(b, NotBuilt(false, _, _)) => Ahead(b)
    case Then(b, Asked(_, _)) => Ahead(b)
    case _ => 0
  }

  /** Whether the user has been told of the outage there is. */
  function Notified(h: History): bool {
    match h
    case Then(b, NotBuilt(false, waiting, _)) =>
      Notified(b) || (b.Then? && !waiting && OUTAGE_NOTICE_ATTEMPTS <= CountedFailures(h))
    case Then(b, Asked(_, _)) => Notified(b)
    case _ => false
  }

  /** The count is exactly that far ahead, for as long as the engine is out. */
  lemma {:induction false} CountIsAhead(h: History)
    requires Sound(h)
    ensures CountedFailures(h) == FailedBuilds(h) + Ahead(h)
  {
    if h.Then? && h.before.Then? {
      if h.event.NotBuilt? && h.event.own {
        TriedHasNoFailures(h.before);
      } else if h.event.NotBuilt? || h.event.Asked? {
        CountIsAhead(h.before);
      }
    }
  }

  /** The count is ahead only after a build failed. */
  lemma {:induction false} AheadNeedsAFailure(h: History)
    ensures FailedBuilds(h) == 0 ==> Ahead(h) == 0
  {
    if h.Then? && h.event.Asked? {
      AheadNeedsAFailure(h.before);
    }
  }

  lemma TriedHasNoFailures(h: History)
    requires h.Then? && h.event.Tried?
    ensures FailedBuilds(h) == 0
  {
  }

  /** The user is told of no outage before two builds have failed in a row. */
  lemma {:induction false} NoticeMeansTwoFailures(h: History)
    requires Sound(h) && Notified(h)
    ensures 2 <= FailedBuilds(h)
  {
    if Notified(h.before) {
      NoticeMeansTwoFailures(h.before);
    } else {
      CountIsAhead(h);
      AheadNeedsAFailure(h.before);
      AheadIsSmall(h);
    }
  }

  /** At which of an outage's failed builds the notice comes: for another reason than the desktop's, and
      the third, less by how far the count is ahead. */
  lemma NoticeComesAt(b: History, waiting: bool, at: nat)
    requires b.Then? && Sound(Then(b, NotBuilt(false, waiting, at))) && !Notified(b)
    ensures var h := Then(b, NotBuilt(false, waiting, at));
      Notified(h) <==> !waiting && FailedBuilds(h) >= OUTAGE_NOTICE_ATTEMPTS - Ahead(b)
  {
    CountIsAhead(Then(b, NotBuilt(false, waiting, at)));
  }

  /** The count is never more than two ahead. */
  lemma {:induction false} AheadIsSmall(h: History)
    requires Sound(h)
    ensures -1 <= Ahead(h) < RECOVERY_RETRIES
  {
    if h.Then? && h.before.Then? && (h.event.Asked? || (h.event.NotBuilt? && !h.event.own)) {
      AheadIsSmall(h.before);
    }
  }

  /** A capture whose own rebuild fails, and then one build of the loop: the second failed build in a row
      raises the notice exactly if the capture had the engine rebuilt before, to no use. */
  lemma SecondFailedBuild(c: History, t: nat, u: nat)
    requires Sound(c) && c.Then? && Loses(c.event) && OwnRebuilds(c) < RECOVERY_RETRIES
    requires c.event.at + RecoveryDelay(OwnRebuilds(c) + 1) <= t
    requires t + RecoveryDelay(OwnRebuilds(c) + 1) <= u
    ensures var b := Then(c, NotBuilt(true, false, t));
      var h := Then(b, NotBuilt(false, false, u));
      Sound(h) && FailedBuilds(h) == 2 && !Notified(b) && (Notified(h) <==> 0 < OwnRebuilds(c))
  {
    var b := Then(c, NotBuilt(true, false, t));
    TriedHasNoFailures(c);
    assert c.before.Then?;
    assert Sound(b) && CountedFailures(b) == OwnRebuilds(c) + 1 && !Notified(b);
    assert CountedFailures(Then(b, NotBuilt(false, false, u))) == OwnRebuilds(c) + 2;
  }

  /** A capture that loses the engine, and after each back-off every engine rebuilt for it. */
  function LosingCapture(rebuilds: nat, t: nat): (h: History)
    ensures h.Then? && Loses(h.event)
  {
    if rebuilds == 0 then Then(Then(Start, Built(false, t)), Tried(Failed(true), t))
    else
      var before := LosingCapture(rebuilds - 1, t);
      var at := before.event.at + RecoveryDelay(rebuilds);
      Then(Then(before, Built(true, at)), Tried(Failed(true), at))
  }

  lemma {:induction false} LosingCaptureIsSound(rebuilds: nat, t: nat)
    requires rebuilds <= RECOVERY_RETRIES
    ensures Sound(LosingCapture(rebuilds, t)) && OwnRebuilds(LosingCapture(rebuilds, t)) == rebuilds
  {
    if rebuilds > 0 {
      LosingCaptureIsSound(rebuilds - 1, t);
      var before := LosingCapture(rebuilds - 1, t);
      assert Sound(Then(before, Built(true, before.event.at + RecoveryDelay(rebuilds))));
    } else {
      assert Sound(Then(Start, Built(false, t)));
    }
  }

  /** So with the second or the third of a capture's rebuilds failing, the notice comes at the second
      failed build in a row. */
  lemma NoticeAtTheSecondFailedBuild(rebuilds: nat, t: nat)
    requires 0 < rebuilds < RECOVERY_RETRIES
    ensures var c := LosingCapture(rebuilds, t);
      var failed := c.event.at + RecoveryDelay(rebuilds + 1);
      var b := Then(c, NotBuilt(true, false, failed));
      var h := Then(b, NotBuilt(false, false, failed + RecoveryDelay(rebuilds + 1)));
      Sound(h) && FailedBuilds(h) == 2 && !Notified(b) && Notified(h)
  {
    LosingCaptureIsSound(rebuilds, t);
    var c := LosingCapture(rebuilds, t);
    var failed := c.event.at + RecoveryDelay(rebuilds + 1);
    SecondFailedBuild(c, failed, failed + RecoveryDelay(rebuilds + 1));
  }

  function LastBuild(h: History): Option<Event> {
    match h
    case Start => None
    case Then(b, e) => if IsBuild(e) then Some(e) else LastBuild(b)
  }

  /** Questions asked since the last build. */
  function Asks(h: History): nat {
    match h
    case Then(b, Asked(_, _)) => Asks(b) + 1
    case _ => 0
  }

  /** While a build that failed for want of a desktop is the last one, nothing but questions follow
      it, no two closer than half a second. */
  lemma {:induction false} OnlyQuestionsWhileWaiting(h: History)
    requires Sound(h) && LastBuild(h).Some? && LastBuild(h).value.NotBuilt? && LastBuild(h).value.waiting
    ensures h.Then? && !h.event.Tried? && !h.event.Built?
    ensures LastBuild(h).value.at + Asks(h) * DESKTOP_POLL <= h.event.at
    ensures h.event.NotBuilt? <==> Asks(h) == 0
  {
    if !IsBuild(h.event) {
      OnlyQuestionsWhileWaiting(h.before);
    }
  }

  /** After a locked session the next question comes half a second later at the soonest, after displays that
      are off two seconds. */
  lemma QuestionsAreSpaced(h: History, e: Event)
    requires Sound(Then(h, e)) && h.Then? && h.event.Asked? && e.Asked?
    ensures h.event.answer != Ready
    ensures h.event.answer == Session ==> h.event.at + 500 <= e.at
    ensures h.event.answer == Displays ==> h.event.at + 2000 <= e.at
  {
    assert MayFollow(h, e);
  }

  /** Every try is made on an engine: the last build before it succeeded. */
  lemma {:induction false} TriesFollowABuild(h: History, e: Event)
    requires Sound(Then(h, e)) && e.Tried?
    ensures LastBuild(h).Some? && LastBuild(h).value.Built?
    decreases h
  {
    if h.event.Tried? {
      TriesFollowABuild(h.before, h.event);
    }
  }

  /** No engine is built for a waiting worker until the cheap question has been answered Ready. */
  lemma NoBuildBeforeReady(h: History, e: Event)
    requires Sound(Then(h, e)) && IsBuild(e)
    requires LastBuild(h).Some? && LastBuild(h).value.NotBuilt? && LastBuild(h).value.waiting
    ensures h.Then? && h.event.Asked? && h.event.answer == Ready
  {
    OnlyQuestionsWhileWaiting(h);
  }
}
