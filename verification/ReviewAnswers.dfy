/** What the protocol of ReviewProtocol makes of what comes from outside: the answers given to
    reviews, the writes that succeed or fail, and the moment exit begins. */
module ReviewAnswers {
  import opened Wrappers
  import opened ReviewProtocol

  // ---- What came from outside in a run ----

  datatype Write = Write(d: Draft, edited: bool, ok: bool)

  /** The answer each draft's review was given, the drafts whose edit came to nothing (no thread, no
      encoding, no write, or exit first), the answers dropped uncalled, the writes, and how many drafts
      were made when exit began. */
  datatype Log = Log(
    answered: map<Draft, Outcome>, setbacks: set<Draft>, dropped: set<nat>, writes: seq<Write>, exitAt: Option<nat>)

  const NOTHING := Log(map[], {}, {}, [], None)

  function Note(log: Log, s: State, step: Step): Log
    requires Enabled(s, step)
  {
    match step
    case Answer(c, _, outcome) =>
      (match DraftIn(s, c)
       case Some(d) => log.(answered := log.answered[d := outcome])
       case None => log)
    case Move(t, WriteKept(ok)) => log.(writes := log.writes + [Write(s.tasks[t].d, false, ok)])
    case Move(t, WriteEdited(ok)) =>
      SetBack(log, if ok then None else Some(s.tasks[t].d)).(writes := log.writes + [Write(s.tasks[t].d, true, ok)])
    case Move(t, SpawnFails) => SetBack(log, Some(s.tasks[t].d))
    case Move(t, TakeEdited(encoded)) => SetBack(log, if encoded then None else DraftIn(s, s.tasks[t].cell))
    case SaverTooLate => SetBack(log, DraftIn(s, s.exit.left[0].cell))
    case DropAnswer(c) => log.(dropped := log.dropped + {c})
    case WriteRescued(ok) => log.(writes := log.writes + [Write(s.exit.d, false, ok)])
    case EnterExit => if log.exitAt == None then log.(exitAt := Some(s.made)) else log
    case _ => log
  }

  function SetBack(log: Log, d: Option<Draft>): Log {
    if d.Some? then log.(setbacks := log.setbacks + {d.value}) else log
  }

  ghost predicate Noted(s: State, log: Log, u: State, more: Log) {
    exists step :: Enabled(s, step) && Apply(s, step) == u && Note(log, s, step) == more
  }

  /** A run and, for each of its states, what had come from outside by then. */
  ghost predicate Recorded(states: seq<State>, logs: seq<Log>) {
    && Run(states) && |logs| == |states| && logs[0] == NOTHING
    && forall i :: 0 <= i < |states| - 1 ==> GoesOnNoted(states, logs, i)
  }

  ghost predicate GoesOnNoted(states: seq<State>, logs: seq<Log>, i: nat)
    requires i + 1 < |states| == |logs|
  {
    Noted(states[i], logs[i], states[i + 1], logs[i + 1])
  }

  ghost predicate Reached(s: State, log: Log) {
    exists states, logs :: Recorded(states, logs) && states[|states| - 1] == s && logs[|logs| - 1] == log
  }

  lemma {:induction false} RunIsRecorded(states: seq<State>) returns (logs: seq<Log>)
    requires Run(states)
    ensures Recorded(states, logs)
    decreases |states|
  {
    if |states| == 1 {
      return [NOTHING];
    }
    var fewer := states[..|states| - 1];
    forall i | 0 <= i < |fewer| - 1
      ensures GoesOn(fewer, i)
    {
      assert GoesOn(states, i);
    }
    logs := RunIsRecorded(fewer);
    var s := fewer[|fewer| - 1];
    var step := StepAt(states, |states| - 2);
    var more := Note(logs[|logs| - 1], s, step);
    RecordedGoesOn(fewer, logs, step);
    assert fewer + [Apply(s, step)] == states;
    logs := logs + [more];
  }

  lemma RecordedGoesOn(states: seq<State>, logs: seq<Log>, step: Step)
    requires Recorded(states, logs) && Enabled(states[|states| - 1], step)
    ensures var s, log := states[|states| - 1], logs[|logs| - 1];
      Recorded(states + [Apply(s, step)], logs + [Note(log, s, step)])
  {
    var s, log := states[|states| - 1], logs[|logs| - 1];
    var u, more := Apply(s, step), Note(log, s, step);
    var all, notes := states + [u], logs + [more];
    assert Follows(s, u) && Noted(s, log, u, more);
    forall i | 0 <= i < |all| - 1
      ensures GoesOn(all, i) && GoesOnNoted(all, notes, i)
    {
      assert i < |states| - 1 ==> GoesOn(states, i) && GoesOnNoted(states, logs, i);
    }
  }

  /** Every reachable state is one that was reached with some answers, writes and exit. */
  lemma ReachableIsReached(s: State) returns (log: Log)
    requires Reachable(s)
    ensures Reached(s, log)
  {
    var states :| Run(states) && states[|states| - 1] == s;
    var logs := RunIsRecorded(states);
    log := logs[|logs| - 1];
  }

  // ---- What the answer to a review says of its draft ----

  function AnswerTo(log: Log, d: Draft): Option<Outcome> {
    if d in log.answered then Some(log.answered[d]) else None
  }

  /** Whether what is known of the draft's review closes it for those behind it: it was closed, or never
      opened. */
  predicate Closes(log: Log, d: Draft) {
    AnswerTo(log, d) == None || AnswerTo(log, d) == Some(Closed)
  }

  predicate Unanswered(log: Log, d: Draft) {
    d !in log.answered && d !in log.setbacks
  }

  predicate ToBeEdited(s: State, log: Log, d: Draft) {
    AnswerTo(log, d) == Some(Save(true)) && d in s.order.turns
  }

  /** The draft whose turn came last. */
  predicate IsLast(s: State, d: Draft) {
    s.order.turns != [] && s.order.turns[|s.order.turns| - 1] == d
  }

  predicate BeforeExit(log: Log, d: Draft) {
    log.exitAt.Some? ==> d < log.exitAt.value
  }

  /** How far a thread's doing accords with the answers given. */
  predicate TaskFits(s: State, log: Log, task: Task) {
    match task
    case Ended(d) => Unanswered(log, d)
    case Queueing(d) => Unanswered(log, d) && BeforeExit(log, d)
    case Opening(d) => IsLast(s, d) && Unanswered(log, d)
    case Concluding(d, outcome) =>
      IsLast(s, d) && d !in log.setbacks && outcome == if d in log.answered then log.answered[d] else Closed
    case Keeping(d, reviewed) =>
      (match reviewed
       case Some(closing) => IsLast(s, d) && closing == Closes(log, d)
       case None => d in s.order.turns || log.exitAt.Some?)
      && AnswerTo(log, d) != Some(Discard) && (AnswerTo(log, d) == Some(Save(true)) ==> d in log.setbacks)
    case Registering(c, _) => c in s.given && IsLast(s, s.given[c].d) && ToBeEdited(s, log, s.given[c].d)
    case Concluded(closing) =>
      s.order.turns != [] && closing == Closes(log, s.order.turns[|s.order.turns| - 1])
    case WritingEdit(d) => ToBeEdited(s, log, d) && d !in log.setbacks
    case _ => true
  }

  predicate CellFits(s: State, log: Log, cell: Cell) {
    cell.draft.Some? ==>
      if cell.review then IsLast(s, cell.draft.value) && Unanswered(log, cell.draft.value)
      else ToBeEdited(s, log, cell.draft.value) && cell.draft.value !in log.setbacks
  }

  /** A draft is let go exactly if that was the answer, saved edited exactly if that was the answer and
      nothing came in between, and while exit has not begun it has had its turn to be reviewed. */
  predicate FateFits(s: State, log: Log, d: Draft, fate: Fate) {
    && (fate == Discarded <==> AnswerTo(log, d) == Some(Discard))
    && (fate == SavedEdited <==> AnswerTo(log, d) == Some(Save(true)) && d !in log.setbacks)
    && (d in s.order.turns || log.exitAt.Some?)
  }

  ghost predicate TasksFit(s: State, log: Log) {
    forall t :: t in s.tasks ==> TaskFits(s, log, s.tasks[t])
  }

  ghost predicate DraftsFit(s: State, log: Log) {
    && (forall c :: c in s.cells ==> CellFits(s, log, s.cells[c]))
    && (forall c :: c in s.given ==> ToBeEdited(s, log, s.given[c].d))
    && (s.exit.Rescuing? ==> ToBeEdited(s, log, s.exit.d) && s.exit.d in log.setbacks)
    && (forall d :: d in s.queue.waiting ==> Unanswered(log, d))
  }

  ghost predicate FatesFit(s: State, log: Log) {
    forall i :: 0 <= i < |s.fates| ==> FateFits(s, log, s.fates[i].0, s.fates[i].1)
  }

  ghost predicate ExitFits(s: State, log: Log) {
    && (log.exitAt.None? <==> s.exit.Running?)
    && (log.exitAt.Some? ==> log.exitAt.value <= s.made)
    && (forall d :: d in s.order.arrivals ==> d < s.made && BeforeExit(log, d))
    && (forall d :: d in log.answered || d in log.setbacks ==> d < s.made)
    && (forall d :: d in log.answered ==> d in s.order.turns)
  }

  ghost predicate Fits(s: State, log: Log) {
    TasksFit(s, log) && DraftsFit(s, log) && FatesFit(s, log) && ExitFits(s, log)
  }

  // ---- What a step changes of it ----

  /** Nothing of the past is forgotten: turns, grants, and the beginning of exit. */
  ghost predicate PastStays(s: State, log: Log, u: State, more: Log) {
    && s.order.turns <= u.order.turns
    && (forall c :: c in s.given ==> c in u.given && u.given[c] == s.given[c])
    && (log.exitAt.Some? ==> more.exitAt == log.exitAt)
  }

  lemma StepGoesOn(s: State, step: Step, log: Log)
    requires SaversKnown(s) && Enabled(s, step)
    ensures PastStays(s, log, Apply(s, step), Note(log, s, step))
  {
    GrantsLast(s, step);
    if step.Move? {
      assert Apply(s, step).order == Effect(s, s.tasks[step.task], step.act).order;
    }
  }

  /** Where the draft is that a step is about. */
  function Subject(s: State, step: Step): Option<Place>
    requires Enabled(s, step)
  {
    match step
    case Move(t, TakeEdited(_)) => Some(InCell(s.tasks[t].cell))
    case Move(t, _) => Some(InTask(t))
    case Answer(c, _, _) => Some(InCell(c))
    case SaverTooLate => Some(InCell(s.exit.left[0].cell))
    case _ => None
  }

  predicate SameStory(log: Log, more: Log, d: Draft) {
    AnswerTo(more, d) == AnswerTo(log, d) && (d in more.setbacks <==> d in log.setbacks)
  }

  /** The story of every draft but the one a step is about is as it was. */
  lemma StoriesStay(s: State, step: Step, log: Log, w: map<Draft, Place>, p: Place, d: Draft)
    requires Locates(s, w) && Enabled(s, step) && At(s, p, d) && Subject(s, step) != Some(p)
    ensures SameStory(log, Note(log, s, step), d)
  {
    assert d in w && w[d] == p;
    match step {
      case Answer(c, _, _) => assert DraftIn(s, c).Some? ==> At(s, InCell(c), DraftIn(s, c).value);
      case SaverTooLate =>
        var c := s.exit.left[0].cell;
        assert DraftIn(s, c).Some? ==> At(s, InCell(c), DraftIn(s, c).value);
      case Move(t, act) =>
        if act.TakeEdited? {
          var c := s.tasks[t].cell;
          assert DraftIn(s, c).Some? ==> At(s, InCell(c), DraftIn(s, c).value);
        } else if Holds(s.tasks[t]).Some? {
          assert At(s, InTask(t), Holds(s.tasks[t]).value);
        }
      case _ =>
    }
  }

  /** A thread that stands for no review goes by its own draft's answer alone. */
  lemma BystanderFits(s: State, log: Log, u: State, more: Log, task: Task)
    requires TaskFits(s, log, task) && PastStays(s, log, u, more) && !Reviewing(task)
    requires Holds(task).Some? ==> SameStory(log, more, Holds(task).value)
    requires task.Queueing? ==> BeforeExit(more, task.d)
    ensures TaskFits(u, more, task)
  {
  }

  lemma ReviewerFits(s: State, log: Log, u: State, more: Log, task: Task)
    requires TaskFits(s, log, task) && PastStays(s, log, u, more) && Reviewing(task)
    requires u.order.turns == s.order.turns && more.answered == log.answered
    requires Holds(task).Some? ==> SameStory(log, more, Holds(task).value)
    ensures TaskFits(u, more, task)
  {
  }

  /** While one thread stands for the open review, no other step answers one or begins the next. */
  lemma ReviewerUndisturbed(s: State, step: Step, log: Log, review: Option<Place>, k: nat)
    requires OneReview(s, review) && CellsKept(s) && Enabled(s, step)
    requires HasReview(s, InTask(k)) && !(step.Move? && step.task == k)
    ensures Apply(s, step).order.turns == s.order.turns && Note(log, s, step).answered == log.answered
  {
    if ReviewBefore(s, step).Some? {
      ReviewPassesOn(s, step, review);
    }
    if step.Move? {
      assert Apply(s, step).order == Effect(s, s.tasks[step.task], step.act).order;
    }
  }

  /** Threads that do nothing in a step. */
  lemma OtherTaskFits(s: State, step: Step, log: Log, w: map<Draft, Place>, review: Option<Place>, k: nat)
    requires Locates(s, w) && OneReview(s, review) && CellsKept(s) && SaversKnown(s) && Fits(s, log)
    requires Enabled(s, step) && k in s.tasks && !(step.Move? && step.task == k)
    ensures TaskFits(Apply(s, step), Note(log, s, step), s.tasks[k])
  {
    var task := s.tasks[k];
    var u, more := Apply(s, step), Note(log, s, step);
    StepGoesOn(s, step, log);
    if Holds(task).Some? {
      assert At(s, InTask(k), Holds(task).value);
      StoriesStay(s, step, log, w, InTask(k), Holds(task).value);
    }
    if Reviewing(task) {
      assert HasReview(s, InTask(k));
      ReviewerUndisturbed(s, step, log, review, k);
      ReviewerFits(s, log, u, more, task);
    } else {
      BystanderFits(s, log, u, more, task);
    }
  }

  predicate BeforeAnswer(act: Act) {
    act in {KeepHandle, EndWithoutDraft, ReadExiting, EnterQueue, NoDesktop, RequestAccepted, RequestRefused}
    || act.RequestReview?
  }

  lemma NextTaskFitsBeforeAnswer(s: State, t: nat, act: Act, log: Log)
    requires CellsKept(s) && Fits(s, log) && Enabled(s, Move(t, act)) && BeforeAnswer(act)
    ensures TaskFits(Apply(s, Move(t, act)), Note(log, s, Move(t, act)), NextTask(s, s.tasks[t], act))
  {
    var task := s.tasks[t];
    assert TaskFits(s, log, task) && TaskKept(s, task);
    assert Apply(s, Move(t, act)).order == Effect(s, task, act).order;
    if act.RequestRefused? {
      assert CellFits(s, log, s.cells[task.cell]);
    }
  }

  lemma NextTaskFitsOnSettling(s: State, t: nat, act: Act, log: Log)
    requires CellsKept(s) && Fits(s, log) && Enabled(s, Move(t, act))
    requires act.Settle? || act.SpawnSaver? || act.SpawnFails? || act.Register? || act.WriteKept?
    ensures TaskFits(Apply(s, Move(t, act)), Note(log, s, Move(t, act)), NextTask(s, s.tasks[t], act))
  {
    var task := s.tasks[t];
    assert TaskFits(s, log, task);
    assert Apply(s, Move(t, act)).order == Effect(s, task, act).order;
    assert Apply(s, Move(t, act)).given == Effect(s, task, act).given;
  }

  lemma NextTaskFitsAfterwards(s: State, t: nat, act: Act, log: Log)
    requires CellsKept(s) && Fits(s, log) && Enabled(s, Move(t, act))
    requires act.AdvanceQueue? || act.TakeEdited? || act.WriteEdited?
    ensures TaskFits(Apply(s, Move(t, act)), Note(log, s, Move(t, act)), NextTask(s, s.tasks[t], act))
  {
    var task := s.tasks[t];
    assert TaskFits(s, log, task) && TaskKept(s, task);
    assert Apply(s, Move(t, act)).order == Effect(s, task, act).order;
    if act.AdvanceQueue? && s.queue.waiting != [] {
      assert Unanswered(log, s.queue.waiting[0]);
    } else if act.TakeEdited? {
      assert CellFits(s, log, s.cells[task.cell]);
    }
  }

  /** The thread that acts. */
  lemma NextTaskFits(s: State, t: nat, act: Act, log: Log)
    requires CellsKept(s) && SaversKnown(s) && Fits(s, log) && Enabled(s, Move(t, act))
    ensures TaskFits(Apply(s, Move(t, act)), Note(log, s, Move(t, act)), NextTask(s, s.tasks[t], act))
  {
    if BeforeAnswer(act) {
      NextTaskFitsBeforeAnswer(s, t, act, log);
    } else if act.AdvanceQueue? || act.TakeEdited? || act.WriteEdited? {
      NextTaskFitsAfterwards(s, t, act, log);
    } else {
      NextTaskFitsOnSettling(s, t, act, log);
    }
  }

  lemma AnsweredTaskFits(s: State, c: nat, t: nat, outcome: Outcome, log: Log)
    requires CellsKept(s) && Fits(s, log) && Enabled(s, Answer(c, t, outcome))
    ensures var u := Apply(s, Answer(c, t, outcome));
      t in u.tasks && TaskFits(u, Note(log, s, Answer(c, t, outcome)), u.tasks[t])
  {
    assert IsReviewCell(s, c) && CellFits(s, log, s.cells[c]);
  }

  lemma StepKeepsTasksFit(s: State, step: Step, log: Log, w: map<Draft, Place>, review: Option<Place>)
    requires Safe(s, w, review) && Fits(s, log) && Enabled(s, step)
    ensures TasksFit(Apply(s, step), Note(log, s, step))
  {
    var u, more := Apply(s, step), Note(log, s, step);
    forall k | k in u.tasks
      ensures TaskFits(u, more, u.tasks[k])
    {
      if step.Move? {
        ActMovesTask(s, step.task, step.act);
      }
      if step.Move? && k == step.task {
        NextTaskFits(s, k, step.act, log);
      } else if step.Answer? && k == step.task {
        AnsweredTaskFits(s, step.cell, k, step.outcome, log);
      } else if k in s.tasks && u.tasks[k] == s.tasks[k] {
        OtherTaskFits(s, step, log, w, review, k);
      } else {
        NewTaskFits(s, step, log, w, k);
      }
    }
  }

  /** A recording that ends, and threads that come up. */
  lemma NewTaskFits(s: State, step: Step, log: Log, w: map<Draft, Place>, k: nat)
    requires Locates(s, w) && Fits(s, log) && Enabled(s, step) && k in Apply(s, step).tasks
    requires !(k in s.tasks && Apply(s, step).tasks[k] == s.tasks[k])
    requires !(step.Move? && k == step.task) && !(step.Answer? && k == step.task)
    requires forall d :: d in log.answered || d in log.setbacks ==> d < s.made
    ensures TaskFits(Apply(s, step), Note(log, s, step), Apply(s, step).tasks[k])
  {
    if step.Move? {
      ActMovesTask(s, step.task, step.act);
    }
  }

  /** Shared drafts that a step leaves where they are. */
  lemma OtherCellFits(s: State, step: Step, log: Log, w: map<Draft, Place>, review: Option<Place>, c: nat)
    requires Safe(s, w, review) && Fits(s, log) && Enabled(s, step)
    requires c in s.cells && c in Apply(s, step).cells && Apply(s, step).cells[c] == s.cells[c]
    ensures CellFits(Apply(s, step), Note(log, s, step), s.cells[c])
  {
    var cell := s.cells[c];
    StepGoesOn(s, step, log);
    if cell.draft.Some? && Subject(s, step) != Some(InCell(c)) {
      assert At(s, InCell(c), cell.draft.value);
      StoriesStay(s, step, log, w, InCell(c), cell.draft.value);
      if cell.review {
        assert HasReview(s, InCell(c));
        CellReviewUndisturbed(s, step, review, c);
      }
    }
  }

  lemma CellReviewUndisturbed(s: State, step: Step, review: Option<Place>, c: nat)
    requires OneReview(s, review) && CellsKept(s) && Enabled(s, step) && HasReview(s, InCell(c))
    ensures Apply(s, step).order.turns == s.order.turns
  {
    if ReviewBefore(s, step).Some? {
      ReviewPassesOn(s, step, review);
    }
    if step.Move? {
      assert Apply(s, step).order == Effect(s, s.tasks[step.task], step.act).order;
    }
  }

  /** A draft put into a cell for its review or for its saver. */
  lemma ActKeepsCellsFit(s: State, t: nat, act: Act, log: Log, c: nat)
    requires Fits(s, log) && Enabled(s, Move(t, act)) && c in Apply(s, Move(t, act)).cells
    requires !(c in s.cells && Apply(s, Move(t, act)).cells[c] == s.cells[c])
    ensures CellFits(Apply(s, Move(t, act)), Note(log, s, Move(t, act)), Apply(s, Move(t, act)).cells[c])
  {
    assert TaskFits(s, log, s.tasks[t]);
    var u := Effect(s, s.tasks[t], act);
    assert Apply(s, Move(t, act)).cells == u.cells && Apply(s, Move(t, act)).order == u.order;
  }

  lemma StepKeepsCellsFit(s: State, step: Step, log: Log, w: map<Draft, Place>, review: Option<Place>)
    requires Safe(s, w, review) && Fits(s, log) && Enabled(s, step)
    ensures forall c :: c in Apply(s, step).cells ==> CellFits(Apply(s, step), Note(log, s, step), Apply(s, step).cells[c])
  {
    var u, more := Apply(s, step), Note(log, s, step);
    forall c | c in u.cells
      ensures CellFits(u, more, u.cells[c])
    {
      if c in s.cells && u.cells[c] == s.cells[c] {
        OtherCellFits(s, step, log, w, review, c);
      } else if step.Move? {
        ActKeepsCellsFit(s, step.task, step.act, log, c);
      } else {
        assert u.cells[c].draft == None;
      }
    }
  }

  lemma GrantFits(s: State, step: Step, log: Log, w: map<Draft, Place>, review: Option<Place>, c: nat)
    requires Safe(s, w, review) && Fits(s, log) && Enabled(s, step) && c in s.given
    ensures c in Apply(s, step).given && ToBeEdited(Apply(s, step), Note(log, s, step), Apply(s, step).given[c].d)
  {
    StepGoesOn(s, step, log);
    var d := s.given[c].d;
    assert At(s, w[d], d) && InGoodHands(s, c, w[d]);
    if step.Answer? && DraftIn(s, step.cell).Some? {
      assert IsReviewCell(s, step.cell) && At(s, InCell(step.cell), DraftIn(s, step.cell).value);
    }
  }

  lemma StepKeepsGrantsFit(s: State, step: Step, log: Log, w: map<Draft, Place>, review: Option<Place>)
    requires Safe(s, w, review) && Fits(s, log) && Enabled(s, step)
    ensures forall c :: c in Apply(s, step).given ==>
      ToBeEdited(Apply(s, step), Note(log, s, step), Apply(s, step).given[c].d)
  {
    var u, more := Apply(s, step), Note(log, s, step);
    forall c | c in u.given
      ensures ToBeEdited(u, more, u.given[c].d)
    {
      if c in s.given {
        GrantFits(s, step, log, w, review, c);
      } else {
        assert TaskFits(s, log, s.tasks[step.task]);
      }
    }
  }

  lemma StepKeepsRescueFit(s: State, step: Step, log: Log, w: map<Draft, Place>, review: Option<Place>)
    requires Safe(s, w, review) && Fits(s, log) && Enabled(s, step)
    ensures Apply(s, step).exit.Rescuing? ==>
      ToBeEdited(Apply(s, step), Note(log, s, step), Apply(s, step).exit.d)
      && Apply(s, step).exit.d in Note(log, s, step).setbacks
  {
    StepGoesOn(s, step, log);
    if s.exit.Rescuing? {
      assert At(s, AtExit, s.exit.d);
      StoriesStay(s, step, log, w, AtExit, s.exit.d);
    }
    if step.SaverTooLate? {
      assert s.exit.left[0] in StillToJoin(s);
      assert CellFits(s, log, s.cells[s.exit.left[0].cell]);
    }
    if step.Move? {
      assert Apply(s, step).exit == Effect(s, s.tasks[step.task], step.act).exit;
    }
  }

  lemma StepKeepsWaitingFit(s: State, step: Step, log: Log, w: map<Draft, Place>, review: Option<Place>)
    requires Safe(s, w, review) && Fits(s, log) && Enabled(s, step)
    ensures forall d :: d in Apply(s, step).queue.waiting ==> Unanswered(Note(log, s, step), d)
  {
    forall d | d in Apply(s, step).queue.waiting
      ensures Unanswered(Note(log, s, step), d)
    {
      if d in s.queue.waiting {
        assert At(s, Waiting, d);
        StoriesStay(s, step, log, w, Waiting, d);
      } else {
        assert TaskFits(s, log, s.tasks[step.task]);
        assert Apply(s, step).queue == Effect(s, s.tasks[step.task], step.act).queue;
      }
    }
  }

  /** The fate a step gives, if it gives one. */
  lemma StepGivesFate(s: State, step: Step, log: Log) returns (given: seq<(Draft, Fate)>)
    requires Fits(s, log) && Enabled(s, step)
    ensures Apply(s, step).fates == s.fates + given && |given| <= 1
    ensures given != [] ==> FateFits(s, log, given[0].0, given[0].1)
    ensures given != [] ==> Note(log, s, step).answered == log.answered && Note(log, s, step).setbacks == log.setbacks
  {
    given := [];
    match step {
      case Move(t, act) =>
        assert TaskFits(s, log, s.tasks[t]);
        assert Apply(s, step).fates == Effect(s, s.tasks[t], act).fates;
        given := Effect(s, s.tasks[t], act).fates[|s.fates|..];
      case WriteRescued(ok) => given := [(s.exit.d, Kept(ok))];
      case _ =>
    }
  }

  lemma FateStillFits(s: State, step: Step, log: Log, w: map<Draft, Place>, i: nat)
    requires Locates(s, w) && SaversKnown(s) && Fits(s, log) && Enabled(s, step) && i < |s.fates|
    ensures FateFits(Apply(s, step), Note(log, s, step), s.fates[i].0, s.fates[i].1)
  {
    StepGoesOn(s, step, log);
    assert At(s, Done, s.fates[i].0);
    StoriesStay(s, step, log, w, Done, s.fates[i].0);
  }

  lemma StepKeepsFatesFit(s: State, step: Step, log: Log, w: map<Draft, Place>, review: Option<Place>)
    requires Safe(s, w, review) && Fits(s, log) && Enabled(s, step)
    ensures FatesFit(Apply(s, step), Note(log, s, step))
  {
    var u, more := Apply(s, step), Note(log, s, step);
    var given := StepGivesFate(s, step, log);
    StepGoesOn(s, step, log);
    forall i | 0 <= i < |s.fates|
      ensures FateFits(u, more, s.fates[i].0, s.fates[i].1)
    {
      FateStillFits(s, step, log, w, i);
    }
    if given != [] {
      NewFateFits(s, log, u, more, given[0].0, given[0].1);
    }
    FatesJoin(s.fates, given, u, more);
  }

  lemma NewFateFits(s: State, log: Log, u: State, more: Log, d: Draft, fate: Fate)
    requires FateFits(s, log, d, fate) && PastStays(s, log, u, more)
    requires more.answered == log.answered && more.setbacks == log.setbacks
    ensures FateFits(u, more, d, fate)
  {
  }

  lemma FatesJoin(before: seq<(Draft, Fate)>, given: seq<(Draft, Fate)>, u: State, more: Log)
    requires u.fates == before + given && |given| <= 1
    requires forall i :: 0 <= i < |before| ==> FateFits(u, more, before[i].0, before[i].1)
    requires given != [] ==> FateFits(u, more, given[0].0, given[0].1)
    ensures FatesFit(u, more)
  {
  }

  /** A step's story is of a draft there is. */
  lemma SubjectIsMade(s: State, step: Step, log: Log, w: map<Draft, Place>)
    requires Locates(s, w) && Fits(s, log) && Enabled(s, step)
    ensures forall d :: d in Note(log, s, step).answered || d in Note(log, s, step).setbacks ==> d < s.made
  {
    if Subject(s, step).Some? {
      var p := Subject(s, step).value;
      if p.InCell? {
        assert DraftIn(s, p.cell).Some? ==> At(s, p, DraftIn(s, p.cell).value);
      } else if Holds(s.tasks[p.task]).Some? {
        assert At(s, p, Holds(s.tasks[p.task]).value);
      }
    }
  }

  lemma ActKeepsArrivals(s: State, t: nat, act: Act, log: Log, w: map<Draft, Place>)
    requires Locates(s, w) && Fits(s, log) && Enabled(s, Move(t, act))
    ensures forall d :: d in Effect(s, s.tasks[t], act).order.arrivals ==> d < s.made && BeforeExit(log, d)
    ensures forall d :: d in s.order.turns ==> d in Effect(s, s.tasks[t], act).order.turns
  {
    if act.EnterQueue? {
      assert TaskFits(s, log, s.tasks[t]) && At(s, InTask(t), s.tasks[t].d);
    }
  }

  lemma ActKeepsExitFit(s: State, t: nat, act: Act, log: Log, w: map<Draft, Place>)
    requires Locates(s, w) && Fits(s, log) && Enabled(s, Move(t, act))
    ensures ExitFits(Apply(s, Move(t, act)), Note(log, s, Move(t, act)))
  {
    SubjectIsMade(s, Move(t, act), log, w);
    ActKeepsArrivals(s, t, act, log, w);
    var u := Effect(s, s.tasks[t], act);
    assert u.exit == s.exit && u.made == s.made;
  }

  lemma AnswerKeepsExitFit(s: State, c: nat, t: nat, outcome: Outcome, log: Log, w: map<Draft, Place>)
    requires Locates(s, w) && CellsKept(s) && Fits(s, log) && Enabled(s, Answer(c, t, outcome))
    ensures ExitFits(Apply(s, Answer(c, t, outcome)), Note(log, s, Answer(c, t, outcome)))
  {
    SubjectIsMade(s, Answer(c, t, outcome), log, w);
    assert IsReviewCell(s, c) && CellFits(s, log, s.cells[c]);
  }

  lemma StepKeepsExitFit(s: State, step: Step, log: Log, w: map<Draft, Place>, review: Option<Place>)
    requires Safe(s, w, review) && Fits(s, log) && Enabled(s, step)
    ensures ExitFits(Apply(s, step), Note(log, s, step))
  {
    match step {
      case Move(t, act) => ActKeepsExitFit(s, t, act, log, w);
      case Answer(c, t, outcome) => AnswerKeepsExitFit(s, c, t, outcome, log, w);
      case _ => QuietStepKeepsExitFit(s, step, log, w);
    }
  }

  lemma QuietStepKeepsExitFit(s: State, step: Step, log: Log, w: map<Draft, Place>)
    requires Locates(s, w) && Fits(s, log) && Enabled(s, step) && !step.Move? && !step.Answer?
    ensures ExitFits(Apply(s, step), Note(log, s, step))
  {
    SubjectIsMade(s, step, log, w);
  }

  lemma StepKeepsFit(s: State, step: Step, log: Log, w: map<Draft, Place>, review: Option<Place>)
    requires Safe(s, w, review) && Fits(s, log) && Enabled(s, step)
    ensures Fits(Apply(s, step), Note(log, s, step))
  {
    StepKeepsTasksFit(s, step, log, w, review);
    StepKeepsCellsFit(s, step, log, w, review);
    StepKeepsGrantsFit(s, step, log, w, review);
    StepKeepsRescueFit(s, step, log, w, review);
    StepKeepsWaitingFit(s, step, log, w, review);
    StepKeepsFatesFit(s, step, log, w, review);
    StepKeepsExitFit(s, step, log, w, review);
  }

  // ---- Writes and fates ----

  /** What the writes told the user, in order: a failed edit is not the end of its draft. */
  function Reported(writes: seq<Write>): seq<(Draft, Fate)> {
    if writes == [] then []
    else
      var w := writes[|writes| - 1];
      Reported(writes[..|writes| - 1]) +
        if w.ok then [(w.d, if w.edited then SavedEdited else SavedAsRecorded)]
        else if w.edited then [] else [(w.d, WriteFailed)]
  }

  /** The fates of the drafts that were not let go. */
  function Undiscarded(fates: seq<(Draft, Fate)>): seq<(Draft, Fate)> {
    if fates == [] then []
    else
      var f := fates[|fates| - 1];
      Undiscarded(fates[..|fates| - 1]) + if f.1 == Discarded then [] else [f]
  }

  lemma OneMoreWrite(writes: seq<Write>, w: Write)
    ensures Reported(writes + [w]) == Reported(writes) +
      if w.ok then [(w.d, if w.edited then SavedEdited else SavedAsRecorded)]
      else if w.edited then [] else [(w.d, WriteFailed)]
  {
    assert (writes + [w])[..|writes|] == writes;
  }

  lemma OneMoreFate(fates: seq<(Draft, Fate)>, f: (Draft, Fate))
    ensures Undiscarded(fates + [f]) == Undiscarded(fates) + if f.1 == Discarded then [] else [f]
  {
    assert (fates + [f])[..|fates|] == fates;
  }

  /** Fates are written by the writes, and by nothing else but a discard. */
  ghost predicate WritesTell(s: State, log: Log) {
    Undiscarded(s.fates) == Reported(log.writes)
  }

  lemma ActKeepsWrites(s: State, t: nat, act: Act, log: Log)
    requires WritesTell(s, log) && Enabled(s, Move(t, act))
    ensures WritesTell(Effect(s, s.tasks[t], act), Note(log, s, Move(t, act)))
  {
    var task := s.tasks[t];
    match act {
      case WriteKept(ok) =>
        OneMoreWrite(log.writes, Write(task.d, false, ok));
        OneMoreFate(s.fates, (task.d, Kept(ok)));
      case WriteEdited(ok) =>
        OneMoreWrite(log.writes, Write(task.d, true, ok));
        OneMoreFate(s.fates, (task.d, SavedEdited));
      case Settle => if task.outcome.Discard? { OneMoreFate(s.fates, (task.d, Discarded)); }
      case _ =>
    }
  }

  lemma StepKeepsWrites(s: State, step: Step, log: Log)
    requires WritesTell(s, log) && Enabled(s, step)
    ensures WritesTell(Apply(s, step), Note(log, s, step))
  {
    match step {
      case Move(t, act) => ActKeepsWrites(s, t, act, log);
      case WriteRescued(ok) =>
        OneMoreWrite(log.writes, Write(s.exit.d, false, ok));
        OneMoreFate(s.fates, (s.exit.d, Kept(ok)));
      case _ =>
    }
  }

  // ---- Who still has a draft ----

  /** A review's draft is with its answer, until that is called, or dropped uncalled. */
  ghost predicate AnswersOut(s: State, log: Log) {
    && (forall c :: IsReviewCell(s, c) && s.cells[c].draft.Some? ==> c in s.answers || c in log.dropped)
    && (forall c :: c in log.dropped ==> c in s.cells && c !in s.answers)
  }

  lemma StepKeepsAnswersOut(s: State, step: Step, log: Log)
    requires AnswersOut(s, log) && CellsKept(s) && Enabled(s, step)
    ensures AnswersOut(Apply(s, step), Note(log, s, step))
  {
    if step.Move? {
      var u := Effect(s, s.tasks[step.task], step.act);
      assert Apply(s, step).cells == u.cells && Apply(s, step).answers == u.answers;
    }
  }

  // ---- Every run ----

  ghost predicate Told(s: State, log: Log) {
    Fits(s, log) && WritesTell(s, log) && AnswersOut(s, log)
  }

  lemma NotedAt(states: seq<State>, logs: seq<Log>, i: nat) returns (step: Step)
    requires Recorded(states, logs) && i + 1 < |states|
    ensures Enabled(states[i], step) && Apply(states[i], step) == states[i + 1]
    ensures Note(logs[i], states[i], step) == logs[i + 1]
  {
    assert GoesOnNoted(states, logs, i);
    step :| Enabled(states[i], step) && Apply(states[i], step) == states[i + 1]
      && Note(logs[i], states[i], step) == logs[i + 1];
  }

  lemma StartIsTold()
    ensures Told(START, NOTHING)
  {
  }

  lemma {:induction false} RunIsTold(states: seq<State>, logs: seq<Log>, i: nat)
    requires Recorded(states, logs) && i < |states|
    ensures Told(states[i], logs[i])
    decreases i
  {
    if i == 0 {
      StartIsTold();
    } else {
      RunIsTold(states, logs, i - 1);
      ToldGoesOn(states, logs, i - 1);
    }
  }

  lemma ToldGoesOn(states: seq<State>, logs: seq<Log>, i: nat)
    requires Recorded(states, logs) && i + 1 < |states| && Told(states[i], logs[i])
    ensures Told(states[i + 1], logs[i + 1])
  {
    var w, review := RunIsSafe(states, i);
    var step := NotedAt(states, logs, i);
    StepKeepsTold(states[i], step, logs[i], w, review);
  }

  lemma StepKeepsTold(s: State, step: Step, log: Log, w: map<Draft, Place>, review: Option<Place>)
    requires Safe(s, w, review) && Told(s, log) && Enabled(s, step)
    ensures Told(Apply(s, step), Note(log, s, step))
  {
    StepKeepsFit(s, step, log, w, review);
    StepKeepsWrites(s, step, log);
    StepKeepsAnswersOut(s, step, log);
  }

  lemma ReachedIsTold(s: State, log: Log)
    requires Reached(s, log)
    ensures Told(s, log) && Reachable(s)
  {
    var states, logs :| Recorded(states, logs) && states[|states| - 1] == s && logs[|logs| - 1] == log;
    RunIsTold(states, logs, |states| - 1);
  }

  /** A draft is let go exactly if its review was answered so; it is saved edited exactly if an edit was
      answered and nothing came in between; and every other draft is saved as it was recorded, or
      reported as unwritten. */
  lemma FateIsAsAnswered(s: State, log: Log, d: Draft, fate: Fate)
    requires Reached(s, log) && (d, fate) in s.fates
    ensures fate == Discarded <==> AnswerTo(log, d) == Some(Discard)
    ensures fate == SavedEdited <==> AnswerTo(log, d) == Some(Save(true)) && d !in log.setbacks
    ensures AnswerTo(log, d) !in {Some(Discard), Some(Save(true))} ==> fate == SavedAsRecorded || fate == WriteFailed
  {
    ReachedIsTold(s, log);
    var i :| 0 <= i < |s.fates| && s.fates[i] == (d, fate);
    assert FateFits(s, log, s.fates[i].0, s.fates[i].1);
  }

  /** Drafts are said to be saved, or not to be, exactly as the writes went, one after another. */
  lemma FatesAreAsWritten(s: State, log: Log)
    requires Reached(s, log)
    ensures Undiscarded(s.fates) == Reported(log.writes)
  {
    ReachedIsTold(s, log);
  }

  /** Until exit begins, no recording is dealt with before its turn to be reviewed; and none that ends
      afterwards is ever reviewed. */
  lemma ReviewedUnlessExiting(s: State, log: Log, d: Draft)
    requires Reached(s, log)
    ensures Decided(s.fates, d) && s.exit.Running? ==> d in s.order.turns
    ensures log.exitAt.Some? && log.exitAt.value <= d ==> d !in s.order.arrivals && d !in log.answered
  {
    ReachedIsTold(s, log);
    ReviewsTakeTurns(s);
    if Decided(s.fates, d) {
      var i :| 0 <= i < |s.fates| && s.fates[i].0 == d;
      assert FateFits(s, log, s.fates[i].0, s.fates[i].1);
    }
  }

  /** The draft that waited longest is reviewed next, unless the review before it was closed, or never
      opened: then it is closed, too. */
  lemma NextReviewIsAsAnswered(s: State, log: Log, t: nat)
    requires Reached(s, log) && Enabled(s, Move(t, AdvanceQueue)) && s.queue.waiting != []
    ensures s.order.turns != []
    ensures var next, last := s.queue.waiting[0], s.order.turns[|s.order.turns| - 1];
      var u := Apply(s, Move(t, AdvanceQueue));
      && u.tasks[t] == (if Closes(log, last) then Concluding(next, Closed) else Opening(next))
      && u.order.turns == s.order.turns + [next] && u.queue.waiting == s.queue.waiting[1..]
  {
    ReachedIsTold(s, log);
    assert TaskFits(s, log, s.tasks[t]);
  }

  // ---- Nobody is stuck, but behind an answer that never comes ----

  lemma EveryThreadCanAct(s: State, t: nat)
    requires Reachable(s) && t in s.tasks && !s.tasks[t].Over?
    ensures exists act :: CanAct(s, s.tasks[t], act)
  {
    var _, _ := ReachableIsSafe(s);
    assert TaskKept(s, s.tasks[t]);
    var act :=
      match s.tasks[t]
      case Starting(_) => KeepHandle
      case Recording => EndWithoutDraft
      case Ended(_) => ReadExiting
      case Queueing(_) => EnterQueue
      case Opening(_) => NoDesktop
      case Requested(_) => RequestRefused
      case Concluding(_, outcome) => if outcome == Save(true) then SpawnFails else Settle
      case Keeping(_, _) => WriteKept(true)
      case Registering(_, _) => Register
      case Concluded(_) => AdvanceQueue
      case Encoding(_) => TakeEdited(true)
      case _ => WriteEdited(true);
    assert CanAct(s, s.tasks[t], act);
  }

  /** Somebody will see to what is there: a thread that can act, an answer to come, or exit. */
  ghost predicate Minded(s: State, p: Place) {
    match p
    case InTask(t) => t in s.tasks && !s.tasks[t].Over?
    case InCell(c) => c in s.answers || exists t :: t in s.tasks && s.tasks[t] in {Requested(c), Encoding(c)}
    case AtExit => true
    case _ => false
  }

  /** A review's draft whose answer was dropped uncalled, though its request was accepted. */
  ghost predicate Stranded(s: State, log: Log, c: nat) {
    IsReviewCell(s, c) && s.cells[c].draft.Some? && c in log.dropped && !Minded(s, InCell(c))
  }

  /** Every draft without a fate is minded, or stranded, or waits behind a review that is. */
  lemma DraftsAreMinded(s: State, log: Log, d: Draft) returns (p: Place)
    requires Reached(s, log) && d < s.made && !Decided(s.fates, d)
    ensures At(s, p, d) || (At(s, Waiting, d) && HasReview(s, p))
    ensures Minded(s, p) || (p.InCell? && Stranded(s, log, p.cell))
  {
    ReachedIsTold(s, log);
    var w, review := ReachableIsSafe(s);
    p := w[d];
    assert At(s, p, d);
    if p == Waiting {
      p := review.value;
      assert HasReview(s, p);
    }
    if p.InCell? && !s.cells[p.cell].review {
      assert CellHonest(s, p.cell);
    }
  }

  /** A stranded draft stays where it is: nothing anybody does gives it a fate. */
  lemma StrandedForGood(s: State, log: Log, step: Step, c: nat)
    requires Reached(s, log) && Stranded(s, log, c) && Enabled(s, step)
    ensures Stranded(Apply(s, step), Note(log, s, step), c)
    ensures Apply(s, step).cells[c] == s.cells[c]
  {
    ReachedIsTold(s, log);
    var _, _ := ReachableIsSafe(s);
    StrandedCellStays(s, log, step, c);
    var u := Apply(s, step);
    forall t | t in u.tasks
      ensures u.tasks[t] !in {Requested(c), Encoding(c)}
    {
      NoNewHolder(s, step, c, t);
    }
  }

  /** Threads get cells of their own. */
  lemma NoNewHolder(s: State, step: Step, c: nat, t: nat)
    requires Enabled(s, step) && c in s.cells && t in Apply(s, step).tasks
    requires t in s.tasks ==> s.tasks[t] !in {Requested(c), Encoding(c)}
    ensures Apply(s, step).tasks[t] !in {Requested(c), Encoding(c)}
  {
    if step.Move? {
      ActMovesTask(s, step.task, step.act);
    }
  }

  lemma StrandedCellStays(s: State, log: Log, step: Step, c: nat)
    requires AnswersOut(s, log) && CellsKept(s) && Stranded(s, log, c) && Enabled(s, step)
    ensures c in Apply(s, step).cells && Apply(s, step).cells[c] == s.cells[c] && c !in Apply(s, step).answers
  {
    if step.SaverTooLate? {
      assert s.exit.left[0] in StillToJoin(s);
    }
    if step.Move? {
      assert TaskKept(s, s.tasks[step.task]);
      var u := Effect(s, s.tasks[step.task], step.act);
      assert Apply(s, step).cells == u.cells && Apply(s, step).answers == u.answers;
    }
  }

  /** And one can be stranded: by a desktop that accepts a review and drops its answer. */
  lemma DroppedAnswerStrandsItsDraft() returns (log: Log)
    ensures var s := IN_REVIEW.(answers := {}); Reached(s, log) && Stranded(s, log, 0) && DraftIn(s, 0) == Some(0)
  {
    InReviewIsReachable();
    var states :| Run(states) && states[|states| - 1] == IN_REVIEW;
    var logs := RunIsRecorded(states);
    RecordedGoesOn(states, logs, DropAnswer(0));
    log := Note(logs[|logs| - 1], IN_REVIEW, DropAnswer(0));
    var all, notes := states + [Apply(IN_REVIEW, DropAnswer(0))], logs + [log];
    assert all[|all| - 1] == IN_REVIEW.(answers := {}) && notes[|notes| - 1] == log;
  }
}
