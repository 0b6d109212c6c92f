/** Who holds a finished recording until it has its fate (RecordingHost in recording.rs).

    The review's answer, the path for a request that failed, the thread that saves an edit and the
    process's exit all reach for the same draft. Each step below is one lock-protected or atomic
    action; a run is any interleaving of them by any number of threads. */
module ReviewProtocol {
  import opened Wrappers

  type Draft = nat

  datatype Outcome = Save(changes: bool) | Closed | Failed | Discard

  datatype Fate = SavedAsRecorded | SavedEdited | WriteFailed | Discarded

  // ---- The review queue, under its lock ----

  datatype ReviewQueue = ReviewQueue(open: bool, waiting: seq<Draft>)

  function Enter(q: ReviewQueue, d: Draft): ReviewQueue {
    if q.open then q.(waiting := q.waiting + [d]) else q.(open := true)
  }

  function Advance(q: ReviewQueue): ReviewQueue {
    if q.waiting == [] then ReviewQueue(false, []) else ReviewQueue(true, q.waiting[1..])
  }

  // ---- Threads of control ----

  datatype Task =
    | Starting(thread: nat)                // a recording's thread runs, and its handle is not kept yet
    | Recording                            // a recording thread at its recording
    | Ended(d: Draft)                      // a recording thread holding its draft, `exiting` unread
    | Queueing(d: Draft)                   // queue_review, before the lock
    | Opening(d: Draft)                    // open_review, before its request
    | Requested(cell: nat)                 // the request made, its result not seen
    | Concluding(d: Draft, outcome: Outcome)
    | Keeping(d: Draft, reviewed: Option<bool>) // writing as recorded; then the queue, if reviewed
    | Registering(cell: nat, saver: nat)   // the saver runs, and is not on the list yet
    | Concluded(closing: bool)             // the draft dealt with, the queue not advanced
    | Encoding(cell: nat)                  // a saver thread, before it takes its draft
    | WritingEdit(d: Draft)                // a saver thread that took it
    | Over

  /** A draft shared between those who may deal with it: whoever takes it does. */
  datatype Cell = Cell(review: bool, draft: Option<Draft>)

  datatype Saver = Saver(cell: nat, task: nat)

  datatype Grant = Grant(d: Draft, thread: nat)

  datatype Exit =
    | Running
    | Raised                               // `exiting` set, the recording not joined in this call
    | Sweeping(left: seq<Saver>)
    | Rescuing(d: Draft, left: seq<Saver>) // writing what a late saver had not taken
    | GaveUp                               // the recording missed the deadline
    | Swept

  /** Whether a recording is being made; the newest recording thread, until exit takes its handle; and,
      as history, whether one came up after exit was entered. */
  datatype Recorder = Recorder(active: bool, joinable: Option<nat>, restarted: bool)

  /** Drafts in the order they reached the review queue, and in the order their turn came. */
  datatype Order = Order(arrivals: seq<Draft>, turns: seq<Draft>)

  datatype State = State(
    made: nat,
    tasks: map<nat, Task>,
    cells: map<nat, Cell>,
    answers: set<nat>,                     // review answers not called and not dropped
    queue: ReviewQueue,
    savers: seq<Saver>,
    exit: Exit,
    calls: nat,                            // how often exit has been entered
    recorder: Recorder,
    fates: seq<(Draft, Fate)>,
    order: Order,                          // history: who came to the queue
    given: map<nat, Grant>,                // history: what each saver was spawned with, by its cell
    swept: seq<Saver>)                     // history: the savers exit found on the list

  const START := State(
    0, map[], map[], {}, ReviewQueue(false, []), [], Running, 0, Recorder(false, None, false), [], Order([], []), map[], [])

  /** The worker that owns the recordings goes through `stop_before` when it is stopped, and again when
      it is dropped. */
  const EXIT_CALLS := 2

  // ---- Steps ----

  /** What a thread does next, with the answers it gets from the file system, the desktop and the
      encoder. */
  datatype Act =
    | KeepHandle
    | EndWithoutDraft                      // the recording failed, or is not one to review
    | ReadExiting
    | EnterQueue
    | RequestReview(cell: nat)
    | NoDesktop
    | RequestAccepted
    | RequestRefused
    | Settle
    | SpawnSaver(cell: nat, saver: nat)
    | SpawnFails
    | Register
    | WriteKept(ok: bool)
    | AdvanceQueue
    | TakeEdited(encoded: bool)
    | WriteEdited(ok: bool)

  datatype Step =
    | StartRecording(starter: nat, task: nat) // its thread is spawned
    | Finish(task: nat)                    // a recording ends
    | Move(task: nat, act: Act)
    | Answer(cell: nat, task: nat, outcome: Outcome)
    | DropAnswer(cell: nat)
    | EnterExit
    | JoinRecording(inTime: bool)          // of the newest recording thread, the only one exit knows
    | JoinSaver
    | SaverTooLate
    | WriteRescued(ok: bool)

  predicate Finished(s: State, task: nat) {
    task in s.tasks && s.tasks[task].Over?
  }

  /** A draft as it is written without an edit. */
  function Kept(ok: bool): Fate {
    if ok then SavedAsRecorded else WriteFailed
  }

  predicate CanAct(s: State, task: Task, act: Act) {
    match act
    case KeepHandle => task.Starting?
    case EndWithoutDraft => task.Recording?
    case ReadExiting => task.Ended?
    case EnterQueue => task.Queueing?
    case RequestReview(c) => task.Opening? && c !in s.cells
    case NoDesktop => task.Opening?
    case RequestAccepted => task.Requested?
    case RequestRefused => task.Requested? && task.cell in s.cells
    case Settle => task.Concluding? && task.outcome != Save(true)
    case SpawnSaver(c, v) => task.Concluding? && task.outcome == Save(true) && c !in s.cells && v !in s.tasks
    case SpawnFails => task.Concluding? && task.outcome == Save(true)
    case Register => task.Registering?
    case WriteKept(_) => task.Keeping?
    case AdvanceQueue => task.Concluded?
    case TakeEdited(_) => task.Encoding? && task.cell in s.cells
    case WriteEdited(_) => task.WritingEdit?
  }

  predicate Enabled(s: State, step: Step) {
    match step
    case StartRecording(u, t) => !s.recorder.active && u !in s.tasks && t !in s.tasks && u != t
    case Finish(t) => t in s.tasks && s.tasks[t].Recording?
    case Move(t, act) => t in s.tasks && CanAct(s, s.tasks[t], act)
    case Answer(c, t, _) => c in s.answers && c in s.cells && t !in s.tasks
    case DropAnswer(c) => c in s.answers
    case EnterExit => s.calls < EXIT_CALLS && (s.exit.Running? || s.exit.GaveUp? || s.exit.Swept?)
    case JoinRecording(inTime) =>
      s.exit.Raised? && (match s.recorder.joinable case Some(t) => inTime ==> Finished(s, t) case None => inTime)
    case JoinSaver => s.exit.Sweeping? && s.exit.left != [] && Finished(s, s.exit.left[0].task)
    case SaverTooLate => s.exit.Sweeping? && s.exit.left != [] && s.exit.left[0].cell in s.cells
    case WriteRescued(_) => s.exit.Rescuing?
  }

  function DraftIn(s: State, c: nat): Option<Draft> {
    if c in s.cells then s.cells[c].draft else None
  }

  /** `take` on a shared draft. */
  function Take(s: State, c: nat): State {
    if c in s.cells then s.(cells := s.cells[c := s.cells[c].(draft := None)]) else s
  }

  function Decide(s: State, d: Draft, fate: Fate): State {
    s.(fates := s.fates + [(d, fate)])
  }

  function Rest(left: seq<Saver>): Exit {
    if left == [] then Swept else Sweeping(left)
  }

  /** Where a thread stands after acting. */
  function NextTask(s: State, task: Task, act: Act): Task
    requires CanAct(s, task, act)
  {
    match act
    case KeepHandle => Over
    case EndWithoutDraft => Over
    case ReadExiting => if s.exit.Running? then Queueing(task.d) else Keeping(task.d, None)
    case EnterQueue => if s.queue.open then Over else Opening(task.d)
    case RequestReview(c) => Requested(c)
    case NoDesktop => Concluding(task.d, Closed)
    case RequestAccepted => Over
    case RequestRefused =>
      (match DraftIn(s, task.cell)
       case Some(d) => Concluding(d, Closed)
       case None => Over)
    case Settle =>
      (match task.outcome
       case Save(_) => Keeping(task.d, Some(false))
       case Closed => Keeping(task.d, Some(true))
       case Failed => Keeping(task.d, Some(false))
       case Discard => Concluded(false))
    case SpawnSaver(c, v) => Registering(c, v)
    case SpawnFails => Keeping(task.d, Some(false))
    case Register => Concluded(false)
    case WriteKept(_) =>
      (match task.reviewed
       case Some(closing) => Concluded(closing)
       case None => Over)
    case AdvanceQueue =>
      if s.queue.waiting == [] then Over
      else if task.closing then Concluding(s.queue.waiting[0], Closed)
      else Opening(s.queue.waiting[0])
    case TakeEdited(encoded) =>
      (match DraftIn(s, task.cell)
       case Some(d) => if encoded then WritingEdit(d) else Keeping(d, None)
       case None => Over)
    case WriteEdited(ok) => if ok then Over else Keeping(task.d, None)
  }

  /** What a thread changes besides its own place. */
  function Effect(s: State, task: Task, act: Act): State
    requires CanAct(s, task, act)
  {
    match act
    case KeepHandle =>
      s.(recorder := s.recorder.(
           joinable := Some(task.thread), restarted := s.recorder.restarted || !s.exit.Running?))
    case EndWithoutDraft => s.(recorder := s.recorder.(active := false))
    case EnterQueue =>
      s.(queue := Enter(s.queue, task.d),
         order := Order(s.order.arrivals + [task.d], if s.queue.open then s.order.turns else s.order.turns + [task.d]))
    case RequestReview(c) => s.(cells := s.cells[c := Cell(true, Some(task.d))], answers := s.answers + {c})
    case RequestRefused => Take(s, task.cell)
    case Settle => if task.outcome.Discard? then Decide(s, task.d, Discarded) else s
    case SpawnSaver(c, v) =>
      s.(cells := s.cells[c := Cell(false, Some(task.d))], tasks := s.tasks[v := Encoding(c)],
         given := s.given[c := Grant(task.d, v)])
    case Register => s.(savers := Unfinished(s.savers, s) + [Saver(task.cell, task.saver)])
    case WriteKept(ok) => Decide(s, task.d, Kept(ok))
    case AdvanceQueue =>
      s.(queue := Advance(s.queue),
         order := if s.queue.waiting == [] then s.order
                  else s.order.(turns := s.order.turns + [s.queue.waiting[0]]))
    case TakeEdited(_) => Take(s, task.cell)
    case WriteEdited(ok) => if ok then Decide(s, task.d, SavedEdited) else s
    case _ => s
  }

  function Apply(s: State, step: Step): State
    requires Enabled(s, step)
  {
    match step
    case StartRecording(u, t) =>
      s.(tasks := s.tasks[u := Starting(t)][t := Recording], recorder := s.recorder.(active := true))
    case Finish(t) =>
      s.(made := s.made + 1, recorder := s.recorder.(active := false), tasks := s.tasks[t := Ended(s.made)])
    case Move(t, act) =>
      var u := Effect(s, s.tasks[t], act);
      u.(tasks := u.tasks[t := NextTask(s, s.tasks[t], act)])
    case Answer(c, t, outcome) =>
      var answered := match DraftIn(s, c) case Some(d) => Concluding(d, outcome) case None => Over;
      Take(s, c).(answers := s.answers - {c}, tasks := s.tasks[t := answered])
    case DropAnswer(c) => s.(answers := s.answers - {c})
    case EnterExit => s.(exit := Raised, calls := s.calls + 1)
    case JoinRecording(inTime) =>
      var recorder := s.recorder.(joinable := None);
      if inTime then s.(exit := Rest(s.savers), savers := [], swept := s.swept + s.savers, recorder := recorder)
      else s.(exit := GaveUp, recorder := recorder)
    case JoinSaver => s.(exit := Rest(s.exit.left[1..]))
    case SaverTooLate =>
      var c, left := s.exit.left[0].cell, s.exit.left[1..];
      Take(s, c).(exit := match DraftIn(s, c) case Some(d) => Rescuing(d, left) case None => Rest(left))
    case WriteRescued(ok) => Decide(s, s.exit.d, Kept(ok)).(exit := Rest(s.exit.left))
  }

  /** `retain` on the list of savers. */
  function Unfinished(savers: seq<Saver>, s: State): seq<Saver> {
    if savers == [] then []
    else (if Finished(s, savers[0].task) then [] else [savers[0]]) + Unfinished(savers[1..], s)
  }

  ghost predicate Follows(s: State, u: State) {
    exists step :: Enabled(s, step) && Apply(s, step) == u
  }

  /** Any interleaving, of any length. */
  ghost predicate Run(states: seq<State>) {
    && states != [] && states[0] == START
    && forall i :: 0 <= i < |states| - 1 ==> GoesOn(states, i)
  }

  /** The state after the `i`th follows it. */
  ghost predicate GoesOn(states: seq<State>, i: nat)
    requires i + 1 < |states|
  {
    Follows(states[i], states[i + 1])
  }

  ghost predicate Reachable(s: State) {
    exists states :: Run(states) && states[|states| - 1] == s
  }

  lemma StartIsReachable()
    ensures Reachable(START)
  {
    assert Run([START]);
    assert [START][|[START]| - 1] == START;
  }

  lemma StepIsReachable(s: State, step: Step)
    requires Reachable(s) && Enabled(s, step)
    ensures Reachable(Apply(s, step))
  {
    var states :| Run(states) && states[|states| - 1] == s;
    var u := Apply(s, step);
    var more := states + [u];
    assert Follows(s, u);
    forall i | 0 <= i < |more| - 1
      ensures GoesOn(more, i)
    {
      assert i < |states| - 1 ==> GoesOn(states, i);
    }
    assert Run(more) && more[|more| - 1] == u;
  }

  // ---- Where a draft is ----

  datatype Place = InTask(task: nat) | InCell(cell: nat) | Waiting | AtExit | Done

  function Holds(task: Task): Option<Draft> {
    match task
    case Ended(d) => Some(d)
    case Queueing(d) => Some(d)
    case Opening(d) => Some(d)
    case Concluding(d, _) => Some(d)
    case Keeping(d, _) => Some(d)
    case WritingEdit(d) => Some(d)
    case _ => None
  }

  ghost predicate At(s: State, p: Place, d: Draft) {
    match p
    case InTask(t) => t in s.tasks && Holds(s.tasks[t]) == Some(d)
    case InCell(c) => c in s.cells && s.cells[c].draft == Some(d)
    case Waiting => d in s.queue.waiting
    case AtExit => s.exit.Rescuing? && s.exit.d == d
    case Done => Decided(s.fates, d)
  }

  /** `w` says where every draft made so far is, and it is nowhere else. */
  ghost predicate Locates(s: State, w: map<Draft, Place>) {
    && (forall d: Draft :: d in w <==> d < s.made)
    && (forall d: Draft, p :: At(s, p, d) <==> d in w && w[d] == p)
    && NoRepeats(s)
  }

  ghost predicate NoRepeats(s: State) {
    && (forall i, j :: 0 <= i < j < |s.queue.waiting| ==> s.queue.waiting[i] != s.queue.waiting[j])
    && (forall i, j :: 0 <= i < j < |s.fates| ==> s.fates[i].0 != s.fates[j].0)
  }

  /** Where a draft goes from, and where to. */
  datatype Passage = Passage(d: Draft, from: Place, to: Place)

  function ActPassage(s: State, t: nat, act: Act): Option<Passage>
    requires t in s.tasks && CanAct(s, s.tasks[t], act)
  {
    var task := s.tasks[t];
    match act
    case EnterQueue => if s.queue.open then Some(Passage(task.d, InTask(t), Waiting)) else None
    case RequestReview(c) => Some(Passage(task.d, InTask(t), InCell(c)))
    case RequestRefused => Taken(s, task.cell, InTask(t))
    case Settle => if task.outcome.Discard? then Some(Passage(task.d, InTask(t), Done)) else None
    case SpawnSaver(c, _) => Some(Passage(task.d, InTask(t), InCell(c)))
    case WriteKept(_) => Some(Passage(task.d, InTask(t), Done))
    case AdvanceQueue =>
      if s.queue.waiting == [] then None else Some(Passage(s.queue.waiting[0], Waiting, InTask(t)))
    case TakeEdited(_) => Taken(s, task.cell, InTask(t))
    case WriteEdited(ok) => if ok then Some(Passage(task.d, InTask(t), Done)) else None
    case _ => None
  }

  /** The one draft a step passes on, if it passes one on. */
  function StepPassage(s: State, step: Step): Option<Passage>
    requires Enabled(s, step)
  {
    match step
    case Move(t, act) => ActPassage(s, t, act)
    case Answer(c, t, _) => Taken(s, c, InTask(t))
    case SaverTooLate => Taken(s, s.exit.left[0].cell, AtExit)
    case WriteRescued(_) => Some(Passage(s.exit.d, AtExit, Done))
    case _ => None
  }

  function Taken(s: State, c: nat, to: Place): Option<Passage> {
    match DraftIn(s, c)
    case Some(d) => Some(Passage(d, InCell(c), to))
    case None => None
  }

  ghost function Relocated(s: State, step: Step, w: map<Draft, Place>): map<Draft, Place>
    requires Enabled(s, step)
  {
    if step.Finish? then w[s.made := InTask(step.task)]
    else
      match StepPassage(s, step)
      case Some(pass) => w[pass.d := pass.to]
      case None => w
  }

  lemma PassageStarts(s: State, step: Step, w: map<Draft, Place>)
    requires Locates(s, w) && Enabled(s, step) && StepPassage(s, step).Some?
    ensures var pass := StepPassage(s, step).value;
      At(s, pass.from, pass.d) && pass.d in w && w[pass.d] == pass.from && pass.to != pass.from
  {
    var pass := StepPassage(s, step).value;
    assert At(s, pass.from, pass.d);
  }

  ghost predicate Decided(fates: seq<(Draft, Fate)>, d: Draft) {
    exists i :: 0 <= i < |fates| && fates[i].0 == d
  }

  /** What `p` holds after a passage: the draft goes from one place to another. */
  ghost predicate HoldsAfter(s: State, passage: Option<Passage>, p: Place, d: Draft) {
    match passage
    case Some(pass) => if p == pass.to then d == pass.d else p != pass.from && At(s, p, d)
    case None => At(s, p, d)
  }

  /** A thread's act changes its own place, and starts the thread it spawns. */
  lemma ActMovesTask(s: State, t: nat, act: Act)
    requires Enabled(s, Move(t, act))
    ensures var u := Apply(s, Move(t, act));
      && t in u.tasks && u.tasks[t] == NextTask(s, s.tasks[t], act)
      && (act.SpawnSaver? ==> act.saver in u.tasks && u.tasks[act.saver] == Encoding(act.cell))
      && (forall k :: k != t && !(act.SpawnSaver? && k == act.saver) ==>
           (k in u.tasks <==> k in s.tasks) && (k in s.tasks ==> u.tasks[k] == s.tasks[k]))
  {
  }

  lemma ActChangesItsTask(s: State, t: nat, act: Act, d: Draft)
    requires Enabled(s, Move(t, act))
    ensures Holds(NextTask(s, s.tasks[t], act)) == Some(d) <==> HoldsAfter(s, ActPassage(s, t, act), InTask(t), d)
  {
  }

  lemma ActChangesTask(s: State, t: nat, act: Act, u: nat, d: Draft)
    requires Enabled(s, Move(t, act))
    ensures At(Apply(s, Move(t, act)), InTask(u), d) <==> HoldsAfter(s, ActPassage(s, t, act), InTask(u), d)
  {
    ActMovesTask(s, t, act);
    if u == t {
      ActChangesItsTask(s, t, act, d);
    } else if ActPassage(s, t, act).Some? {
      ActPassesToItself(s, t, act);
    }
  }

  /** An act passes a draft between its own thread and somewhere that is no thread. */
  lemma ActPassesToItself(s: State, t: nat, act: Act)
    requires Enabled(s, Move(t, act)) && ActPassage(s, t, act).Some?
    ensures var pass := ActPassage(s, t, act).value;
      (pass.from.InTask? ==> pass.from.task == t) && (pass.to.InTask? ==> pass.to.task == t)
  {
  }

  lemma ActChangesCell(s: State, t: nat, act: Act, c: nat, d: Draft)
    requires Enabled(s, Move(t, act))
    ensures At(Apply(s, Move(t, act)), InCell(c), d) <==> HoldsAfter(s, ActPassage(s, t, act), InCell(c), d)
  {
    assert Apply(s, Move(t, act)).cells == Effect(s, s.tasks[t], act).cells;
  }

  lemma OtherStepChangesTask(s: State, step: Step, u: nat, d: Draft)
    requires Enabled(s, step) && !step.Finish? && !step.Move?
    ensures At(Apply(s, step), InTask(u), d) <==> HoldsAfter(s, StepPassage(s, step), InTask(u), d)
  {
  }

  lemma OtherStepChangesCell(s: State, step: Step, c: nat, d: Draft)
    requires Enabled(s, step) && !step.Finish? && !step.Move?
    ensures At(Apply(s, step), InCell(c), d) <==> HoldsAfter(s, StepPassage(s, step), InCell(c), d)
  {
    match step {
      case Answer(k, _, _) => assert Apply(s, step).cells == Take(s, k).cells;
      case SaverTooLate => assert Apply(s, step).cells == Take(s, s.exit.left[0].cell).cells;
      case _ =>
    }
  }

  lemma StepChangesExit(s: State, step: Step, d: Draft)
    requires Enabled(s, step) && !step.Finish?
    ensures At(Apply(s, step), AtExit, d) <==> HoldsAfter(s, StepPassage(s, step), AtExit, d)
  {
    if step.Move? {
      assert Apply(s, step).exit == Effect(s, s.tasks[step.task], step.act).exit == s.exit;
    }
  }

  lemma StepChangesHands(s: State, step: Step, p: Place, d: Draft)
    requires Enabled(s, step) && !step.Finish?
    requires p.InTask? || p.InCell? || p.AtExit?
    ensures At(Apply(s, step), p, d) <==> HoldsAfter(s, StepPassage(s, step), p, d)
  {
    match p {
      case InTask(u) =>
        if step.Move? {
          ActChangesTask(s, step.task, step.act, u, d);
        } else {
          OtherStepChangesTask(s, step, u, d);
        }
      case InCell(c) =>
        if step.Move? {
          ActChangesCell(s, step.task, step.act, c, d);
        } else {
          OtherStepChangesCell(s, step, c, d);
        }
      case AtExit => StepChangesExit(s, step, d);
    }
  }

  lemma ActChangesWaiting(s: State, t: nat, act: Act, d: Draft)
    requires Enabled(s, Move(t, act)) && NoRepeats(s)
    ensures At(Apply(s, Move(t, act)), Waiting, d) <==>
      match ActPassage(s, t, act)
      case Some(pass) =>
        if pass.to == Waiting then At(s, Waiting, d) || d == pass.d
        else if pass.from == Waiting then At(s, Waiting, d) && d != pass.d
        else At(s, Waiting, d)
      case None => At(s, Waiting, d)
  {
    assert Apply(s, Move(t, act)).queue == Effect(s, s.tasks[t], act).queue;
  }

  lemma StepChangesWaiting(s: State, step: Step, w: map<Draft, Place>, d: Draft)
    requires Locates(s, w) && Enabled(s, step)
    ensures At(Apply(s, step), Waiting, d) <==> d in Relocated(s, step, w) && Relocated(s, step, w)[d] == Waiting
  {
    assert At(s, Waiting, d) <==> d in w && w[d] == Waiting;
    if StepPassage(s, step).Some? {
      PassageStarts(s, step, w);
    }
    if step.Move? {
      ActChangesWaiting(s, step.task, step.act, d);
    }
  }

  /** A fate, once written, stays: a step adds at most one, that of the draft it passes on. */
  lemma FatesGrow(s: State, step: Step)
    requires Enabled(s, step)
    ensures var u := Apply(s, step);
      if StepPassage(s, step).Some? && StepPassage(s, step).value.to == Done
      then exists fate :: u.fates == s.fates + [(StepPassage(s, step).value.d, fate)]
      else u.fates == s.fates
  {
    if step.Move? {
      assert Apply(s, step).fates == Effect(s, s.tasks[step.task], step.act).fates;
    }
  }

  lemma StepChangesFates(s: State, step: Step, w: map<Draft, Place>, d: Draft)
    requires Locates(s, w) && Enabled(s, step)
    ensures At(Apply(s, step), Done, d) <==> d in Relocated(s, step, w) && Relocated(s, step, w)[d] == Done
  {
    assert At(s, Done, d) <==> d in w && w[d] == Done;
    FatesGrow(s, step);
    if StepPassage(s, step).Some? {
      PassageStarts(s, step, w);
      var pass := StepPassage(s, step).value;
      if pass.to == Done {
        var fate :| Apply(s, step).fates == s.fates + [(pass.d, fate)];
        AddedFateIsDone(s.fates, pass.d, fate, d);
      }
    }
  }

  lemma AddedFateIsDone(fates: seq<(Draft, Fate)>, moved: Draft, fate: Fate, d: Draft)
    ensures Decided(fates + [(moved, fate)], d) <==> Decided(fates, d) || d == moved
  {
    var more := fates + [(moved, fate)];
    assert more[|fates|].0 == moved;
    assert forall i :: 0 <= i < |fates| ==> more[i] == fates[i];
  }

  lemma StepKeepsLocations(s: State, step: Step, w: map<Draft, Place>)
    requires Locates(s, w) && Enabled(s, step)
    ensures Locates(Apply(s, step), Relocated(s, step, w))
  {
    var u, v := Apply(s, step), Relocated(s, step, w);
    if StepPassage(s, step).Some? {
      PassageStarts(s, step, w);
    }
    forall d: Draft, p
      ensures At(u, p, d) <==> d in v && v[d] == p
    {
      StepLocates(s, step, w, d, p);
    }
    StepRepeatsNothing(s, step, w);
  }

  lemma StepLocates(s: State, step: Step, w: map<Draft, Place>, d: Draft, p: Place)
    requires Locates(s, w) && Enabled(s, step)
    ensures At(Apply(s, step), p, d) <==> d in Relocated(s, step, w) && Relocated(s, step, w)[d] == p
  {
    if StepPassage(s, step).Some? {
      PassageStarts(s, step, w);
    }
    assert At(s, p, d) <==> d in w && w[d] == p;
    match p {
      case Waiting => StepChangesWaiting(s, step, w, d);
      case Done => StepChangesFates(s, step, w, d);
      case _ => if !step.Finish? { StepChangesHands(s, step, p, d); }
    }
  }

  lemma StepRepeatsNothing(s: State, step: Step, w: map<Draft, Place>)
    requires Locates(s, w) && Enabled(s, step)
    ensures NoRepeats(Apply(s, step))
  {
    FatesGrow(s, step);
    if StepPassage(s, step).Some? {
      PassageStarts(s, step, w);
      var pass := StepPassage(s, step).value;
      assert pass.to == Done ==> !At(s, Done, pass.d);
      assert pass.to == Waiting ==> !At(s, Waiting, pass.d);
    }
    if step.Move? {
      assert Apply(s, step).queue == Effect(s, s.tasks[step.task], step.act).queue;
    }
  }

  // ---- One review at a time ----

  /** A thread that stands for the open review. */
  predicate Reviewing(task: Task) {
    match task
    case Opening(_) => true
    case Concluding(_, _) => true
    case Keeping(_, reviewed) => reviewed.Some?
    case Registering(_, _) => true
    case Concluded(_) => true
    case _ => false
  }

  /** Who stands for the review that is open. */
  ghost predicate HasReview(s: State, p: Place) {
    match p
    case InTask(t) => t in s.tasks && Reviewing(s.tasks[t])
    case InCell(c) => c in s.cells && s.cells[c].review && s.cells[c].draft.Some?
    case _ => false
  }

  predicate OnList(s: State, saver: Saver) {
    saver.cell in s.cells && !s.cells[saver.cell].review && saver.task in s.tasks
  }

  predicate IsReviewCell(s: State, c: nat) {
    c in s.cells && s.cells[c].review
  }

  predicate TaskKept(s: State, task: Task) {
    match task
    case Requested(c) => IsReviewCell(s, c)
    case Encoding(c) => c in s.cells && !s.cells[c].review
    case Registering(c, v) => OnList(s, Saver(c, v))
    case _ => true
  }

  function StillToJoin(s: State): seq<Saver> {
    if s.exit.Sweeping? || s.exit.Rescuing? then s.exit.left else []
  }

  /** Which cells reviews and savers share. */
  ghost predicate CellsKept(s: State) {
    && (forall t :: t in s.tasks ==> TaskKept(s, s.tasks[t]))
    && (forall c :: c in s.answers ==> IsReviewCell(s, c))
    && (forall v :: v in s.savers ==> OnList(s, v))
    && (forall v :: v in StillToJoin(s) ==> OnList(s, v))
  }

  ghost predicate OneReview(s: State, review: Option<Place>) {
    && (forall p :: HasReview(s, p) <==> review == Some(p))
    && (s.queue.open <==> review.Some?)
    && (s.queue.waiting != [] ==> s.queue.open)
  }

  ghost function ReviewAfter(s: State, step: Step, review: Option<Place>): Option<Place>
    requires Enabled(s, step)
  {
    match step
    case Answer(c, t, _) => if DraftIn(s, c).Some? then Some(InTask(t)) else review
    case Move(t, act) =>
      (match act
       case EnterQueue => if s.queue.open then review else Some(InTask(t))
       case RequestReview(c) => Some(InCell(c))
       case RequestRefused => if DraftIn(s, s.tasks[t].cell).Some? then Some(InTask(t)) else review
       case AdvanceQueue => if s.queue.waiting == [] then None else review
       case _ => review)
    case _ => review
  }

  /** Where the open review stood before a step that passes it on. */
  function ReviewBefore(s: State, step: Step): Option<Place>
    requires Enabled(s, step)
  {
    match step
    case Answer(c, _, _) => if DraftIn(s, c).Some? then Some(InCell(c)) else None
    case Move(t, act) =>
      (match act
       case RequestReview(_) => Some(InTask(t))
       case RequestRefused => if DraftIn(s, s.tasks[t].cell).Some? then Some(InCell(s.tasks[t].cell)) else None
       case AdvanceQueue => Some(InTask(t))
       case _ => None)
    case _ => None
  }

  lemma ReviewPassesOn(s: State, step: Step, review: Option<Place>)
    requires OneReview(s, review) && CellsKept(s) && Enabled(s, step) && ReviewBefore(s, step).Some?
    ensures review == ReviewBefore(s, step)
  {
    assert HasReview(s, ReviewBefore(s, step).value);
  }

  lemma ReviewInTasks(s: State, step: Step, review: Option<Place>, t: nat)
    requires Enabled(s, step)
    requires HasReview(s, InTask(t)) <==> review == Some(InTask(t))
    requires ReviewBefore(s, step).Some? ==> review == ReviewBefore(s, step)
    requires !s.queue.open ==> review == None
    ensures HasReview(Apply(s, step), InTask(t)) <==> ReviewAfter(s, step, review) == Some(InTask(t))
  {
    if step.Move? && t == step.task {
      assert Apply(s, step).tasks[t] == NextTask(s, s.tasks[t], step.act);
    }
  }

  lemma ReviewInCells(s: State, step: Step, review: Option<Place>, c: nat)
    requires CellsKept(s) && Enabled(s, step)
    requires HasReview(s, InCell(c)) <==> review == Some(InCell(c))
    requires ReviewBefore(s, step).Some? ==> review == ReviewBefore(s, step)
    requires !s.queue.open ==> review == None
    ensures HasReview(Apply(s, step), InCell(c)) <==> ReviewAfter(s, step, review) == Some(InCell(c))
  {
    if step.SaverTooLate? {
      assert s.exit.left[0] in StillToJoin(s);
    }
    if step.Move? {
      assert TaskKept(s, s.tasks[step.task]);
      assert Apply(s, step).cells == Effect(s, s.tasks[step.task], step.act).cells;
    }
  }

  lemma StepKeepsOneReview(s: State, step: Step, review: Option<Place>)
    requires OneReview(s, review) && CellsKept(s) && Enabled(s, step)
    ensures OneReview(Apply(s, step), ReviewAfter(s, step, review))
  {
    if ReviewBefore(s, step).Some? {
      ReviewPassesOn(s, step, review);
    }
    forall p
      ensures HasReview(Apply(s, step), p) <==> ReviewAfter(s, step, review) == Some(p)
    {
      assert HasReview(s, p) <==> review == Some(p);
      match p {
        case InTask(t) => ReviewInTasks(s, step, review, t);
        case InCell(c) => ReviewInCells(s, step, review, c);
        case _ =>
      }
    }
    if step.Move? {
      assert Apply(s, step).queue == Effect(s, s.tasks[step.task], step.act).queue;
    }
  }

  /** Cells and threads are never forgotten, nor a cell put to another use. */
  ghost predicate Outlasts(u: State, s: State) {
    && (forall c :: c in s.cells ==> c in u.cells && u.cells[c].review == s.cells[c].review)
    && (forall t :: t in s.tasks ==> t in u.tasks)
  }

  lemma EffectOutlasts(s: State, task: Task, act: Act)
    requires CanAct(s, task, act)
    ensures Outlasts(Effect(s, task, act), s)
  {
  }

  lemma OtherStepOutlasts(s: State, step: Step)
    requires Enabled(s, step) && !step.Move?
    ensures Outlasts(Apply(s, step), s)
  {
  }

  lemma StepOutlasts(s: State, step: Step)
    requires Enabled(s, step)
    ensures Outlasts(Apply(s, step), s)
  {
    if step.Move? {
      EffectOutlasts(s, s.tasks[step.task], step.act);
    } else {
      OtherStepOutlasts(s, step);
    }
  }

  lemma {:induction false} UnfinishedAreSavers(savers: seq<Saver>, s: State)
    ensures forall v :: v in Unfinished(savers, s) <==> v in savers && !Finished(s, v.task)
  {
    if savers != [] {
      UnfinishedAreSavers(savers[1..], s);
      assert savers == [savers[0]] + savers[1..];
    }
  }

  /** Exit takes its savers from the list, and the list grows by the saver being registered. */
  lemma SaversKept(s: State, step: Step)
    requires CellsKept(s) && Enabled(s, step)
    ensures forall v :: v in Apply(s, step).savers || v in StillToJoin(Apply(s, step)) ==> OnList(s, v)
  {
    UnfinishedAreSavers(s.savers, s);
    var left := StillToJoin(s);
    assert left != [] ==> left == [left[0]] + left[1..];
    if step.Move? {
      assert TaskKept(s, s.tasks[step.task]);
      assert Apply(s, step).savers == Effect(s, s.tasks[step.task], step.act).savers;
    }
  }

  lemma TaskStaysKept(s: State, u: State, task: Task)
    requires TaskKept(s, task) && Outlasts(u, s)
    ensures TaskKept(u, task)
  {
  }

  lemma NextTaskKept(s: State, t: nat, act: Act)
    requires Enabled(s, Move(t, act))
    ensures TaskKept(Apply(s, Move(t, act)), NextTask(s, s.tasks[t], act))
  {
    var u, next := Apply(s, Move(t, act)), NextTask(s, s.tasks[t], act);
    if act.RequestReview? {
      assert u.cells[act.cell].review;
    } else if act.SpawnSaver? {
      assert act.cell in u.cells && !u.cells[act.cell].review && act.saver in u.tasks;
    } else {
      assert !next.Requested? && !next.Registering? && !next.Encoding?;
    }
  }

  lemma ActKeepsTask(s: State, t: nat, act: Act, k: nat)
    requires CellsKept(s) && Enabled(s, Move(t, act)) && k in Apply(s, Move(t, act)).tasks
    ensures TaskKept(Apply(s, Move(t, act)), Apply(s, Move(t, act)).tasks[k])
  {
    ActMovesTask(s, t, act);
    if k == t {
      NextTaskKept(s, t, act);
    } else if k in s.tasks {
      StepOutlasts(s, Move(t, act));
      TaskStaysKept(s, Apply(s, Move(t, act)), s.tasks[k]);
    }
  }

  lemma OtherStepKeepsTask(s: State, step: Step, k: nat)
    requires CellsKept(s) && Enabled(s, step) && !step.Move? && k in Apply(s, step).tasks
    ensures TaskKept(Apply(s, step), Apply(s, step).tasks[k])
  {
    if k in s.tasks && Apply(s, step).tasks[k] == s.tasks[k] {
      OtherStepOutlasts(s, step);
      TaskStaysKept(s, Apply(s, step), s.tasks[k]);
    }
  }

  lemma TasksKept(s: State, step: Step, t: nat)
    requires CellsKept(s) && Enabled(s, step) && t in Apply(s, step).tasks
    ensures TaskKept(Apply(s, step), Apply(s, step).tasks[t])
  {
    if step.Move? {
      ActKeepsTask(s, step.task, step.act, t);
    } else {
      OtherStepKeepsTask(s, step, t);
    }
  }

  lemma StepKeepsCells(s: State, step: Step)
    requires CellsKept(s) && Enabled(s, step)
    ensures CellsKept(Apply(s, step))
  {
    var u := Apply(s, step);
    StepOutlasts(s, step);
    SaversKept(s, step);
    forall v | OnList(s, v) ensures OnList(u, v) {}
    forall t | t in u.tasks
      ensures TaskKept(u, u.tasks[t])
    {
      TasksKept(s, step, t);
    }
    if step.Move? {
      assert u.answers == Effect(s, s.tasks[step.task], step.act).answers;
    }
  }

  // ---- Reviews come in the order their drafts did ----

  ghost predicate InOrder(s: State) {
    s.order.arrivals == s.order.turns + s.queue.waiting && (!s.queue.open ==> s.queue.waiting == [])
  }

  lemma ActKeepsOrder(s: State, task: Task, act: Act)
    requires InOrder(s) && CanAct(s, task, act)
    ensures InOrder(Effect(s, task, act))
  {
    if act.AdvanceQueue? && s.queue.waiting != [] {
      assert s.queue.waiting == [s.queue.waiting[0]] + s.queue.waiting[1..];
    }
  }

  lemma StepKeepsOrder(s: State, step: Step)
    requires InOrder(s) && Enabled(s, step)
    ensures InOrder(Apply(s, step))
  {
    if step.Move? {
      ActKeepsOrder(s, s.tasks[step.task], step.act);
    }
  }

  // ---- Savers and exit ----

  predicate Granted(s: State, c: nat, v: nat) {
    c in s.given && s.given[c].thread == v
  }

  predicate ThreadGranted(s: State, t: nat, task: Task) {
    match task
    case Encoding(c) => Granted(s, c, t)
    case Registering(c, v) => Granted(s, c, v)
    case _ => true
  }

  /** Somebody who outlives the saver knows of it: its spawner, the list, or exit. */
  ghost predicate Listed(s: State, c: nat, v: nat) {
    || Saver(c, v) in s.savers
    || Saver(c, v) in StillToJoin(s)
    || exists t :: t in s.tasks && s.tasks[t] == Registering(c, v)
  }

  /** A saver's draft is in its cell for as long as its thread has not taken it, and no longer. */
  ghost predicate CellHonest(s: State, c: nat)
    requires c in s.given
  {
    var draft := DraftIn(s, c);
    draft == None || (draft == Some(s.given[c].d)
                      && s.given[c].thread in s.tasks && s.tasks[s.given[c].thread] == Encoding(c)
                      && Listed(s, c, s.given[c].thread))
  }

  ghost predicate SaversKnown(s: State) {
    && (forall c :: c in s.given <==> c in s.cells && !s.cells[c].review)
    && (forall t :: t in s.tasks ==> ThreadGranted(s, t, s.tasks[t]))
    && (forall v :: v in s.savers || v in StillToJoin(s) || v in s.swept ==> Granted(s, v.cell, v.task))
    && (forall c :: c in s.given ==> CellHonest(s, c))
    && (forall v :: v in s.swept ==> v in StillToJoin(s) || DraftIn(s, v.cell) == None)
  }

  lemma GrantsLast(s: State, step: Step)
    requires SaversKnown(s) && Enabled(s, step)
    ensures forall c :: c in s.given ==> c in Apply(s, step).given && Apply(s, step).given[c] == s.given[c]
  {
  }

  lemma GrantsAreSaverCells(s: State, step: Step)
    requires SaversKnown(s) && Enabled(s, step)
    ensures forall c :: c in Apply(s, step).given <==> c in Apply(s, step).cells && !Apply(s, step).cells[c].review
  {
    if step.Move? {
      var u := Effect(s, s.tasks[step.task], step.act);
      assert Apply(s, step).cells == u.cells && Apply(s, step).given == u.given;
    }
  }

  lemma NextTaskGranted(s: State, t: nat, act: Act)
    requires Enabled(s, Move(t, act))
    ensures ThreadGranted(Apply(s, Move(t, act)), t, NextTask(s, s.tasks[t], act))
  {
    var next := NextTask(s, s.tasks[t], act);
    if act.SpawnSaver? {
      assert Granted(Effect(s, s.tasks[t], act), act.cell, act.saver);
    } else {
      assert !next.Registering? && !next.Encoding?;
    }
  }

  lemma ThreadsStayGranted(s: State, step: Step, t: nat)
    requires SaversKnown(s) && Enabled(s, step) && t in Apply(s, step).tasks
    ensures ThreadGranted(Apply(s, step), t, Apply(s, step).tasks[t])
  {
    GrantsLast(s, step);
    assert t in s.tasks ==> ThreadGranted(s, t, s.tasks[t]);
    if step.Move? {
      ActMovesTask(s, step.task, step.act);
      if t == step.task {
        NextTaskGranted(s, t, step.act);
      }
    }
  }

  lemma ListsLast(s: State, step: Step)
    requires SaversKnown(s) && Enabled(s, step)
    ensures var u := Apply(s, step);
      forall v :: v in u.savers || v in StillToJoin(u) || v in u.swept ==> Granted(s, v.cell, v.task)
  {
    UnfinishedAreSavers(s.savers, s);
    var left := StillToJoin(s);
    assert left != [] ==> left == [left[0]] + left[1..];
    if step.Move? {
      assert ThreadGranted(s, step.task, s.tasks[step.task]);
      assert Apply(s, step).savers == Effect(s, s.tasks[step.task], step.act).savers;
    }
  }

  lemma StillToJoinShrinks(s: State, step: Step, v: Saver)
    requires Enabled(s, step) && v in StillToJoin(s)
    ensures v in StillToJoin(Apply(s, step))
      || (step.JoinSaver? && Finished(s, v.task))
      || (step.SaverTooLate? && DraftIn(Apply(s, step), v.cell) == None)
  {
    var left := StillToJoin(s);
    assert left == [left[0]] + left[1..];
    if step.Move? {
      assert Apply(s, step).exit == Effect(s, s.tasks[step.task], step.act).exit;
    }
  }

  lemma ListShrinks(s: State, step: Step, v: Saver)
    requires Enabled(s, step) && v in s.savers
    ensures v in Apply(s, step).savers || v in StillToJoin(Apply(s, step)) || Finished(s, v.task)
  {
    UnfinishedAreSavers(s.savers, s);
    if step.Move? {
      assert Apply(s, step).savers == Effect(s, s.tasks[step.task], step.act).savers;
    }
  }

  /** A saver stays known until its thread is over or its draft is taken. */
  lemma StaysListed(s: State, step: Step, c: nat, v: nat)
    requires Enabled(s, step) && Listed(s, c, v)
    requires v in s.tasks && s.tasks[v] == Encoding(c)
    ensures Listed(Apply(s, step), c, v) || DraftIn(Apply(s, step), c) == None
  {
    var u := Apply(s, step);
    if Saver(c, v) in s.savers {
      ListShrinks(s, step, Saver(c, v));
    } else if Saver(c, v) in StillToJoin(s) {
      StillToJoinShrinks(s, step, Saver(c, v));
    } else {
      var t :| t in s.tasks && s.tasks[t] == Registering(c, v);
      RegisteringGoesOn(s, step, t);
    }
  }

  lemma RegisteringGoesOn(s: State, step: Step, t: nat)
    requires Enabled(s, step) && t in s.tasks && s.tasks[t].Registering?
    ensures var u := Apply(s, step);
      Saver(s.tasks[t].cell, s.tasks[t].saver) in u.savers || (t in u.tasks && u.tasks[t] == s.tasks[t])
  {
    if step.Move? {
      ActMovesTask(s, step.task, step.act);
      assert Apply(s, step).savers == Effect(s, s.tasks[step.task], step.act).savers;
    }
  }

  lemma NewCellIsHonest(s: State, t: nat, c: nat, v: nat)
    requires Enabled(s, Move(t, SpawnSaver(c, v)))
    ensures c in Apply(s, Move(t, SpawnSaver(c, v))).given && CellHonest(Apply(s, Move(t, SpawnSaver(c, v))), c)
  {
    assert Apply(s, Move(t, SpawnSaver(c, v))).tasks[t] == Registering(c, v);
  }

  lemma FullCellStaysHonest(s: State, step: Step, c: nat)
    requires SaversKnown(s) && Enabled(s, step) && c in s.given && DraftIn(s, c).Some?
    requires c in Apply(s, step).given && Apply(s, step).given[c] == s.given[c]
    ensures CellHonest(Apply(s, step), c)
  {
    var v := s.given[c].thread;
    assert CellHonest(s, c);
    StaysListed(s, step, c, v);
    if step.Move? && step.task == v {
      assert step.act.TakeEdited?;
      assert Apply(s, step).cells == Effect(s, s.tasks[v], step.act).cells;
    } else {
      FullCellWaits(s, step, c, v);
    }
  }

  /** Whoever does not take it leaves a cell as it is, and its thread waiting. */
  lemma FullCellWaits(s: State, step: Step, c: nat, v: nat)
    requires Enabled(s, step) && DraftIn(s, c).Some? && v in s.tasks && s.tasks[v] == Encoding(c)
    requires !(step.Move? && step.task == v)
    ensures DraftIn(Apply(s, step), c) == None || DraftIn(Apply(s, step), c) == DraftIn(s, c)
    ensures v in Apply(s, step).tasks && Apply(s, step).tasks[v] == Encoding(c)
  {
    if step.Move? {
      ActMovesTask(s, step.task, step.act);
      assert Apply(s, step).cells == Effect(s, s.tasks[step.task], step.act).cells;
    }
  }

  lemma CellStaysHonest(s: State, step: Step, c: nat)
    requires CellsKept(s) && SaversKnown(s) && Enabled(s, step) && c in Apply(s, step).given
    ensures CellHonest(Apply(s, step), c)
  {
    if c !in s.given {
      NewCellIsHonest(s, step.task, c, step.act.saver);
    } else {
      GrantsLast(s, step);
      if DraftIn(s, c).Some? {
        FullCellStaysHonest(s, step, c);
      } else {
        EmptiedStaysEmpty(s, step, c);
      }
    }
  }

  lemma EmptiedStaysEmpty(s: State, step: Step, c: nat)
    requires Enabled(s, step) && c in s.cells && DraftIn(s, c) == None
    ensures DraftIn(Apply(s, step), c) == None
  {
    if step.Move? {
      assert Apply(s, step).cells == Effect(s, s.tasks[step.task], step.act).cells;
    }
  }

  lemma SweptStayDone(s: State, step: Step, v: Saver)
    requires CellsKept(s) && SaversKnown(s) && Enabled(s, step) && v in Apply(s, step).swept
    ensures v in StillToJoin(Apply(s, step)) || DraftIn(Apply(s, step), v.cell) == None
  {
    if v in s.swept {
      assert Granted(s, v.cell, v.task) && CellHonest(s, v.cell);
      if DraftIn(s, v.cell) == None {
        EmptiedStaysEmpty(s, step, v.cell);
      } else {
        StillToJoinShrinks(s, step, v);
      }
    }
  }

  lemma StepKeepsSavers(s: State, step: Step)
    requires CellsKept(s) && SaversKnown(s) && Enabled(s, step)
    ensures SaversKnown(Apply(s, step))
  {
    var u := Apply(s, step);
    GrantsLast(s, step);
    GrantsAreSaverCells(s, step);
    forall t | t in u.tasks ensures ThreadGranted(u, t, u.tasks[t]) { ThreadsStayGranted(s, step, t); }
    ListsLast(s, step);
    forall v | v in u.savers || v in StillToJoin(u) || v in u.swept
      ensures Granted(u, v.cell, v.task)
    {
      assert Granted(s, v.cell, v.task);
    }
    forall c | c in u.given ensures CellHonest(u, c) { CellStaysHonest(s, step, c); }
    forall v | v in u.swept ensures v in StillToJoin(u) || DraftIn(u, v.cell) == None { SweptStayDone(s, step, v); }
  }

  /** Where a saver's draft may be: with its own thread, with exit, or done. */
  ghost predicate InGoodHands(s: State, c: nat, p: Place)
    requires c in s.given
  {
    match p
    case InCell(k) => k == c
    case InTask(t) => t == s.given[c].thread && t in s.tasks
                      && (s.tasks[t].WritingEdit? || (s.tasks[t].Keeping? && s.tasks[t].reviewed == None))
    case AtExit => true
    case Done => true
    case Waiting => false
  }

  ghost predicate GrantsPlaced(s: State, w: map<Draft, Place>) {
    forall c :: c in s.given ==> s.given[c].d in w && InGoodHands(s, c, w[s.given[c].d])
  }

  lemma StepKeepsGrants(s: State, step: Step, w: map<Draft, Place>)
    requires Locates(s, w) && CellsKept(s) && SaversKnown(s) && GrantsPlaced(s, w) && Enabled(s, step)
    ensures GrantsPlaced(Apply(s, step), Relocated(s, step, w))
  {
    var u, after := Apply(s, step), Relocated(s, step, w);
    GrantsLast(s, step);
    if StepPassage(s, step).Some? {
      PassageStarts(s, step, w);
    }
    forall c | c in u.given
      ensures u.given[c].d in after && InGoodHands(u, c, after[u.given[c].d])
    {
      if c in s.given {
        GrantStaysInGoodHands(s, step, w, c);
      } else {
        assert after[u.given[c].d] == InCell(c);
      }
    }
  }

  lemma GrantStaysInGoodHands(s: State, step: Step, w: map<Draft, Place>, c: nat)
    requires Locates(s, w) && CellsKept(s) && SaversKnown(s) && GrantsPlaced(s, w) && Enabled(s, step)
    requires c in s.given
    ensures c in Apply(s, step).given && Apply(s, step).given[c] == s.given[c]
    ensures s.given[c].d in Relocated(s, step, w)
      && InGoodHands(Apply(s, step), c, Relocated(s, step, w)[s.given[c].d])
  {
    GrantsLast(s, step);
    var d := s.given[c].d;
    var p := w[d];
    assert At(s, p, d) && InGoodHands(s, c, p);
    if StepPassage(s, step).Some? && StepPassage(s, step).value.d == d {
      PassageStarts(s, step, w);
      PassageOfGrant(s, step, c);
    } else {
      UntouchedStaysInGoodHands(s, step, c, p);
    }
  }

  /** Where a step passes nothing on, or another draft, this one's holder goes on as it was. */
  lemma UntouchedStaysInGoodHands(s: State, step: Step, c: nat, p: Place)
    requires Enabled(s, step) && c in s.given && InGoodHands(s, c, p) && At(s, p, s.given[c].d)
    requires StepPassage(s, step).Some? ==> StepPassage(s, step).value.d != s.given[c].d
    requires c in Apply(s, step).given && Apply(s, step).given[c] == s.given[c]
    ensures InGoodHands(Apply(s, step), c, p)
  {
    if p.InTask? {
      assert Apply(s, step).tasks[p.task] == s.tasks[p.task] || step == Move(p.task, WriteEdited(false));
    }
  }

  /** Only its own thread, or exit, takes a saver's draft. */
  lemma PassageOfGrant(s: State, step: Step, c: nat)
    requires CellsKept(s) && SaversKnown(s) && Enabled(s, step)
    requires c in s.given && StepPassage(s, step).Some?
    requires InGoodHands(s, c, StepPassage(s, step).value.from)
    ensures c in Apply(s, step).given && Apply(s, step).given[c] == s.given[c]
    ensures InGoodHands(Apply(s, step), c, StepPassage(s, step).value.to)
  {
    GrantsLast(s, step);
    if step.Move? {
      assert TaskKept(s, s.tasks[step.task]) && ThreadGranted(s, step.task, s.tasks[step.task]);
      assert Apply(s, step).tasks[step.task] == NextTask(s, s.tasks[step.task], step.act);
    }
  }

  // ---- Every run ----

  ghost predicate Safe(s: State, w: map<Draft, Place>, review: Option<Place>) {
    Locates(s, w) && OneReview(s, review) && CellsKept(s) && InOrder(s) && SaversKnown(s) && GrantsPlaced(s, w)
  }

  lemma StepKeepsSafe(s: State, step: Step, w: map<Draft, Place>, review: Option<Place>)
    requires Safe(s, w, review) && Enabled(s, step)
    ensures Safe(Apply(s, step), Relocated(s, step, w), ReviewAfter(s, step, review))
  {
    StepKeepsLocations(s, step, w);
    StepKeepsOneReview(s, step, review);
    StepKeepsCells(s, step);
    StepKeepsOrder(s, step);
    StepKeepsSavers(s, step);
    StepKeepsGrants(s, step, w);
  }

  lemma StepAt(states: seq<State>, i: nat) returns (step: Step)
    requires Run(states) && i + 1 < |states|
    ensures Enabled(states[i], step) && Apply(states[i], step) == states[i + 1]
  {
    assert GoesOn(states, i);
    step :| Enabled(states[i], step) && Apply(states[i], step) == states[i + 1];
  }

  lemma StartIsSafe()
    ensures Safe(START, map[], None)
  {
  }

  lemma {:induction false} RunIsSafe(states: seq<State>, i: nat) returns (w: map<Draft, Place>, review: Option<Place>)
    requires Run(states) && i < |states|
    ensures Safe(states[i], w, review)
    decreases i
  {
    if i == 0 {
      w, review := map[], None;
      StartIsSafe();
    } else {
      w, review := RunIsSafe(states, i - 1);
      var step := StepAt(states, i - 1);
      StepKeepsSafe(states[i - 1], step, w, review);
      w, review := Relocated(states[i - 1], step, w), ReviewAfter(states[i - 1], step, review);
    }
  }

  lemma ReachableIsSafe(s: State) returns (w: map<Draft, Place>, review: Option<Place>)
    requires Reachable(s)
    ensures Safe(s, w, review)
  {
    var states :| Run(states) && states[|states| - 1] == s;
    w, review := RunIsSafe(states, |states| - 1);
  }

  /** In every reachable state each draft ever made is in exactly one place, and has at most one
      fate. */
  lemma EveryDraftIsInOnePlace(s: State, d: Draft)
    requires Reachable(s)
    ensures d < s.made <==> exists p :: At(s, p, d)
    ensures forall p, q :: At(s, p, d) && At(s, q, d) ==> p == q
    ensures forall i, j :: 0 <= i < j < |s.fates| ==> s.fates[i].0 != s.fates[j].0
  {
    var w, _ := ReachableIsSafe(s);
    if d < s.made {
      assert At(s, w[d], d);
    }
  }

  /** A fate once given is never changed, however the run goes on. */
  lemma {:induction false} FatesAreFinal(states: seq<State>, i: nat, j: nat)
    requires Run(states) && i <= j < |states|
    ensures states[i].fates <= states[j].fates
    decreases j
  {
    if i < j {
      FatesAreFinal(states, i, j - 1);
      var step := StepAt(states, j - 1);
      FatesGrow(states[j - 1], step);
    }
  }

  /** At most one review is open; drafts wait only behind one; and turns come first in, first out. */
  lemma ReviewsTakeTurns(s: State)
    requires Reachable(s)
    ensures forall p, q :: HasReview(s, p) && HasReview(s, q) ==> p == q
    ensures s.queue.open <==> exists p :: HasReview(s, p)
    ensures s.queue.waiting != [] ==> s.queue.open
    ensures s.order.arrivals == s.order.turns + s.queue.waiting
  {
    var _, review := ReachableIsSafe(s);
    if review.Some? {
      assert HasReview(s, review.value);
    }
  }

  /** Of a saver exit has dealt with, no draft is left behind in a cell: it has its fate, or its own
      thread is writing it. */
  lemma ExitLeavesNoSaverBehind(s: State, v: Saver)
    requires Reachable(s) && !s.exit.Rescuing? && v in s.swept && v !in StillToJoin(s)
    ensures Granted(s, v.cell, v.task) && DraftIn(s, v.cell) == None
    ensures Decided(s.fates, s.given[v.cell].d) || At(s, InTask(v.task), s.given[v.cell].d)
    ensures Finished(s, v.task) ==> Decided(s.fates, s.given[v.cell].d)
  {
    var w, _ := ReachableIsSafe(s);
    assert Granted(s, v.cell, v.task);
    var d := s.given[v.cell].d;
    assert At(s, w[d], d) && InGoodHands(s, v.cell, w[d]);
  }

  /** And of every saver ever spawned, at any time but while exit writes a draft itself: its draft has its
      fate exactly if it has left its cell and its own thread is not writing it. It is still in its cell
      only if exit has yet to deal with its saver, or has not seen it: it is on the list, or has yet to
      come on it. */
  lemma FateOfASaversDraft(s: State, c: nat)
    requires Reachable(s) && !s.exit.Rescuing? && c in s.given
    ensures var g := s.given[c];
      && (Decided(s.fates, g.d) <==> DraftIn(s, c) == None && !At(s, InTask(g.thread), g.d))
      && (DraftIn(s, c).Some? ==> Saver(c, g.thread) !in s.swept || Saver(c, g.thread) in StillToJoin(s))
      && (DraftIn(s, c).Some? ==> Listed(s, c, g.thread))
  {
    var w, _ := ReachableIsSafe(s);
    var d := s.given[c].d;
    assert At(s, w[d], d) && InGoodHands(s, c, w[d]) && CellHonest(s, c);
    assert At(s, Done, d) <==> Decided(s.fates, d);
    assert DraftIn(s, c).Some? ==> At(s, InCell(c), d);
  }

  /** Exit takes the handle of a recording once, and waits for the newest only. */
  predicate HandleTaken(s: State) {
    && (s.exit.Running? <==> s.calls == 0)
    && (s.recorder.joinable.Some? && !s.recorder.restarted ==> s.calls == 0 || (s.calls == 1 && s.exit.Raised?))
    && (s.exit.GaveUp? && !s.recorder.restarted ==> s.calls == 1) && s.calls <= EXIT_CALLS
  }

  lemma ActKeepsHandle(s: State, task: Task, act: Act)
    requires HandleTaken(s) && CanAct(s, task, act)
    ensures HandleTaken(Effect(s, task, act))
  {
  }

  lemma StepKeepsHandle(s: State, step: Step)
    requires HandleTaken(s) && Enabled(s, step)
    ensures HandleTaken(Apply(s, step))
  {
    if step.Move? {
      ActKeepsHandle(s, s.tasks[step.task], step.act);
    }
  }

  lemma {:induction false} HandleTakenAt(states: seq<State>, i: nat)
    requires Run(states) && i < |states|
    ensures HandleTaken(states[i])
    decreases i
  {
    if i > 0 {
      HandleTakenAt(states, i - 1);
      var step := StepAt(states, i - 1);
      StepKeepsHandle(states[i - 1], step);
    }
  }

  /** Exit's last call gives up on a recording, and so passes the savers by, only if a recording came up
      after exit began. */
  lemma LastCallGivesUpOnANewRecording(s: State)
    requires Reachable(s) && s.calls == EXIT_CALLS && s.exit.GaveUp?
    ensures s.recorder.restarted
  {
    var states :| Run(states) && states[|states| - 1] == s;
    HandleTakenAt(states, |states| - 1);
  }

  /** Exit is entered twice at most. */
  lemma ExitIsEnteredTwice(s: State)
    requires Reachable(s)
    ensures s.calls <= 2 && (s.exit.Running? <==> s.calls == 0)
  {
    var states :| Run(states) && states[|states| - 1] == s;
    HandleTakenAt(states, |states| - 1);
  }

  // ---- What exit can and cannot promise ----

  lemma StepTo(s: State, step: Step, u: State)
    requires Reachable(s) && Enabled(s, step) && Apply(s, step) == u
    ensures Reachable(u)
  {
    StepIsReachable(s, step);
  }

  /** No recording under way, and no handle of one left. */
  const NO_RECORDING := Recorder(false, None, false)

  /** A recording in review, its request accepted and its answer awaited. */
  const IN_REVIEW := START.(
    made := 1, tasks := map[9 := Over, 0 := Over], cells := map[0 := Cell(true, Some(0))], answers := {0},
    queue := ReviewQueue(true, []), recorder := Recorder(false, Some(0), false), order := Order([0], [0]))

  lemma InReviewIsReachable()
    ensures Reachable(IN_REVIEW)
  {
    StartIsReachable();
    var s0 := START.(tasks := map[9 := Starting(0), 0 := Recording], recorder := Recorder(true, None, false));
    StepTo(START, StartRecording(9, 0), s0);
    var kept := START.(tasks := map[9 := Over, 0 := Recording], recorder := Recorder(true, Some(0), false));
    StepTo(s0, Move(9, KeepHandle), kept);
    var s1 := kept.(made := 1, recorder := Recorder(false, Some(0), false), tasks := map[9 := Over, 0 := Ended(0)]);
    StepTo(kept, Finish(0), s1);
    var s2 := s1.(tasks := map[9 := Over, 0 := Queueing(0)]);
    StepTo(s1, Move(0, ReadExiting), s2);
    QueuedIsReviewed(s2);
  }

  lemma QueuedIsReviewed(s2: State)
    requires s2 == START.(
      made := 1, tasks := map[9 := Over, 0 := Queueing(0)], recorder := Recorder(false, Some(0), false)) && Reachable(s2)
    ensures Reachable(IN_REVIEW)
  {
    var s3 := s2.(
      tasks := map[9 := Over, 0 := Opening(0)], queue := ReviewQueue(true, []), order := Order([0], [0]));
    StepTo(s2, Move(0, EnterQueue), s3);
    var s4 := s3.(
      tasks := map[9 := Over, 0 := Requested(0)], cells := map[0 := Cell(true, Some(0))], answers := {0});
    StepTo(s3, Move(0, RequestReview(0)), s4);
    StepTo(s4, Move(0, RequestAccepted), IN_REVIEW);
  }

  /** The same recording answered with an edit, its saver on the list and still encoding. */
  const IN_EDITING := IN_REVIEW.(
    tasks := map[9 := Over, 0 := Over, 1 := Concluded(false), 2 := Encoding(1)],
    cells := map[0 := Cell(true, None), 1 := Cell(false, Some(0))], answers := {},
    savers := [Saver(1, 2)], given := map[1 := Grant(0, 2)])

  lemma InEditingIsReachable()
    ensures Reachable(IN_EDITING)
  {
    InRegisteringIsReachable();
    assert Unfinished([], IN_REGISTERING) == [];
    StepTo(IN_REGISTERING, Move(1, Register), IN_EDITING);
  }

  /** The same before the saver is on the list. */
  const IN_REGISTERING := IN_EDITING.(tasks := IN_EDITING.tasks[1 := Registering(1, 2)], savers := [])

  lemma InRegisteringIsReachable()
    ensures Reachable(IN_REGISTERING)
  {
    InReviewIsReachable();
    var s1 := IN_REVIEW.(
      tasks := map[9 := Over, 0 := Over, 1 := Concluding(0, Save(true))], cells := map[0 := Cell(true, None)],
      answers := {});
    StepTo(IN_REVIEW, Answer(0, 1, Save(true)), s1);
    StepTo(s1, Move(1, SpawnSaver(1, 2)), IN_REGISTERING);
  }

  /** One call of exit whose recording, if it has one to wait for, is over. */
  function AfterCall(s: State): State {
    s.(exit := Rest(s.savers), calls := s.calls + 1, recorder := s.recorder.(joinable := None),
       savers := [], swept := s.swept + s.savers)
  }

  lemma CallIsReachable(s: State)
    requires Reachable(s) && (s.exit.Running? || s.exit.Swept?) && s.calls < EXIT_CALLS
    requires s.recorder.joinable.Some? ==> Finished(s, s.recorder.joinable.value)
    ensures Reachable(AfterCall(s))
  {
    var raised := s.(exit := Raised, calls := s.calls + 1);
    StepTo(s, EnterExit, raised);
    StepTo(raised, JoinRecording(true), AfterCall(s));
  }

  /** A saver spawned before exit's last call takes the list and registered after it is never looked at:
      exit is through, and the draft has no fate. */
  lemma LateSaverIsNeverSwept()
    ensures var s := AfterCall(AfterCall(IN_REGISTERING));
      Reachable(s) && s.exit.Swept? && s.calls == EXIT_CALLS && s.swept == [] && s.fates == []
      && DraftIn(s, 1) == Some(0) && !s.recorder.restarted
  {
    InRegisteringIsReachable();
    CallIsReachable(IN_REGISTERING);
    CallIsReachable(AfterCall(IN_REGISTERING));
  }

  /** One registered between the calls the first call has not seen, and the second sweeps. */
  lemma SecondCallSweepsALateSaver()
    ensures var once := AfterCall(IN_REGISTERING); Reachable(once) && once.exit.Swept? && once.swept == []
    ensures var s := AfterCall(Listing(AfterCall(IN_REGISTERING)));
      Reachable(s) && s.exit == Sweeping([Saver(1, 2)]) && s.swept == [Saver(1, 2)]
  {
    InRegisteringIsReachable();
    CallIsReachable(IN_REGISTERING);
    var once := AfterCall(IN_REGISTERING);
    assert Unfinished([], once) == [];
    StepTo(once, Move(1, Register), Listing(once));
    CallIsReachable(Listing(once));
  }

  /** The saver's spawner puts it on the list. */
  function Listing(s: State): State {
    s.(tasks := s.tasks[1 := Concluded(false)], savers := s.savers + [Saver(1, 2)])
  }

  /** A recording just started, its handle kept. */
  function Restarted(s: State, starter: nat, t: nat): State {
    s.(tasks := s.tasks[t := Recording][starter := Over],
       recorder := Recorder(true, Some(t), s.recorder.restarted || !s.exit.Running?))
  }

  lemma RestartedIsReachable(s: State, starter: nat, t: nat)
    requires Reachable(s) && !s.recorder.active && starter !in s.tasks && t !in s.tasks && starter != t
    ensures Reachable(Restarted(s, starter, t))
  {
    var started := s.(tasks := s.tasks[starter := Starting(t)][t := Recording], recorder := s.recorder.(active := true));
    StepTo(s, StartRecording(starter, t), started);
    assert started.tasks[starter := Over] == Restarted(s, starter, t).tasks;
    StepTo(started, Move(starter, KeepHandle), Restarted(s, starter, t));
  }

  /** One call of exit that gives up on a recording just started, which then ends without a draft. */
  lemma LateCall(s: State, starter: nat, t: nat)
    requires Reachable(s) && (s.exit.Running? || s.exit.GaveUp?) && s.calls < EXIT_CALLS && !s.recorder.active
    requires starter !in s.tasks && t !in s.tasks && starter != t
    ensures Reachable(AfterLateCall(s, starter, t))
  {
    RestartedIsReachable(s, starter, t);
    var kept := Restarted(s, starter, t);
    var raised := kept.(exit := Raised, calls := s.calls + 1);
    StepTo(kept, EnterExit, raised);
    var late := raised.(exit := GaveUp, recorder := kept.recorder.(joinable := None));
    StepTo(raised, JoinRecording(false), late);
    assert late.tasks[t := Over] == AfterLateCall(s, starter, t).tasks;
    StepTo(late, Move(t, EndWithoutDraft), AfterLateCall(s, starter, t));
  }

  function AfterLateCall(s: State, starter: nat, t: nat): State {
    s.(tasks := s.tasks[t := Over][starter := Over], exit := GaveUp, calls := s.calls + 1,
       recorder := Recorder(false, None, s.recorder.restarted || !s.exit.Running?))
  }

  /** Recordings that miss the deadline, one in each call, make exit return before it looks at the
      savers, and a draft being encoded then stays where it is, without a fate. */
  lemma LateRecordingLeavesSaversUnswept()
    ensures var s := AfterLateCall(AfterLateCall(IN_EDITING, 3, 4), 5, 6);
      Reachable(s) && s.exit.GaveUp? && s.calls == EXIT_CALLS && s.swept == []
      && DraftIn(s, 1) == Some(0) && s.fates == [] && s.tasks[2] == Encoding(1)
  {
    InEditingIsReachable();
    LateCall(IN_EDITING, 3, 4);
    LateCall(AfterLateCall(IN_EDITING, 3, 4), 5, 6);
  }

  /** The same recording once exit is through with its savers, having found this draft taken. */
  const IN_WRITING := IN_EDITING.(
    tasks := map[9 := Over, 0 := Over, 1 := Concluded(false), 2 := WritingEdit(0)],
    cells := map[0 := Cell(true, None), 1 := Cell(false, None)],
    savers := [], swept := [Saver(1, 2)], exit := Swept, calls := EXIT_CALLS, recorder := NO_RECORDING)

  const IN_SWEEP := IN_EDITING.(
    savers := [], swept := [Saver(1, 2)], exit := Sweeping([Saver(1, 2)]), calls := 1, recorder := NO_RECORDING)

  lemma InSweepIsReachable()
    ensures Reachable(IN_SWEEP)
  {
    InEditingIsReachable();
    CallIsReachable(IN_EDITING);
    assert AfterCall(IN_EDITING) == IN_SWEEP;
  }

  lemma TakenInSweepIsReachable()
    ensures Reachable(IN_WRITING.(exit := IN_SWEEP.exit, calls := 1))
  {
    InSweepIsReachable();
    var taken := IN_WRITING.(exit := IN_SWEEP.exit, calls := 1);
    assert NextTask(IN_SWEEP, IN_SWEEP.tasks[2], TakeEdited(true)) == WritingEdit(0);
    assert Take(IN_SWEEP, 1).cells == taken.cells;
    StepTo(IN_SWEEP, Move(2, TakeEdited(true)), taken);
  }

  /** And even a swept saver may still be writing when the last call is through: exit does not wait for a
      draft its saver took. */
  lemma SweptSaverMayStillBeWriting()
    ensures Reachable(IN_WRITING) && At(IN_WRITING, InTask(2), 0) && IN_WRITING.fates == []
  {
    TakenInSweepIsReachable();
    var taken := IN_WRITING.(exit := IN_SWEEP.exit, calls := 1);
    assert Take(taken, 1).cells == taken.cells;
    StepTo(taken, SaverTooLate, IN_WRITING.(calls := 1));
    CallIsReachable(IN_WRITING.(calls := 1));
    assert AfterCall(IN_WRITING.(calls := 1)) == IN_WRITING;
  }
}
