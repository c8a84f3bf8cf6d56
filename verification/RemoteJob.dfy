/**
 * The lifecycle of one remote execution job. Tasks call its methods; a step is what one task does between
 * two points at which others can run. Callbacks may await, so others run between a callback's start and end.
 */
module RemoteJob {
  import opened Wrappers

  datatype Phase = Abort | Terminate | PeerInterrupt | Cleanup

  function Rank(phase: Phase): nat {
    match phase
    case Abort => 0
    case Terminate => 1
    case PeerInterrupt => 2
    case Cleanup => 3
  }

  datatype JobState = Pending | Running | Succeeded | Failed | Cancelled {
    predicate Terminal() { Succeeded? || Failed? || Cancelled? }
  }

  /** The callbacks of each phase in order of registration; a callback is named by the caller that registered it. */
  datatype Callbacks = Callbacks(abort: seq<nat>, terminate: seq<nat>, peer: seq<nat>, cleanup: seq<nat>) {
    function At(phase: Phase): seq<nat> {
      match phase
      case Abort => abort
      case Terminate => terminate
      case PeerInterrupt => peer
      case Cleanup => cleanup
    }

    function Add(phase: Phase, cb: nat): (c: Callbacks)
      ensures c.At(phase) == At(phase) + [cb]
      ensures forall other :: other != phase ==> c.At(other) == At(other)
    {
      match phase
      case Abort => this.(abort := abort + [cb])
      case Terminate => this.(terminate := terminate + [cb])
      case PeerInterrupt => this.(peer := peer + [cb])
      case Cleanup => this.(cleanup := cleanup + [cb])
    }

    function With(phase: Phase, list: seq<nat>): (c: Callbacks)
      ensures c.At(phase) == list
      ensures forall other :: other != phase ==> c.At(other) == At(other)
    {
      match phase
      case Abort => this.(abort := list)
      case Terminate => this.(terminate := list)
      case PeerInterrupt => this.(peer := list)
      case Cleanup => this.(cleanup := list)
    }
  }

  datatype Event = Started(phase: Phase, cb: nat) | Finished(phase: Phase, cb: nat)

  /**
   * What has happened. `log`: the callbacks' events. `trace`: one phase for each beginning and end of a phase and of a
   * callback. `winner`, `cleaner`: the caller whose transition won, and the one that ran the cleanup. `taken`: the
   * callbacks that each phase took when it began. `front`: the rank of the phase that the winner has come to. `early`:
   * the cleanup began before the winner had come to it.
   */
  datatype History = History(log: seq<Event>, trace: seq<Phase>, winner: Option<nat>, cleaner: Option<nat>,
                             taken: Callbacks, front: nat, early: bool)
  {
    /** The callbacks of a phase are taken, and it begins. */
    function BeginPhase(phase: Phase, callbacks: seq<nat>): History {
      this.(trace := trace + [phase], taken := taken.With(phase, callbacks))
    }

    /** A phase is over. */
    function EndPhase(phase: Phase): History { this.(trace := trace + [phase], front := Rank(phase) + 1) }

    /** The cleanup is over. */
    function Leave(): History { this.(trace := trace + [Cleanup]) }

    /** A callback starts or ends. */
    function Note(e: Event): History { this.(log := log + [e], trace := trace + [e.phase]) }

    function Win(t: nat, front: nat): History { this.(winner := Some(t), front := front) }

    function Claim(t: nat): History { this.(cleaner := Some(t), early := winner.None? || front < 3) }
  }

  /** The job's own fields, and its history `h`. */
  datatype Job = Job(state: JobState, result: Option<int>, error: Option<int>, cancelled: bool, callbacks: Callbacks,
                     cleaned: bool, cleanupFailed: bool, lock: Option<nat>, h: History)

  datatype Call = Start | Succeed(result: int) | Fail(error: int) | Cancel | CallCleanup | Register(phase: Phase)

  datatype Reply = Nothing | Answer(value: bool) | Raises

  datatype Stage =
    | Calling
    | CallingBack(phase: Phase, todo: seq<nat>, running: bool)   // `running`: the first of `todo` has started
    | Locking
    | Ended(reply: Reply)

  /** `failed`: a callback of this task failed; `uncleaned`: a cleanup callback did. */
  datatype Task = Task(call: Call, at: Stage, failed: bool, uncleaned: bool)

  datatype State = State(job: Job, tasks: map<nat, Task>)

  datatype Step =
    | Do(t: nat) | StartCallback(t: nat) | EndCallback(t: nat, fails: bool) | EndPhase(t: nat) | Acquire(t: nat)

  predicate Ready(job: Job, at: Stage, step: Step) {
    match step
    case Do(_) => at.Calling?
    case StartCallback(_) => at.CallingBack? && !at.running && at.todo != []
    case EndCallback(_, _) => at.CallingBack? && at.running && at.todo != []
    case EndPhase(_) => at.CallingBack? && !at.running && at.todo == []
    case Acquire(_) => at.Locking? && job.lock.None?
  }

  predicate Enabled(s: State, step: Step) {
    step.t in s.tasks && Ready(s.job, s.tasks[step.t].at, step)
  }

  /** What a call does before its first await. */
  function Begin(job: Job, t: nat, call: Call): (Job, Stage) {
    match call
    case Start => if job.state.Pending? then (job.(state := Running), Ended(Nothing)) else (job, Ended(Raises))
    case Succeed(result) =>
      if job.state.Terminal() then (job, Ended(Raises))
      else (job.(state := Succeeded, result := Some(result), h := job.h.Win(t, 3)), Locking)
    case Fail(error) =>
      if job.state.Terminal() then (job, Ended(Raises))
      else (job.(state := Failed, error := Some(error), h := job.h.Win(t, 3)), Locking)
    case Cancel =>
      if job.state.Terminal() then (job, Ended(Answer(false)))
      else
        (job.(state := Cancelled, cancelled := true, h := job.h.Win(t, 0).BeginPhase(Abort, job.callbacks.At(Abort))),
         CallingBack(Abort, job.callbacks.At(Abort), false))
    case CallCleanup => (job, Locking)
    case Register(phase) =>
      if job.cleaned then (job, Ended(Raises)) else (job.(callbacks := job.callbacks.Add(phase, t)), Ended(Nothing))
  }

  /** A call ends after its cleanup returned `cleaned` or raised. */
  function ReplyOf(task: Task, raised: bool, cleaned: bool): Reply {
    if raised || (task.call.Cancel? && task.failed) then Raises
    else if task.call.Cancel? then Answer(true)
    else if task.call.CallCleanup? then Answer(cleaned)
    else Nothing
  }

  /** The end of a phase: the next one begins with the callbacks it has now, and the cleanup ends the call. */
  function PassOn(job: Job, task: Task, phase: Phase): (Job, Task) {
    match phase
    case Abort => Enter(job.(h := job.h.EndPhase(Abort)), task, Terminate)
    case Terminate => Enter(job.(h := job.h.EndPhase(Terminate)), task, PeerInterrupt)
    case PeerInterrupt => (job.(h := job.h.EndPhase(PeerInterrupt)), task.(at := Locking))
    case Cleanup =>
      (job.(lock := None, cleanupFailed := task.uncleaned, h := job.h.Leave()),
       task.(at := Ended(ReplyOf(task, task.uncleaned, true))))
  }

  function Enter(job: Job, task: Task, phase: Phase): (Job, Task) {
    (job.(h := job.h.BeginPhase(phase, job.callbacks.At(phase))),
     task.(at := CallingBack(phase, job.callbacks.At(phase), false)))
  }

  /** The cleanup lock is taken. */
  function Claim(job: Job, t: nat, task: Task): (Job, Task) {
    if job.cleaned then (job, task.(at := Ended(ReplyOf(task, job.cleanupFailed, false))))
    else Enter(job.(lock := Some(t), cleaned := true, h := job.h.Claim(t)), task, Cleanup)
  }

  function StartOne(job: Job, task: Task): (Job, Task)
    requires task.at.CallingBack? && task.at.todo != []
  {
    (job.(h := job.h.Note(Started(task.at.phase, task.at.todo[0]))), task.(at := task.at.(running := true)))
  }

  function EndOne(job: Job, task: Task, fails: bool): (Job, Task)
    requires task.at.CallingBack? && task.at.todo != []
  {
    (job.(h := job.h.Note(Finished(task.at.phase, task.at.todo[0]))),
     task.(at := CallingBack(task.at.phase, task.at.todo[1..], false), failed := task.failed || fails,
           uncleaned := task.uncleaned || (fails && task.at.phase.Cleanup?)))
  }

  function Effect(job: Job, task: Task, step: Step): (Job, Task)
    requires Ready(job, task.at, step)
  {
    match step
    case Do(t) => var b := Begin(job, t, task.call); (b.0, task.(at := b.1))
    case StartCallback(_) => StartOne(job, task)
    case EndCallback(_, fails) => EndOne(job, task, fails)
    case EndPhase(_) => PassOn(job, task, task.at.phase)
    case Acquire(t) => Claim(job, t, task)
  }

  function After(s: State, step: Step): State
    requires Enabled(s, step)
  {
    var e := Effect(s.job, s.tasks[step.t], step);
    State(e.0, s.tasks[step.t := e.1])
  }

  predicate Run(s: State, steps: seq<Step>)
    decreases |steps|
  {
    steps == [] || (Enabled(s, steps[0]) && Run(After(s, steps[0]), steps[1..]))
  }

  function Final(s: State, steps: seq<Step>): State
    requires Run(s, steps)
    decreases |steps|
  {
    if steps == [] then s else Final(After(s, steps[0]), steps[1..])
  }

  const NEW := Job(Pending, None, None, false, Callbacks([], [], [], []), false, false, None,
                   History([], [], None, None, Callbacks([], [], [], []), 0, false))

  predicate Init(s: State) {
    s.job == NEW && forall t <- s.tasks :: s.tasks[t].at.Calling? && !s.tasks[t].failed && !s.tasks[t].uncleaned
  }

  // ---- the log ----

  function Starts(log: seq<Event>, phase: Phase): seq<nat> {
    if log == [] then []
    else
      var last := log[|log| - 1];
      Starts(log[..|log| - 1], phase) + if last.Started? && last.phase == phase then [last.cb] else []
  }

  function Finishes(log: seq<Event>, phase: Phase): seq<nat> {
    if log == [] then []
    else
      var last := log[|log| - 1];
      Finishes(log[..|log| - 1], phase) + if last.Finished? && last.phase == phase then [last.cb] else []
  }

  lemma LogGrows(log: seq<Event>, e: Event, phase: Phase)
    ensures Starts(log + [e], phase) == Starts(log, phase) + if e.Started? && e.phase == phase then [e.cb] else []
    ensures Finishes(log + [e], phase) == Finishes(log, phase) + if e.Finished? && e.phase == phase then [e.cb] else []
  {
    assert (log + [e])[..|log|] == log;
  }

  /** The callbacks of a phase still to be started, and still to be finished, by a task in that phase. */
  function ToStart(at: Stage): seq<nat>
    requires at.CallingBack? && (at.running ==> at.todo != [])
  {
    if at.running then at.todo[1..] else at.todo
  }

  // ---- the invariant ----

  /** State, result, error and event belong together, and to the winner. */
  ghost predicate WinnerInv(s: State) {
    var job := s.job;
    && (job.state.Terminal() <==> job.h.winner.Some?)
    && (job.result.Some? <==> job.state.Succeeded?)
    && (job.error.Some? <==> job.state.Failed?)
    && (job.cancelled <==> job.state.Cancelled?)
    && (job.h.winner.Some? ==>
          && job.h.winner.value in s.tasks && !s.tasks[job.h.winner.value].at.Calling?
          && job.h.front == Reached(s.tasks[job.h.winner.value].at)
          && match s.tasks[job.h.winner.value].call
             case Succeed(result) => job.result == Some(result)
             case Fail(error) => job.error == Some(error)
             case Cancel => job.cancelled
             case _ => false)
  }

  /** Only the winner and explicit cleanup calls get as far as the cleanup, one at a time. */
  ghost predicate TaskInv(job: Job, t: nat, task: Task) {
    match task.at
    case Calling =>
      job.h.winner != Some(t) && job.h.cleaner != Some(t) && job.lock != Some(t) && !task.failed && !task.uncleaned
    case CallingBack(phase, todo, running) =>
      && (running ==> todo != [])
      && (phase.Cleanup? <==> job.lock == Some(t))
      && (if phase.Cleanup? then
            job.cleaned && job.h.cleaner == Some(t) && (task.call.CallCleanup? || job.h.winner == Some(t))
          else task.call.Cancel? && job.h.winner == Some(t) && job.h.cleaner != Some(t) && !task.uncleaned)
    case Locking =>
      (task.call.CallCleanup? || job.h.winner == Some(t)) && job.h.cleaner != Some(t) && job.lock != Some(t)
        && !task.uncleaned
    case Ended(reply) =>
      && job.lock != Some(t)
      && (reply == Answer(true) ==>
            if task.call.CallCleanup? then job.h.cleaner == Some(t) else task.call.Cancel? && job.h.winner == Some(t))
      && (reply == Answer(false) ==>
            if task.call.CallCleanup? then job.cleaned && job.h.cleaner != Some(t)
              else task.call.Cancel? && job.h.winner != Some(t))
      && (reply == Nothing && (task.call.Succeed? || task.call.Fail?) ==> job.h.winner == Some(t))
      && (task.call.Start? || task.call.Register? ==> job.h.winner != Some(t) && job.h.cleaner != Some(t))
      && (job.h.winner == Some(t) ==> job.cleaned)
      && (job.h.cleaner == Some(t) ==> task.call.CallCleanup? || job.h.winner == Some(t))
  }

  ghost predicate CleanupInv(s: State) {
    var job := s.job;
    && (job.cleaned <==> job.h.cleaner.Some?)
    && (job.lock.Some? ==> job.lock == job.h.cleaner)
    && (job.h.cleaner.Some? ==> job.h.cleaner.value in s.tasks)
    && (job.lock.Some? ==> s.tasks[job.lock.value].at.CallingBack? && s.tasks[job.lock.value].at.phase.Cleanup?)
    && (job.cleanupFailed ==> job.cleaned)
  }

  /** A task runs the callbacks `all` of a phase in order: so far those not in its `todo`. */
  ghost predicate Progress(log: seq<Event>, phase: Phase, at: Stage, all: seq<nat>) {
    && at.CallingBack? && (at.running ==> at.todo != [])
    && Starts(log, phase) + ToStart(at) == all
    && Finishes(log, phase) + at.todo == all
  }

  lemma OneMore(done: seq<nat>, todo: seq<nat>, all: seq<nat>)
    requires todo != [] && done + todo == all
    ensures done + [todo[0]] + todo[1..] == all
  {
  }

  lemma ProgressMade(log: seq<Event>, at: Stage, all: seq<nat>)
    requires at.CallingBack? && at.todo != [] && Progress(log, at.phase, at, all)
    ensures !at.running ==> Progress(log + [Started(at.phase, at.todo[0])], at.phase, at.(running := true), all)
    ensures at.running ==>
              Progress(log + [Finished(at.phase, at.todo[0])], at.phase, CallingBack(at.phase, at.todo[1..], false),
                       all)
  {
    LogGrows(log, Started(at.phase, at.todo[0]), at.phase);
    LogGrows(log, Finished(at.phase, at.todo[0]), at.phase);
    if at.running {
      OneMore(Finishes(log, at.phase), at.todo, all);
    } else {
      OneMore(Starts(log, at.phase), at.todo, all);
    }
  }

  /** What has been started and finished of the cleanup callbacks. */
  ghost predicate CleanupLogInv(s: State)
    requires CleanupInv(s)
  {
    var job := s.job;
    if !job.cleaned then Starts(job.h.log, Cleanup) == [] && Finishes(job.h.log, Cleanup) == []
    else if job.lock.None? then
      Starts(job.h.log, Cleanup) == job.callbacks.cleanup && Finishes(job.h.log, Cleanup) == job.callbacks.cleanup
    else
      Progress(job.h.log, Cleanup, s.tasks[job.lock.value].at, job.callbacks.cleanup)
  }

  /** A callback is listed exactly if its registration succeeded, and once. */
  ghost predicate RegisteredInv(s: State) {
    && (forall phase, t :: t in s.job.callbacks.At(phase) ==>
          t in s.tasks && s.tasks[t] == Task(Register(phase), Ended(Nothing), false, false))
    && (forall t <- s.tasks :: s.tasks[t].call.Register? && s.tasks[t].at == Ended(Nothing) ==>
          t in s.job.callbacks.At(s.tasks[t].call.phase))
    && forall phase, i, j :: 0 <= i < j < |s.job.callbacks.At(phase)| ==>
         s.job.callbacks.At(phase)[i] != s.job.callbacks.At(phase)[j]
  }

  /** The phase a winning cancellation has reached; the cleanup counts as reached once it is waited for. */
  function Reached(at: Stage): nat {
    if at.CallingBack? then Rank(at.phase) else 3
  }

  /**
   * What a winning cancellation has done of a phase before the cleanup: all that it took, if it is past that phase,
   * and nothing, if it is not there yet.
   */
  ghost predicate PhaseInv(job: Job, at: Stage, phase: Phase) {
    if Reached(at) < Rank(phase) then Starts(job.h.log, phase) == [] && Finishes(job.h.log, phase) == []
    else if Reached(at) == Rank(phase) && at.CallingBack? then Progress(job.h.log, phase, at, job.h.taken.At(phase))
    else Starts(job.h.log, phase) == job.h.taken.At(phase) && Finishes(job.h.log, phase) == job.h.taken.At(phase)
  }

  ghost predicate CancelInv(s: State)
    requires WinnerInv(s)
  {
    forall phase: Phase :: phase != Cleanup ==>
      if s.job.cancelled then PhaseInv(s.job, s.tasks[s.job.h.winner.value].at, phase)
      else Starts(s.job.h.log, phase) == [] && Finishes(s.job.h.log, phase) == []
  }

  /** What a phase took was registered then. */
  ghost predicate TakenInv(job: Job) {
    forall phase: Phase :: job.h.taken.At(phase) <= job.callbacks.At(phase)
  }

  ghost predicate Inv(s: State) {
    && WinnerInv(s)
    && (forall t <- s.tasks :: TaskInv(s.job, t, s.tasks[t]))
    && CleanupInv(s) && CleanupLogInv(s)
    && RegisteredInv(s)
    && CancelInv(s) && TakenInv(s.job) && OrderInv(s.job)
  }

  lemma InitInv(s: State)
    requires Init(s)
    ensures Inv(s)
  {
  }

  lemma WinnerKept(s: State, step: Step)
    requires WinnerInv(s) && Enabled(s, step) && TaskInv(s.job, step.t, s.tasks[step.t])
    ensures WinnerInv(After(s, step))
  {
    if step.Do? { WinnerBegins(s, step); } else { WinnerGoesOn(s, step); }
  }

  lemma WinnerBegins(s: State, step: Step)
    requires WinnerInv(s) && Enabled(s, step) && TaskInv(s.job, step.t, s.tasks[step.t]) && step.Do?
    ensures WinnerInv(After(s, step))
  {
    hide Callbacks.Add, Callbacks.With, Callbacks.At, ReplyOf;
  }

  lemma WinnerGoesOn(s: State, step: Step)
    requires WinnerInv(s) && Enabled(s, step) && TaskInv(s.job, step.t, s.tasks[step.t]) && !step.Do?
    ensures WinnerInv(After(s, step))
  {
    LeavesOutcome(s, step);
    hide Effect;
  }

  /** After its first step a call leaves the outcome, and goes forward. */
  lemma LeavesOutcome(s: State, step: Step)
    requires Enabled(s, step) && !step.Do?
    ensures SameOutcome(s.job, After(s, step).job)
            && Forward(s.tasks[step.t], After(s, step).tasks[step.t], Ends(s, step))
    ensures After(s, step).job.h.front == (if Ends(s, step) then Rank(s.tasks[step.t].at.phase) + 1 else s.job.h.front)
  {
    EffectLeavesOutcome(s.job, s.tasks[step.t], step);
    hide Effect, SameOutcome, Forward;
  }

  ghost predicate SameOutcome(job: Job, next: Job) {
    && next.state == job.state && next.result == job.result && next.error == job.error
      && next.cancelled == job.cancelled
    && next.callbacks == job.callbacks && next.h.winner == job.h.winner
  }

  ghost predicate Forward(task: Task, next: Task, ends: bool)
    requires ends ==> task.at.CallingBack?
  {
    && next.call == task.call && !next.at.Calling?
    && Reached(next.at) == if ends then Rank(task.at.phase) + 1 else Reached(task.at)
  }

  lemma EffectLeavesOutcome(job: Job, task: Task, step: Step)
    requires Ready(job, task.at, step) && !step.Do?
    ensures var (next, after) := Effect(job, task, step); var ends := step.EndPhase? && !task.at.phase.Cleanup?;
            && SameOutcome(job, next) && Forward(task, after, ends)
            && next.h.front == if ends then Rank(task.at.phase) + 1 else job.h.front
  {
    hide ReplyOf, Begin, Callbacks.With, Callbacks.At;
  }

  /** A step ends a phase before the cleanup. */
  predicate Ends(s: State, step: Step)
    requires Enabled(s, step)
  {
    step.EndPhase? && !s.tasks[step.t].at.phase.Cleanup?
  }

  lemma OwnTaskKept(s: State, step: Step)
    requires WinnerInv(s) && CleanupInv(s) && Enabled(s, step) && TaskInv(s.job, step.t, s.tasks[step.t])
    ensures TaskInv(After(s, step).job, step.t, After(s, step).tasks[step.t])
  {
    EffectKeepsTask(s.job, s.tasks[step.t], step);
    hide Effect, TaskInv, WinnerInv, CleanupInv;
  }

  /** The fields of a job that stand for its winner and its cleanup agree. */
  ghost predicate Agree(job: Job) {
    (job.state.Terminal() <==> job.h.winner.Some?) && (job.cleaned <==> job.h.cleaner.Some?)
      && (job.lock.Some? ==> job.lock == job.h.cleaner)
  }

  lemma EffectKeepsTask(job: Job, task: Task, step: Step)
    requires Ready(job, task.at, step) && TaskInv(job, step.t, task) && Agree(job)
    requires job.h.winner == Some(step.t) ==> task.call.Succeed? || task.call.Fail? || task.call.Cancel?
    ensures TaskInv(Effect(job, task, step).0, step.t, Effect(job, task, step).1)
  {
    if step.Do? { BeginKeepsTask(job, task, step); } else { MovingKeepsTask(job, task, step); }
  }

  lemma BeginKeepsTask(job: Job, task: Task, step: Step)
    requires Ready(job, task.at, step) && TaskInv(job, step.t, task) && Agree(job) && step.Do?
    ensures TaskInv(Effect(job, task, step).0, step.t, Effect(job, task, step).1)
  {
    hide Callbacks.Add, Callbacks.With, Callbacks.At;
  }

  lemma MovingKeepsTask(job: Job, task: Task, step: Step)
    requires Ready(job, task.at, step) && TaskInv(job, step.t, task) && Agree(job) && !step.Do?
    requires job.h.winner == Some(step.t) ==> task.call.Succeed? || task.call.Fail? || task.call.Cancel?
    ensures TaskInv(Effect(job, task, step).0, step.t, Effect(job, task, step).1)
  {
    hide Callbacks.Add, Callbacks.With, Callbacks.At, Begin;
    if step.EndPhase? {
      PassOnKeepsTask(job, step.t, task);
      hide PassOn, TaskInv, Claim, StartOne, EndOne;
    } else {
      hide PassOn;
    }
  }

  lemma PassOnKeepsTask(job: Job, t: nat, task: Task)
    requires task.at.CallingBack? && !task.at.running && task.at.todo == [] && TaskInv(job, t, task) && Agree(job)
    requires job.h.winner == Some(t) ==> task.call.Succeed? || task.call.Fail? || task.call.Cancel?
    ensures TaskInv(PassOn(job, task, task.at.phase).0, t, PassOn(job, task, task.at.phase).1)
  {
    hide Callbacks.With, Callbacks.At;
  }

  lemma OtherTaskKept(s: State, step: Step, t: nat)
    requires WinnerInv(s) && CleanupInv(s) && Enabled(s, step) && TaskInv(s.job, step.t, s.tasks[step.t])
    requires t in s.tasks && t != step.t && TaskInv(s.job, t, s.tasks[t])
    ensures TaskInv(After(s, step).job, t, s.tasks[t])
  {
    EffectKeepsOther(s.job, s.tasks[step.t], step, t, s.tasks[t]);
    hide Effect, TaskInv, WinnerInv, CleanupInv;
  }

  lemma EffectKeepsOther(job: Job, task: Task, step: Step, t: nat, other: Task)
    requires Ready(job, task.at, step) && TaskInv(job, step.t, task) && Agree(job) && t != step.t
             && TaskInv(job, t, other)
    ensures TaskInv(Effect(job, task, step).0, t, other)
  {
    hide TaskInv;
    EffectOnOutcome(job, task, step);
    EffectOnCleanup(job, task, step);
    OtherKept(job, Effect(job, task, step).0, step.t, t, other);
  }

  lemma CleanupKept(s: State, step: Step)
    requires CleanupInv(s) && Enabled(s, step) && TaskInv(s.job, step.t, s.tasks[step.t])
    ensures CleanupInv(After(s, step))
  {
    EffectOnCleanup(s.job, s.tasks[step.t], step);
    hide Effect;
  }

  /** The lock is left, taken for the cleanup that begins, or given back. */
  ghost predicate LockGoes(job: Job, next: Job, t: nat, at: Stage, after: Stage) {
    || (&& next.lock == job.lock && next.cleaned == job.cleaned && next.h.cleaner == job.h.cleaner
        && next.cleanupFailed == job.cleanupFailed
        && (at.CallingBack? && at.phase.Cleanup? ==> after.CallingBack? && after.phase.Cleanup?)
        && (next.h.early == job.h.early))
    || (&& job.lock.None? && !job.cleaned && next.lock == Some(t) && next.cleaned && next.h.cleaner == Some(t)
        && after.CallingBack? && after.phase.Cleanup? && after.todo == job.callbacks.cleanup && !after.running
        && next.h.log == job.h.log && next.callbacks == job.callbacks
        && next.h.early == (job.h.winner.None? || job.h.front < 3))
    || (&& at.CallingBack? && at.phase.Cleanup? && at.todo == [] && !at.running && after.Ended? && job.lock == Some(t)
        && next.lock.None?
        && next.cleaned == job.cleaned && next.h.cleaner == job.h.cleaner && next.h.early == job.h.early
        && next.h.log == job.h.log && next.callbacks == job.callbacks)
  }

  lemma EffectOnCleanup(job: Job, task: Task, step: Step)
    requires Ready(job, task.at, step) && TaskInv(job, step.t, task)
    ensures LockGoes(job, Effect(job, task, step).0, step.t, task.at, Effect(job, task, step).1.at)
  {
    hide Callbacks.Add, Callbacks.With, ReplyOf;
  }

  /** The outcome is left, or given by the call that wins. */
  lemma EffectOnOutcome(job: Job, task: Task, step: Step)
    requires Ready(job, task.at, step)
    ensures var winner := Effect(job, task, step).0.h.winner;
            winner == job.h.winner || (!job.state.Terminal() && winner == Some(step.t))
  {
    hide Callbacks.Add, Callbacks.With, Callbacks.At, ReplyOf;
  }

  lemma OtherKept(job: Job, next: Job, t: nat, u: nat, other: Task)
    requires TaskInv(job, u, other) && t != u
    requires next.h.winner == job.h.winner || (job.h.winner.None? && next.h.winner == Some(t))
    requires || (next.lock == job.lock && next.cleaned == job.cleaned && next.h.cleaner == job.h.cleaner)
             || (job.lock.None? && !job.cleaned && next.lock == Some(t) && next.cleaned && next.h.cleaner == Some(t))
             || (job.lock == Some(t) && next.lock.None? && next.cleaned == job.cleaned
                 && next.h.cleaner == job.h.cleaner)
    requires job.cleaned <==> job.h.cleaner.Some?
    ensures TaskInv(next, u, other)
  {
  }

  /** The log and the callbacks change in these ways only. */
  lemma JobChanges(s: State, step: Step)
    requires Enabled(s, step) && TaskInv(s.job, step.t, s.tasks[step.t])
    ensures var at, job, next := s.tasks[step.t].at, s.job, After(s, step).job;
            && (at.CallingBack? && at.todo != [] && !at.running ==>
                  next == job.(h := job.h.Note(Started(at.phase, at.todo[0]))))
            && (at.CallingBack? && at.todo != [] && at.running ==>
                  next == job.(h := job.h.Note(Finished(at.phase, at.todo[0]))))
            && (!(at.CallingBack? && at.todo != []) ==> next.h.log == job.h.log)
            && (next.callbacks == job.callbacks
                || (!job.cleaned && s.tasks[step.t].call.Register?
                    && next == job.(callbacks := job.callbacks.Add(s.tasks[step.t].call.phase, step.t))))
  {
    hide Callbacks.Add, Callbacks.At, Callbacks.With, ReplyOf;
  }

  lemma CleanupLogKept(s: State, step: Step)
    requires CleanupInv(s) && CleanupLogInv(s) && Enabled(s, step) && TaskInv(s.job, step.t, s.tasks[step.t])
    requires CleanupInv(After(s, step))
    ensures CleanupLogInv(After(s, step))
  {
    var at := s.tasks[step.t].at;
    if at.CallingBack? && at.phase.Cleanup? { HolderKept(s, step); } else { BystanderKept(s, step); }
  }

  lemma HolderKept(s: State, step: Step)
    requires CleanupInv(s) && CleanupLogInv(s) && Enabled(s, step) && TaskInv(s.job, step.t, s.tasks[step.t])
    requires CleanupInv(After(s, step)) && s.tasks[step.t].at.CallingBack? && s.tasks[step.t].at.phase.Cleanup?
    ensures CleanupLogInv(After(s, step))
  {
    var at := s.tasks[step.t].at;
    if at.todo != [] {
      ProgressMade(s.job.h.log, at, s.job.callbacks.cleanup);
      hide Progress, Starts, Finishes;
    } else {
      hide Starts, Finishes;
      assert s.job.callbacks.cleanup == Starts(s.job.h.log, Cleanup) + [];
    }
  }

  lemma BystanderKept(s: State, step: Step)
    requires CleanupInv(s) && CleanupLogInv(s) && Enabled(s, step) && TaskInv(s.job, step.t, s.tasks[step.t])
    requires CleanupInv(After(s, step)) && !(s.tasks[step.t].at.CallingBack? && s.tasks[step.t].at.phase.Cleanup?)
    ensures CleanupLogInv(After(s, step))
  {
    JobChanges(s, step);
    var at, next := s.tasks[step.t].at, After(s, step);
    if at.CallingBack? && at.todo != [] {
      LogGrows(s.job.h.log, Started(at.phase, at.todo[0]), Cleanup);
      LogGrows(s.job.h.log, Finished(at.phase, at.todo[0]), Cleanup);
    }
    EffectOnCleanup(s.job, s.tasks[step.t], step);
    hide Effect, Starts, Finishes, Callbacks.Add, TaskInv, JobState.Terminal;
    if next.job.lock == s.job.lock && next.job.cleaned == s.job.cleaned {
      LogMovesOn(s, next);
    } else {
      assert Progress(next.job.h.log, Cleanup, next.tasks[step.t].at, next.job.callbacks.cleanup);
    }
  }

  lemma LogMovesOn(s: State, next: State)
    requires CleanupInv(s) && CleanupLogInv(s) && CleanupInv(next)
    requires next.job.lock == s.job.lock && next.job.cleaned == s.job.cleaned
    requires Starts(next.job.h.log, Cleanup) == Starts(s.job.h.log, Cleanup)
    requires Finishes(next.job.h.log, Cleanup) == Finishes(s.job.h.log, Cleanup)
    requires s.job.cleaned ==> next.job.callbacks.cleanup == s.job.callbacks.cleanup
    requires s.job.lock.Some? ==> next.tasks[s.job.lock.value].at == s.tasks[s.job.lock.value].at
    ensures CleanupLogInv(next)
  {
    hide Starts, Finishes;
  }

  lemma RegisteredKept(s: State, step: Step)
    requires WinnerInv(s) && RegisteredInv(s) && Enabled(s, step) && TaskInv(s.job, step.t, s.tasks[step.t])
    ensures RegisteredInv(After(s, step))
  {
    JobChanges(s, step);
    var next, task := After(s, step), s.tasks[step.t];
    if step.Do? && task.call.Register? && !s.job.cleaned {
      RegistrationKept(s, step);
    } else {
      assert task.call.Register? ==> next.tasks[step.t].at == Ended(Raises);
      hide Callbacks.Add, Callbacks.At, ReplyOf;
      forall phase, t | t in next.job.callbacks.At(phase)
        ensures t in next.tasks && next.tasks[t] == Task(Register(phase), Ended(Nothing), false, false)
      {
        assert t in s.job.callbacks.At(phase);
      }
    }
  }

  lemma RegistrationKept(s: State, step: Step)
    requires RegisteredInv(s) && Enabled(s, step) && step.Do? && s.tasks[step.t].call.Register? && !s.job.cleaned
    requires TaskInv(s.job, step.t, s.tasks[step.t])
    ensures RegisteredInv(After(s, step))
  {
    var mine := s.tasks[step.t].call.phase;
    RegisteredOneMore(s, step.t, mine, After(s, step));
  }

  lemma RegisteredOneMore(s: State, t: nat, mine: Phase, next: State)
    requires RegisteredInv(s) && t in s.tasks && s.tasks[t].at.Calling?
    requires next.job.callbacks == s.job.callbacks.Add(mine, t)
    requires next.tasks == s.tasks[t := Task(Register(mine), Ended(Nothing), false, false)]
    ensures RegisteredInv(next)
  {
    hide Callbacks.Add, Callbacks.At;
    assert forall phase :: t !in s.job.callbacks.At(phase);
    forall phase, i, j | 0 <= i < j < |next.job.callbacks.At(phase)|
      ensures next.job.callbacks.At(phase)[i] != next.job.callbacks.At(phase)[j]
    {
      assert s.job.callbacks.At(phase)[i] in s.job.callbacks.At(phase);
    }
  }

  // ---- what a winning cancellation runs ----

  lemma PhaseKept(job: Job, next: Job, at: Stage, after: Stage, phase: Phase)
    requires PhaseInv(job, at, phase)
    requires Starts(next.h.log, phase) == Starts(job.h.log, phase)
             && Finishes(next.h.log, phase) == Finishes(job.h.log, phase)
    requires next.h.taken.At(phase) == job.h.taken.At(phase) || Reached(after) < Rank(phase)
    requires at == after || Reached(after) < Rank(phase) || Rank(phase) < Reached(at)
    requires Reached(at) <= Reached(after)
    ensures PhaseInv(next, after, phase)
  {
    hide Starts, Finishes;
  }

  /** The winner runs a callback of its phase. */
  lemma PhaseAdvances(job: Job, next: Job, at: Stage, after: Stage)
    requires at.CallingBack? && at.todo != [] && at.phase != Cleanup && PhaseInv(job, at, at.phase)
    requires if at.running then next == job.(h := job.h.Note(Finished(at.phase, at.todo[0])))
                                && after == CallingBack(at.phase, at.todo[1..], false)
             else next == job.(h := job.h.Note(Started(at.phase, at.todo[0])))
                  && after == at.(running := true)
    ensures PhaseInv(next, after, at.phase)
  {
    hide Starts, Finishes;
    ProgressMade(job.h.log, at, job.h.taken.At(at.phase));
  }

  /** The winner is through with a phase. */
  lemma PhaseEnds(job: Job, next: Job, at: Stage, after: Stage)
    requires at.CallingBack? && at.todo == [] && !at.running && PhaseInv(job, at, at.phase)
             && Reached(after) > Rank(at.phase)
    requires next.h.log == job.h.log && next.h.taken.At(at.phase) == job.h.taken.At(at.phase)
    ensures PhaseInv(next, after, at.phase)
  {
    hide Starts, Finishes;
    assert Starts(job.h.log, at.phase) + [] == Starts(job.h.log, at.phase);
    assert Finishes(job.h.log, at.phase) + [] == Finishes(job.h.log, at.phase);
  }

  /** The winner comes to a phase. */
  lemma PhaseBegins(job: Job, phase: Phase)
    requires Starts(job.h.log, phase) == [] && Finishes(job.h.log, phase) == []
    ensures PhaseInv(job, CallingBack(phase, job.h.taken.At(phase), false), phase)
  {
    assert [] + job.h.taken.At(phase) == job.h.taken.At(phase);
  }

  /** Steps of others, and the winner's steps outside these phases, leave what was run of them. */
  lemma OthersKeepPhase(s: State, step: Step, phase: Phase)
    requires Inv(s) && Enabled(s, step) && phase != Cleanup
    requires !(s.tasks[step.t].at.CallingBack? && s.tasks[step.t].at.phase == phase && s.tasks[step.t].at.todo != [])
    ensures Starts(After(s, step).job.h.log, phase) == Starts(s.job.h.log, phase)
    ensures Finishes(After(s, step).job.h.log, phase) == Finishes(s.job.h.log, phase)
  {
    JobChanges(s, step);
    var at := s.tasks[step.t].at;
    if at.CallingBack? && at.todo != [] {
      LogGrows(s.job.h.log, Started(at.phase, at.todo[0]), phase);
      LogGrows(s.job.h.log, Finished(at.phase, at.todo[0]), phase);
    }
  }

  lemma PhaseStep(s: State, step: Step, phase: Phase)
    requires Inv(s) && Enabled(s, step) && phase != Cleanup && s.job.cancelled
    ensures s.job.h.winner.Some? && s.job.h.winner.value in s.tasks && After(s, step).job.h.winner == s.job.h.winner
    ensures PhaseInv(After(s, step).job, After(s, step).tasks[s.job.h.winner.value].at, phase)
  {
    var w, next := s.job.h.winner.value, After(s, step);
    var at, after := s.tasks[w].at, next.tasks[w].at;
    assert PhaseInv(s.job, at, phase) && TaskInv(s.job, step.t, s.tasks[step.t]);
    EffectOnOutcome(s.job, s.tasks[step.t], step);
    hide Inv, CancelInv, Starts, Finishes, Progress, PhaseInv;
    var mine := s.tasks[step.t].at;
    if mine.CallingBack? && mine.phase == phase && mine.todo != [] {
      assert step.t == w;
      assert !step.Do? && !step.Acquire? && !step.EndPhase?;
      hide Inv, Starts, Finishes, Progress, TaskInv, PhaseInv, WinnerInv;
      PhaseAdvances(s.job, next.job, at, after);
    } else {
      OthersKeepPhase(s, step, phase);
      WinnerMoves(s, step, phase);
    }
  }

  /** How the winning cancellation moves: not, within its phase, on to the next phase, or about the cleanup. */
  ghost predicate Goes(job: Job, next: Job, at: Stage, after: Stage) {
    && KeepsTaken(job, next, Reached(at))
    && (|| at == after
        || (Reached(at) == 3 && Reached(after) == 3)
        || (at.CallingBack? && at.todo != [] && Reached(after) == Reached(at))
        || (&& at.CallingBack? && at.phase != Cleanup && at.todo == [] && !at.running && next.h.log == job.h.log
            && Reached(after) == Rank(at.phase) + 1
            && (after.CallingBack? ==> after == CallingBack(after.phase, next.h.taken.At(after.phase), false))))
  }

  /** What the phases up to `front` took is as it was. */
  ghost predicate KeepsTaken(job: Job, next: Job, front: nat) {
    forall phase: Phase :: phase != Cleanup && Rank(phase) <= front ==> next.h.taken.At(phase) == job.h.taken.At(phase)
  }

  lemma WinnerGoes(s: State, step: Step)
    requires WinnerInv(s) && Enabled(s, step) && s.job.cancelled && TaskInv(s.job, step.t, s.tasks[step.t])
    ensures Goes(s.job, After(s, step).job, s.tasks[s.job.h.winner.value].at,
                 After(s, step).tasks[s.job.h.winner.value].at)
  {
    if step.t == s.job.h.winner.value {
      WinnerActs(s.job, s.tasks[step.t], step);
    } else {
      OtherActs(s.job, s.tasks[step.t], step);
      hide Effect;
    }
  }

  lemma WinnerActs(job: Job, task: Task, step: Step)
    requires Ready(job, task.at, step) && TaskInv(job, step.t, task) && job.h.winner == Some(step.t) && !step.Do?
    ensures Goes(job, Effect(job, task, step).0, task.at, Effect(job, task, step).1.at)
  {
    hide Callbacks.Add, ReplyOf, Begin;
    if step.EndPhase? {
      PassOnGoes(job, task);
      hide PassOn, Goes, Claim, StartOne, EndOne;
    } else {
      hide PassOn;
    }
  }

  lemma PassOnGoes(job: Job, task: Task)
    requires task.at.CallingBack? && !task.at.running && task.at.todo == []
    ensures Goes(job, PassOn(job, task, task.at.phase).0, task.at, PassOn(job, task, task.at.phase).1.at)
  {
    PassOnKeepsTaken(job, task);
    hide ReplyOf, Callbacks.At, KeepsTaken;
  }

  lemma PassOnKeepsTaken(job: Job, task: Task)
    requires task.at.CallingBack?
    ensures KeepsTaken(job, PassOn(job, task, task.at.phase).0, Reached(task.at))
  {
    hide ReplyOf, Callbacks.At;
  }

  lemma OtherActs(job: Job, task: Task, step: Step)
    requires Ready(job, task.at, step) && TaskInv(job, step.t, task) && job.h.winner != Some(step.t)
             && job.state.Terminal()
    ensures forall phase: Phase :: phase != Cleanup ==>
              Effect(job, task, step).0.h.taken.At(phase) == job.h.taken.At(phase)
  {
    hide Callbacks.Add, ReplyOf, Callbacks.At;
  }

  lemma PhaseMoves(job: Job, next: Job, at: Stage, after: Stage, phase: Phase)
    requires PhaseInv(job, at, phase) && Goes(job, next, at, after) && phase != Cleanup
    requires at == after || !(at.CallingBack? && at.phase == phase && at.todo != [])
    requires Starts(next.h.log, phase) == Starts(job.h.log, phase)
             && Finishes(next.h.log, phase) == Finishes(job.h.log, phase)
    ensures PhaseInv(next, after, phase)
  {
    hide Starts, Finishes, Callbacks.At, PhaseInv, Progress;
    assert at.CallingBack? && Rank(at.phase) == Rank(phase) ==> at.phase == phase;
    if at == after || Reached(at) == Reached(after) {
      PhaseKept(job, next, at, after, phase);
    } else if at.phase == phase {
      PhaseEnds(job, next, at, after);
    } else if Reached(after) == Rank(phase) {
      AtRank(job, at, phase);
      SameRank(after, phase);
      PhaseBegins(next, phase);
    } else {
      PhaseKept(job, next, at, after, phase);
    }
  }

  lemma WinnerMoves(s: State, step: Step, phase: Phase)
    requires Inv(s) && Enabled(s, step) && phase != Cleanup && s.job.cancelled
    requires !(s.tasks[step.t].at.CallingBack? && s.tasks[step.t].at.phase == phase && s.tasks[step.t].at.todo != [])
    requires Starts(After(s, step).job.h.log, phase) == Starts(s.job.h.log, phase)
    requires Finishes(After(s, step).job.h.log, phase) == Finishes(s.job.h.log, phase)
    ensures s.job.h.winner.Some? && s.job.h.winner.value in s.tasks
    ensures PhaseInv(After(s, step).job, After(s, step).tasks[s.job.h.winner.value].at, phase)
  {
    var w := s.job.h.winner.value;
    assert PhaseInv(s.job, s.tasks[w].at, phase) && TaskInv(s.job, step.t, s.tasks[step.t]);
    WinnerGoes(s, step);
    hide Inv, WinnerInv, TaskInv, Starts, Finishes, Callbacks.At, PhaseInv, Goes, Effect;
    PhaseMoves(s.job, After(s, step).job, s.tasks[w].at, After(s, step).tasks[w].at, phase);
  }

  lemma AtRank(job: Job, at: Stage, phase: Phase)
    requires PhaseInv(job, at, phase) && Reached(at) < Rank(phase)
    ensures Starts(job.h.log, phase) == [] && Finishes(job.h.log, phase) == []
  {
  }

  lemma SameRank(at: Stage, phase: Phase)
    requires Reached(at) == Rank(phase) && phase != Cleanup
    ensures at.CallingBack? && at.phase == phase
  {
  }

  lemma CancelKept(s: State, step: Step)
    requires Inv(s) && Enabled(s, step) && WinnerInv(After(s, step))
    ensures CancelInv(After(s, step))
  {
    forall phase: Phase | phase != Cleanup
      ensures var next := After(s, step);
              if next.job.cancelled then PhaseInv(next.job, next.tasks[next.job.h.winner.value].at, phase)
              else Starts(next.job.h.log, phase) == [] && Finishes(next.job.h.log, phase) == []
    {
      if s.job.cancelled { PhaseStep(s, step, phase); } else { NotCancelled(s, step, phase); }
    }
  }

  lemma CancelWins(s: State, step: Step)
    requires Enabled(s, step) && TaskInv(s.job, step.t, s.tasks[step.t]) && !s.job.cancelled
             && After(s, step).job.cancelled
    ensures var next := After(s, step);
            && next.job.h.winner == Some(step.t)
            && next.tasks[step.t].at == CallingBack(Abort, next.job.h.taken.At(Abort), false)
  {
  }

  lemma NotCancelled(s: State, step: Step, phase: Phase)
    requires Inv(s) && Enabled(s, step) && WinnerInv(After(s, step)) && phase != Cleanup && !s.job.cancelled
    ensures var next := After(s, step);
            if next.job.cancelled then PhaseInv(next.job, next.tasks[next.job.h.winner.value].at, phase)
            else Starts(next.job.h.log, phase) == [] && Finishes(next.job.h.log, phase) == []
  {
    var next := After(s, step);
    assert TaskInv(s.job, step.t, s.tasks[step.t]) && CancelInv(s);
    OnlyWinnersLogPhases(s, step, phase);
    OthersKeepPhase(s, step, phase);
    assert Starts(s.job.h.log, phase) == [] && Finishes(s.job.h.log, phase) == [];
    hide Inv, WinnerInv, CancelInv, TaskInv, Starts, Finishes, Effect, Callbacks.At;
    if next.job.cancelled {
      CancelWins(s, step);
      if phase == Abort { PhaseBegins(next.job, Abort); }
    }
  }

  lemma OnlyWinnersLogPhases(s: State, step: Step, phase: Phase)
    requires Inv(s) && Enabled(s, step) && phase != Cleanup && !s.job.cancelled
    ensures !(s.tasks[step.t].at.CallingBack? && s.tasks[step.t].at.phase == phase && s.tasks[step.t].at.todo != [])
  {
    assert TaskInv(s.job, step.t, s.tasks[step.t]);
  }

  lemma TakenKept(s: State, step: Step)
    requires Inv(s) && Enabled(s, step)
    ensures TakenInv(After(s, step).job)
  {
    JobChanges(s, step);
    EffectOnTaken(s.job, s.tasks[step.t], step);
    hide Starts, Finishes, Effect, WinnerInv, TaskInv, Inv;
  }

  ghost predicate Takes(job: Job, next: Job, phase: Phase) {
    next.callbacks == job.callbacks && next.h.taken == job.h.taken.With(phase, job.callbacks.At(phase))
  }

  /** A step leaves what was taken, or takes the callbacks of one phase. */
  lemma EffectOnTaken(job: Job, task: Task, step: Step)
    requires Ready(job, task.at, step)
    ensures var next := Effect(job, task, step).0;
            next.h.taken == job.h.taken || Takes(job, next, Abort) || Takes(job, next, Terminate)
              || Takes(job, next, PeerInterrupt)
            || Takes(job, next, Cleanup)
  {
    hide Callbacks.Add, Callbacks.With, ReplyOf;
    if step.Do? {
      hide PassOn, Claim, StartOne, EndOne, Callbacks.At;
    } else {
      hide Begin, Callbacks.At;
      if step.EndPhase? { hide Claim, StartOne, EndOne; } else { hide PassOn; }
    }
  }

  // ---- the order of the phases ----

  ghost predicate InOrder(phases: seq<Phase>) {
    forall i, j :: 0 <= i <= j < |phases| ==> Rank(phases[i]) <= Rank(phases[j])
  }

  function PhasesOf(log: seq<Event>): (phases: seq<Phase>)
    ensures |phases| == |log| && forall i :: 0 <= i < |log| ==> phases[i] == log[i].phase
  {
    seq(|log|, i requires 0 <= i < |log| => log[i].phase)
  }

  /** In order, and up to a phase. */
  ghost predicate Upto(phases: seq<Phase>, front: nat) {
    InOrder(phases) && forall i :: 0 <= i < |phases| ==> Rank(phases[i]) <= front
  }

  ghost predicate AllCleanup(phases: seq<Phase>) {
    forall i :: 0 <= i < |phases| ==> phases[i] == Cleanup
  }

  /** Unless the cleanup began early, what has happened is in order and no further than the winner. */
  ghost predicate Tidy(phases: seq<Phase>, job: Job) {
    && (!job.h.early && job.h.winner.None? ==> phases == [])
    && (!job.h.early && job.h.winner.Some? ==> Upto(phases, job.h.front))
    && (!job.cancelled ==> AllCleanup(phases))
  }

  /** If the cleanup began early, a cancellation that is through with its phases has put some behind that beginning. */
  ghost predicate OrderInv(job: Job) {
    && Tidy(job.h.trace, job) && Tidy(PhasesOf(job.h.log), job)
    && job.h.front <= 3 && (!job.h.early && job.cleaned ==> job.h.winner.Some? && job.h.front == 3)
    && (job.h.early ==>
          job.cleaned && Cleanup in job.h.trace && (job.cancelled && job.h.front == 3 ==> !InOrder(job.h.trace)))
  }

  /** One more phase may be noted: the winner's, or the cleanup. */
  predicate MayNote(job: Job, phase: Phase) {
    if phase == Cleanup then job.h.early || (job.h.winner.Some? && job.h.front == 3)
    else job.cancelled && job.h.winner.Some? && job.h.front == Rank(phase)
  }

  lemma TidyOneMore(phases: seq<Phase>, job: Job, phase: Phase)
    requires Tidy(phases, job) && MayNote(job, phase)
    ensures Tidy(phases + [phase], job)
  {
  }

  lemma UptoLater(phases: seq<Phase>, job: Job, next: Job)
    requires Tidy(phases, job) && job.h.front <= next.h.front && next.h.early == job.h.early
             && next.cancelled == job.cancelled
    requires next.h.winner == job.h.winner
    ensures Tidy(phases, next)
  {
  }

  lemma OutOfOrderStays(phases: seq<Phase>, phase: Phase)
    requires !InOrder(phases) || (Cleanup in phases && phase != Cleanup)
    ensures !InOrder(phases + [phase])
  {
    var more := phases + [phase];
    if InOrder(phases) {
      var i :| 0 <= i < |phases| && phases[i] == Cleanup;
      assert more[i] == Cleanup && more[|phases|] == phase;
    } else {
      var i, j :| 0 <= i <= j < |phases| && Rank(phases[i]) > Rank(phases[j]);
      assert more[i] == phases[i] && more[j] == phases[j];
    }
  }

  lemma NotedInOrder(job: Job, e: Event)
    requires OrderInv(job) && MayNote(job, e.phase)
    ensures OrderInv(job.(h := job.h.Note(e)))
  {
    var next := job.(h := job.h.Note(e));
    TidyOneMore(job.h.trace, job, e.phase);
    TidyOneMore(PhasesOf(job.h.log), job, e.phase);
    assert PhasesOf(next.h.log) == PhasesOf(job.h.log) + [e.phase];
    if !InOrder(job.h.trace) { OutOfOrderStays(job.h.trace, e.phase); }
  }

  lemma PassedInOrder(job: Job, task: Task)
    requires OrderInv(job) && task.at.CallingBack? && MayNote(job, task.at.phase)
    ensures OrderInv(PassOn(job, task, task.at.phase).0)
  {
    var next, phase := PassOn(job, task, task.at.phase).0, task.at.phase;
    TidyOneMore(job.h.trace, job, phase);
    if job.h.early && (!InOrder(job.h.trace) || phase != Cleanup) { OutOfOrderStays(job.h.trace, phase); }
    hide Tidy, InOrder, ReplyOf, Callbacks.At, Callbacks.With;
    if phase == Cleanup {
      UptoLater(next.h.trace, job, next);
      UptoLater(PhasesOf(job.h.log), job, next);
    } else {
      var over := job.(h := job.h.EndPhase(phase));
      UptoLater(over.h.trace, job, over);
      UptoLater(PhasesOf(job.h.log), job, over);
      if phase == Abort { TidyOneMore(over.h.trace, over, Terminate); }
      if phase == Terminate { TidyOneMore(over.h.trace, over, PeerInterrupt); }
      UptoLater(next.h.trace, over, next);
      UptoLater(PhasesOf(job.h.log), over, next);
    }
  }

  lemma ClaimedInOrder(job: Job, t: nat, task: Task)
    requires OrderInv(job) && (job.cancelled ==> job.h.winner.Some?)
    ensures OrderInv(Claim(job, t, task).0)
  {
    if !job.cleaned {
      var claimed := job.(lock := Some(t), cleaned := true, h := job.h.Claim(t));
      assert Tidy(job.h.trace, claimed) && Tidy(PhasesOf(job.h.log), claimed);
      TidyOneMore(job.h.trace, claimed, Cleanup);
      hide InOrder, Callbacks.At, Callbacks.With;
    }
  }

  lemma BegunInOrder(job: Job, t: nat, call: Call)
    requires OrderInv(job) && (job.state.Terminal() <==> job.h.winner.Some?) && (job.cancelled ==> job.state.Cancelled?)
    ensures OrderInv(Begin(job, t, call).0)
  {
    hide Callbacks.At, Callbacks.With, Callbacks.Add;
    var next := Begin(job, t, call).0;
    assert next.h.log == job.h.log;
  }

  lemma EffectInOrder(job: Job, task: Task, step: Step)
    requires OrderInv(job) && Ready(job, task.at, step) && TaskInv(job, step.t, task) && Agree(job)
    requires (job.cancelled ==> job.state.Cancelled?)
             && (job.h.winner == Some(step.t) ==> job.h.front == Reached(task.at))
    requires job.h.winner == Some(step.t) && task.call.Cancel? ==> job.cancelled
    ensures OrderInv(Effect(job, task, step).0)
  {
    if task.at.CallingBack? { assert MayNote(job, task.at.phase); }
    hide OrderInv;
    match step {
      case Do(t) => BegunInOrder(job, t, task.call);
      case StartCallback(_) => NotedInOrder(job, Started(task.at.phase, task.at.todo[0]));
      case EndCallback(_, _) => NotedInOrder(job, Finished(task.at.phase, task.at.todo[0]));
      case EndPhase(_) => PassedInOrder(job, task);
      case Acquire(t) => ClaimedInOrder(job, t, task);
    }
  }

  // ---- every step, and every run, keeps the invariant ----

  lemma StepKeepsInv(s: State, step: Step)
    requires Inv(s) && Enabled(s, step)
    ensures Inv(After(s, step))
  {
    WinnerKept(s, step);
    CancelKept(s, step);
    TakenKept(s, step);
    EffectInOrder(s.job, s.tasks[step.t], step);
    hide WinnerInv, OrderInv, CleanupInv, CleanupLogInv, RegisteredInv, CancelInv, TakenInv, TaskInv, Effect;
    var next := After(s, step);
    forall t | t in next.tasks ensures TaskInv(next.job, t, next.tasks[t]) {
      if t == step.t { OwnTaskKept(s, step); } else { OtherTaskKept(s, step, t); }
    }
    CleanupKept(s, step);
    CleanupLogKept(s, step);
    RegisteredKept(s, step);
  }

  lemma {:induction false} RunKeepsInv(s: State, steps: seq<Step>)
    requires Inv(s) && Run(s, steps)
    ensures Inv(Final(s, steps)) && Final(s, steps).tasks.Keys == s.tasks.Keys
    decreases |steps|
  {
    hide Inv;
    if steps != [] {
      StepKeepsInv(s, steps[0]);
      RunKeepsInv(After(s, steps[0]), steps[1..]);
    }
  }

  /** A call of succeed, fail or cancel that reports success. */
  predicate Won(task: Task) {
    && task.at.Ended?
    && ((task.call.Cancel? && task.at.reply == Answer(true))
        || ((task.call.Succeed? || task.call.Fail?) && task.at.reply == Nothing))
  }

  /**
   * At most one of succeed, fail and cancel wins; result, error and the cancellation event are there only with the
   * matching terminal state, and hold what the winner gave. A winner that has ended has had the cleanup claimed.
   */
  lemma OneWinner(s: State, steps: seq<Step>, t: nat, u: nat)
    requires Init(s) && Run(s, steps) && t in Final(s, steps).tasks && u in Final(s, steps).tasks
    ensures var now := Final(s, steps);
            && (Won(now.tasks[t]) && Won(now.tasks[u]) ==> t == u)
            && (Won(now.tasks[t]) ==> now.job.h.winner == Some(t) && now.job.cleaned)
    ensures WinnerInv(Final(s, steps))
  {
    InitInv(s);
    RunKeepsInv(s, steps);
    var now := Final(s, steps);
    assert TaskInv(now.job, t, now.tasks[t]) && TaskInv(now.job, u, now.tasks[u]);
  }

  /** A terminal state is final, and so are the winner, the result and the error. */
  lemma {:induction false} TerminalIsFinal(s: State, steps: seq<Step>)
    requires Inv(s) && Run(s, steps) && s.job.state.Terminal()
    ensures SameEnd(s.job, Final(s, steps).job)
    decreases |steps|
  {
    if steps != [] {
      StepKeepsInv(s, steps[0]);
      TerminalStays(s.job, s.tasks[steps[0].t], steps[0]);
      TerminalIsFinal(After(s, steps[0]), steps[1..]);
    }
  }

  ghost predicate SameEnd(job: Job, later: Job) {
    && later.state == job.state && later.h.winner == job.h.winner && later.result == job.result
    && later.error == job.error && later.cancelled == job.cancelled
  }

  lemma TerminalStays(job: Job, task: Task, step: Step)
    requires Ready(job, task.at, step) && job.state.Terminal()
    ensures SameEnd(job, Effect(job, task, step).0)
  {
    hide ReplyOf, Callbacks.At, Callbacks.With, Callbacks.Add;
  }

  ghost predicate NoRepeats(xs: seq<nat>) {
    forall i, j :: 0 <= i < j < |xs| ==> xs[i] != xs[j]
  }

  /**
   * Whatever fails, once the cleanup is over every cleanup callback whose registration succeeded has been started
   * and finished exactly once, in order of registration; and no other was started.
   */
  lemma CleanupRunsEachOnce(s: State, steps: seq<Step>)
    requires Init(s) && Run(s, steps) && Final(s, steps).job.cleaned && Final(s, steps).job.lock.None?
    ensures var now := Final(s, steps); var ran := Starts(now.job.h.log, Cleanup);
            && ran == Finishes(now.job.h.log, Cleanup) && NoRepeats(ran)
            && forall t <- now.tasks :: t in ran <==>
                 now.tasks[t].call == Register(Cleanup) && now.tasks[t].at == Ended(Nothing)
  {
    InitInv(s);
    RunKeepsInv(s, steps);
    hide Starts, Finishes, WinnerInv, TaskInv, CancelInv, TakenInv, OrderInv;
    var now := Final(s, steps);
    assert now.job.callbacks.At(Cleanup) == now.job.callbacks.cleanup;
  }

  /** Never, not even while it is under way, has the cleanup started a callback twice. */
  lemma CleanupNeverRepeats(s: State, steps: seq<Step>)
    requires Init(s) && Run(s, steps)
    ensures NoRepeats(Starts(Final(s, steps).job.h.log, Cleanup))
  {
    InitInv(s);
    RunKeepsInv(s, steps);
    hide Starts, Finishes, WinnerInv, TaskInv, CancelInv, TakenInv, OrderInv;
    var now := Final(s, steps);
    assert now.job.callbacks.At(Cleanup) == now.job.callbacks.cleanup;
    var ran := Starts(now.job.h.log, Cleanup);
    assert ran <= now.job.callbacks.cleanup;
    forall i, j | 0 <= i < j < |ran| ensures ran[i] != ran[j] {
      assert ran[i] == now.job.callbacks.cleanup[i] && ran[j] == now.job.callbacks.cleanup[j];
    }
  }

  /** `cleanup` answers true to at most one caller, and to none if a terminal transition ran it. */
  lemma CleanupTrueOnce(s: State, steps: seq<Step>, t: nat, u: nat)
    requires Init(s) && Run(s, steps) && t in Final(s, steps).tasks && u in Final(s, steps).tasks
    requires var now := Final(s, steps).tasks;
             && now[t].call.CallCleanup? && now[t].at == Ended(Answer(true))
             && now[u].call.CallCleanup? && now[u].at == Ended(Answer(true))
    ensures t == u && Final(s, steps).job.h.cleaner == Some(t)
  {
    InitInv(s);
    RunKeepsInv(s, steps);
    var now := Final(s, steps);
    assert TaskInv(now.job, t, now.tasks[t]) && TaskInv(now.job, u, now.tasks[u]);
  }

  // ---- what each phase of a cancellation runs ----

  /** With this step the winning cancellation comes to a phase. */
  ghost predicate Begins(s: State, step: Step, phase: Phase)
    requires Enabled(s, step)
  {
    && phase != Cleanup && After(s, step).job.cancelled && After(s, step).job.h.front == Rank(phase)
    && !(s.job.cancelled && s.job.h.front >= Rank(phase))
  }

  /** The abort phase begins as the cancellation wins, at its call. */
  lemma AbortBegins(s: State, step: Step)
    requires Inv(s) && Enabled(s, step)
    ensures Begins(s, step, Abort) <==> step.Do? && s.tasks[step.t].call.Cancel? && !s.job.state.Terminal()
  {
    hide CleanupLogInv, RegisteredInv, CancelInv, TakenInv, OrderInv, TaskInv;
    if !step.Do? { LeavesOutcome(s, step); }
  }

  lemma BeginTakes(s: State, step: Step, phase: Phase)
    requires Inv(s) && Enabled(s, step) && Begins(s, step, phase)
    ensures After(s, step).job.h.taken.At(phase) == s.job.callbacks.At(phase)
  {
    assert TaskInv(s.job, step.t, s.tasks[step.t]);
    EffectTakes(s.job, s.tasks[step.t], step, phase);
    hide Inv, WinnerInv, TaskInv, Effect;
  }

  lemma EffectTakes(job: Job, task: Task, step: Step, phase: Phase)
    requires Ready(job, task.at, step) && phase != Cleanup && !(job.cancelled && job.h.front >= Rank(phase))
    requires var next := Effect(job, task, step).0; next.cancelled && next.h.front == Rank(phase)
    ensures Effect(job, task, step).0.h.taken.At(phase) == job.callbacks.At(phase)
  {
    hide Callbacks.At, Callbacks.Add, ReplyOf;
  }

  /** A phase that the cancellation has come to keeps what it took. */
  lemma StepKeepsTaken(s: State, step: Step, phase: Phase)
    requires Inv(s) && Enabled(s, step) && phase != Cleanup && s.job.cancelled && s.job.h.front >= Rank(phase)
    ensures var next := After(s, step).job;
            next.cancelled && next.h.front >= s.job.h.front && next.h.taken.At(phase) == s.job.h.taken.At(phase)
  {
    assert TaskInv(s.job, step.t, s.tasks[step.t]);
    WinnerGoes(s, step);
    TerminalStays(s.job, s.tasks[step.t], step);
    if !step.Do? { LeavesOutcome(s, step); }
    hide CleanupLogInv, RegisteredInv, CancelInv, TakenInv, OrderInv, TaskInv;
  }

  lemma {:induction false} RunKeepsTaken(s: State, steps: seq<Step>, phase: Phase)
    requires Inv(s) && Run(s, steps) && phase != Cleanup && s.job.cancelled && s.job.h.front >= Rank(phase)
    ensures var last := Final(s, steps).job;
            last.cancelled && last.h.front >= Rank(phase) && last.h.taken.At(phase) == s.job.h.taken.At(phase)
    decreases |steps|
  {
    if steps != [] {
      hide Inv;
      StepKeepsInv(s, steps[0]);
      StepKeepsTaken(s, steps[0], phase);
      RunKeepsTaken(After(s, steps[0]), steps[1..], phase);
    }
  }

  lemma {:induction false} RunInTwo(s: State, steps: seq<Step>, k: nat)
    requires Run(s, steps) && k < |steps|
    ensures Run(s, steps[..k]) && Enabled(Final(s, steps[..k]), steps[k])
    ensures var at := After(Final(s, steps[..k]), steps[k]);
            Run(at, steps[k + 1..]) && Final(at, steps[k + 1..]) == Final(s, steps)
    decreases k
  {
    if k > 0 {
      RunInTwo(After(s, steps[0]), steps[1..], k - 1);
      assert steps[1..][..k - 1] == steps[..k][1..] && steps[1..][k - 1 + 1..] == steps[k + 1..];
    }
  }

  /** A cancellation that has come to a phase has come to it at some step. */
  lemma {:induction false} PhaseBegan(s: State, steps: seq<Step>, phase: Phase)
    requires Inv(s) && Run(s, steps) && phase != Cleanup && !(s.job.cancelled && s.job.h.front >= Rank(phase))
    requires Final(s, steps).job.cancelled && Final(s, steps).job.h.front >= Rank(phase)
    ensures exists k: nat :: k < |steps| && BeginsAt(s, steps, k, phase)
    decreases |steps|
  {
    var next := After(s, steps[0]);
    StepKeepsInv(s, steps[0]);
    if next.job.cancelled && next.job.h.front >= Rank(phase) {
      OnePhaseAtATime(s, steps[0], phase);
      hide Inv, Effect, After, Begins;
      assert Final(s, steps[..0]) == s && BeginsAt(s, steps, 0, phase);
    } else {
      hide Inv, Effect, Begins;
      PhaseBegan(next, steps[1..], phase);
      var k: nat :| k < |steps[1..]| && BeginsAt(next, steps[1..], k, phase);
      BeginsLater(s, steps, k, phase);
    }
  }

  lemma BeginsLater(s: State, steps: seq<Step>, k: nat, phase: Phase)
    requires Run(s, steps) && k + 1 < |steps| && BeginsAt(After(s, steps[0]), steps[1..], k, phase)
    ensures BeginsAt(s, steps, k + 1, phase)
  {
    hide After, Begins;
    assert steps[1..][..k] == steps[..k + 1][1..] && steps[1..][k] == steps[k + 1];
  }

  /** The cancellation comes to a phase with a step of a run. */
  ghost predicate BeginsAt(s: State, steps: seq<Step>, k: nat, phase: Phase)
    requires k < |steps|
  {
    Run(s, steps[..k]) && Enabled(Final(s, steps[..k]), steps[k]) && Begins(Final(s, steps[..k]), steps[k], phase)
  }

  lemma OnePhaseAtATime(s: State, step: Step, phase: Phase)
    requires Inv(s) && Enabled(s, step) && phase != Cleanup && !(s.job.cancelled && s.job.h.front >= Rank(phase))
    requires After(s, step).job.cancelled && After(s, step).job.h.front >= Rank(phase)
    ensures Begins(s, step, phase)
  {
    assert TaskInv(s.job, step.t, s.tasks[step.t]);
    hide CleanupLogInv, RegisteredInv, CancelInv, TakenInv, OrderInv;
    if !step.Do? { LeavesOutcome(s, step); }
  }

  /**
   * A winning cancellation runs of each phase what is registered when it comes to that phase, and nothing else: it
   * starts those callbacks in order, each once, and has finished them all when it leaves the phase.
   */
  lemma PhaseRunsExactly(s: State, steps: seq<Step>, k: nat, phase: Phase)
    requires Init(s) && Run(s, steps) && k < |steps| && BeginsAt(s, steps, k, phase)
    ensures var job, listed := Final(s, steps).job, Final(s, steps[..k]).job.callbacks.At(phase);
            && NoRepeats(listed) && Starts(job.h.log, phase) <= listed && Finishes(job.h.log, phase) <= listed
            && (job.h.front > Rank(phase) ==>
                Starts(job.h.log, phase) == listed && Finishes(job.h.log, phase) == listed)
  {
    InitInv(s);
    RunInTwo(s, steps, k);
    var before := Final(s, steps[..k]);
    RunKeepsInv(s, steps[..k]);
    StepKeepsInv(before, steps[k]);
    BeginTakes(before, steps[k], phase);
    RunKeepsTaken(After(before, steps[k]), steps[k + 1..], phase);
    RunKeepsInv(After(before, steps[k]), steps[k + 1..]);
    CancelledLog(Final(s, steps), phase);
    assert RegisteredInv(before);
    hide Inv, Starts, Finishes, Run, Final, Begins, After, Callbacks.At;
  }

  lemma CancelledLog(s: State, phase: Phase)
    requires Inv(s) && s.job.cancelled && phase != Cleanup && s.job.h.front >= Rank(phase)
    ensures var all := s.job.h.taken.At(phase);
            && Starts(s.job.h.log, phase) <= all && Finishes(s.job.h.log, phase) <= all
            && (s.job.h.front > Rank(phase) ==>
                Starts(s.job.h.log, phase) == all && Finishes(s.job.h.log, phase) == all)
  {
    assert PhaseInv(s.job, s.tasks[s.job.h.winner.value].at, phase);
    hide Starts, Finishes, CleanupLogInv, RegisteredInv, OrderInv, TakenInv, TaskInv, CleanupInv;
  }

  /**
   * An accepted callback of a phase that a cancellation has left was run if and only if its registration was over
   * before the cancellation came to that phase: for an abort callback, before the cancellation won.
   */
  lemma RunsIffRegisteredInTime(s: State, steps: seq<Step>, k: nat, phase: Phase, t: nat)
    requires Init(s) && Run(s, steps) && k < |steps| && BeginsAt(s, steps, k, phase)
             && Final(s, steps).job.h.front > Rank(phase)
    requires t in Final(s, steps).tasks && Final(s, steps).tasks[t].call == Register(phase)
    ensures t in Final(s, steps[..k]).tasks
    ensures var in_time := Final(s, steps[..k]).tasks[t].at == Ended(Nothing);
            && (t in Starts(Final(s, steps).job.h.log, phase) <==> in_time)
            && (t in Finishes(Final(s, steps).job.h.log, phase) <==> in_time)
  {
    PhaseRunsExactly(s, steps, k, phase);
    InitInv(s);
    RunKeepsInv(s, steps);
    RunKeepsInv(s, steps[..k]);
    RunKeepsCalls(s, steps);
    RunKeepsCalls(s, steps[..k]);
    assert RegisteredInv(Final(s, steps[..k]));
    hide Inv, Run, Final, Callbacks.At, Starts, Finishes, Init, BeginsAt;
  }

  lemma {:induction false} RunKeepsCalls(s: State, steps: seq<Step>)
    requires Run(s, steps)
    ensures Final(s, steps).tasks.Keys == s.tasks.Keys
    ensures forall t <- s.tasks :: Final(s, steps).tasks[t].call == s.tasks[t].call
    decreases |steps|
  {
    if steps != [] {
      EffectKeepsCall(s.job, s.tasks[steps[0].t], steps[0]);
      hide Effect;
      RunKeepsCalls(After(s, steps[0]), steps[1..]);
    }
  }

  lemma EffectKeepsCall(job: Job, task: Task, step: Step)
    requires Ready(job, task.at, step)
    ensures Effect(job, task, step).1.call == task.call
  {
    hide Begin, Callbacks.At, Callbacks.With, ReplyOf;
  }

  // ---- the order of the phases, over every run ----

  /**
   * The phases of a winning cancellation and the cleanup come in order, whole callbacks and all, if and only if the
   * cleanup did not begin early; without a cancellation only cleanup callbacks run.
   */
  lemma CancelBeforeCleanup(s: State, steps: seq<Step>)
    requires Init(s) && Run(s, steps)
    ensures var job := Final(s, steps).job;
            && (!job.h.early ==> InOrder(job.h.trace) && InOrder(PhasesOf(job.h.log)))
            && (!job.h.early && job.cleaned ==> job.h.front == 3)
            && (job.cancelled && job.h.front == 3 ==> (InOrder(job.h.trace) <==> !job.h.early))
            && (!job.cancelled ==> AllCleanup(PhasesOf(job.h.log)))
  {
    InitInv(s);
    RunKeepsInv(s, steps);
    hide Starts, Finishes, RegisteredInv, CleanupLogInv, Run, Final, CancelInv, TaskInv, WinnerInv, CleanupInv;
  }

  /**
   * The cleanup begins early exactly if it is claimed before there is a winner, or before the winner has come to it.
   */
  lemma EarlyExactly(s: State, step: Step)
    requires Inv(s) && Enabled(s, step)
    ensures After(s, step).job.h.early <==>
              s.job.h.early || (step.Acquire? && !s.job.cleaned && (s.job.h.winner.None? || s.job.h.front < 3))
  {
    EffectOnEarly(s.job, s.tasks[step.t], step);
    hide CleanupLogInv, RegisteredInv, CancelInv, TakenInv, WinnerInv, Effect, Tidy, InOrder;
  }

  lemma EffectOnEarly(job: Job, task: Task, step: Step)
    requires Ready(job, task.at, step) && (job.h.early ==> job.cleaned)
    ensures Effect(job, task, step).0.h.early <==>
              job.h.early || (step.Acquire? && !job.cleaned && (job.h.winner.None? || job.h.front < 3))
  {
    hide Callbacks.At, Callbacks.With, Callbacks.Add, ReplyOf;
  }

  /**
   * A terminal transition that claims the cleanup itself does not claim it early; so neither do runs without cleanup
   * calls.
   */
  lemma {:induction false} WinnerIsNotEarly(s: State, steps: seq<Step>)
    requires Inv(s) && (s.job.h.early ==> s.job.h.cleaner.Some? && s.job.h.cleaner != s.job.h.winner) && Run(s, steps)
    ensures var h := Final(s, steps).job.h; h.early ==> h.cleaner.Some? && h.cleaner != h.winner
    decreases |steps|
  {
    if steps != [] {
      WinnerClaimsLate(s, steps[0]);
      StepKeepsInv(s, steps[0]);
      hide Inv;
      WinnerIsNotEarly(After(s, steps[0]), steps[1..]);
    }
  }

  lemma WinnerClaimsLate(s: State, step: Step)
    requires Inv(s) && Enabled(s, step)
             && (s.job.h.early ==> s.job.h.cleaner.Some? && s.job.h.cleaner != s.job.h.winner)
    ensures var h := After(s, step).job.h; h.early ==> h.cleaner.Some? && h.cleaner != h.winner
  {
    assert TaskInv(s.job, step.t, s.tasks[step.t]);
    EarlyExactly(s, step);
    EffectOnCleanup(s.job, s.tasks[step.t], step);
    EffectOnOutcome(s.job, s.tasks[step.t], step);
    hide CleanupLogInv, RegisteredInv, CancelInv, TakenInv, OrderInv, Effect;
  }

  /** If cleanup is reached only through terminal transitions, it does not begin early. */
  lemma NoCleanupCallsNotEarly(s: State, steps: seq<Step>)
    requires Init(s) && Run(s, steps) && forall t <- s.tasks :: !s.tasks[t].call.CallCleanup?
    ensures !Final(s, steps).job.h.early
  {
    InitInv(s);
    RunKeepsInv(s, steps);
    RunKeepsCalls(s, steps);
    WinnerIsNotEarly(s, steps);
    if Final(s, steps).job.h.cleaner.Some? { CleanerIsKnown(Final(s, steps)); }
    hide Run, Final, Init, Inv;
  }

  lemma CleanerIsKnown(s: State)
    requires Inv(s) && s.job.h.cleaner.Some?
    ensures s.job.h.cleaner.value in s.tasks
    ensures s.tasks[s.job.h.cleaner.value].call.CallCleanup? || s.job.h.winner == s.job.h.cleaner
  {
    assert TaskInv(s.job, s.job.h.cleaner.value, s.tasks[s.job.h.cleaner.value]);
  }

  // ---- runs that show what can happen ----

  ghost predicate Leads(s: State, steps: seq<Step>, last: State) {
    Run(s, steps) && Final(s, steps) == last
  }

  lemma OneStep(s: State, step: Step, next: State, steps: seq<Step>, last: State)
    requires Enabled(s, step) && After(s, step) == next && Leads(next, steps, last)
    ensures Leads(s, [step] + steps, last)
  {
    assert ([step] + steps)[1..] == steps;
  }

  lemma NoSteps(s: State)
    ensures Leads(s, [], s)
  {
  }

  const REGISTERS_CLEANUP := Task(Register(Cleanup), Ended(Nothing), false, false)
  const REGISTERS_ABORT := Task(Register(Abort), Ended(Nothing), false, false)
  const CLEANS := Task(CallCleanup, Calling, false, false)
  const CANCELS := Task(Cancel, Calling, false, false)

  /** A job with a cleanup callback 0 and an abort callback 1, before a cleanup call 2 and a cancellation 3. */
  const READY_JOB := NEW.(callbacks := Callbacks([1], [], [], [0]))

  const IN_CLEANUP := READY_JOB.(lock := Some(2), cleaned := true,
                                 h := NEW.h.(trace := [Cleanup], cleaner := Some(2), early := true,
                                             taken := Callbacks([], [], [], [0])))

  const DONE_ONE := IN_CLEANUP.(h := IN_CLEANUP.h.(log := [Started(Cleanup, 0), Finished(Cleanup, 0)],
                                                   trace := [Cleanup, Cleanup, Cleanup]))

  const CLEANED_FIRST := DONE_ONE.(state := Cancelled, cancelled := true,
                                   h := DONE_ONE.h.(log := DONE_ONE.h.log + [Started(Abort, 1)], winner := Some(3),
                                                    trace := [Cleanup, Cleanup, Cleanup, Abort, Abort],
                                                    taken := Callbacks([1], [], [], [0])))

  function Four(job: Job, cleans: Stage, cancels: Stage): State {
    State(job, map[0 := REGISTERS_CLEANUP, 1 := REGISTERS_ABORT, 2 := CLEANS.(at := cleans),
                   3 := CANCELS.(at := cancels)])
  }

  lemma {:induction false} LeadsOn(s: State, steps: seq<Step>, mid: State, more: seq<Step>, last: State)
    requires Leads(s, steps, mid) && Leads(mid, more, last)
    ensures Leads(s, steps + more, last)
    decreases |steps|
  {
    if steps == [] {
      assert steps + more == more;
    } else {
      assert (steps + more)[1..] == steps[1..] + more;
      LeadsOn(After(s, steps[0]), steps[1..], mid, more, last);
    }
  }

  lemma BothRegister()
    ensures exists s, steps :: Init(s) && Leads(s, steps, Four(READY_JOB, Calling, Calling))
  {
    var t0, t1 := Task(Register(Cleanup), Calling, false, false), Task(Register(Abort), Calling, false, false);
    var s0 := State(NEW, map[0 := t0, 1 := t1, 2 := CLEANS, 3 := CANCELS]);
    var job1 := NEW.(callbacks := Callbacks([], [], [], [0]));
    var s1 := State(job1, map[0 := REGISTERS_CLEANUP, 1 := t1, 2 := CLEANS, 3 := CANCELS]);
    var s2 := Four(READY_JOB, Calling, Calling);
    assert Init(s0);
    NoSteps(s2);
    hide Leads;
    OneStep(s1, Do(1), s2, [], s2);
    OneStep(s0, Do(0), s1, [Do(1)] + [], s2);
  }

  lemma CleanupRunsFirst()
    ensures Leads(Four(READY_JOB, Calling, Calling),
                  [Do(2)] + ([Acquire(2)] + ([StartCallback(2)] + ([EndCallback(2, false)] + []))),
                  Four(DONE_ONE, CallingBack(Cleanup, [], false), Calling))
  {
    var s1 := Four(READY_JOB, Locking, Calling);
    var s2 := Four(IN_CLEANUP, CallingBack(Cleanup, [0], false), Calling);
    var noted := IN_CLEANUP.(h := IN_CLEANUP.h.Note(Started(Cleanup, 0)));
    var s3 := Four(noted, CallingBack(Cleanup, [0], true), Calling);
    var s4 := Four(DONE_ONE, CallingBack(Cleanup, [], false), Calling);
    assert noted.h.Note(Finished(Cleanup, 0)) == DONE_ONE.h && [0][1..] == [];
    NoSteps(s4);
    hide Leads;
    OneStep(s3, EndCallback(2, false), s4, [], s4);
    OneStep(s2, StartCallback(2), s3, [EndCallback(2, false)] + [], s4);
    OneStep(s1, Acquire(2), s2, [StartCallback(2)] + ([EndCallback(2, false)] + []), s4);
    OneStep(Four(READY_JOB, Calling, Calling), Do(2), s1,
            [Acquire(2)] + ([StartCallback(2)] + ([EndCallback(2, false)] + [])), s4);
  }

  lemma AbortRunsSecond()
    ensures Leads(Four(DONE_ONE, CallingBack(Cleanup, [], false), Calling), [Do(3)] + ([StartCallback(3)] + []),
                  Four(CLEANED_FIRST, CallingBack(Cleanup, [], false), CallingBack(Abort, [1], true)))
  {
    var cancelled := DONE_ONE.(state := Cancelled, cancelled := true, h := DONE_ONE.h.Win(3, 0).BeginPhase(Abort, [1]));
    var s1 := Four(cancelled, CallingBack(Cleanup, [], false), CallingBack(Abort, [1], false));
    var s2 := Four(CLEANED_FIRST, CallingBack(Cleanup, [], false), CallingBack(Abort, [1], true));
    assert cancelled.h.Note(Started(Abort, 1)) == CLEANED_FIRST.h;
    NoSteps(s2);
    hide Leads;
    OneStep(s1, StartCallback(3), s2, [], s2);
    OneStep(Four(DONE_ONE, CallingBack(Cleanup, [], false), Calling), Do(3), s1, [StartCallback(3)] + [], s2);
  }

  /**
   * An explicit cleanup call may finish a cleanup callback before the abort callback of a later cancellation starts.
   */
  lemma ExplicitCleanupComesFirst()
    ensures exists s, steps, last :: Init(s) && Leads(s, steps, last) && last.job.cancelled
                                     && last.job.h.log == [Started(Cleanup, 0), Finished(Cleanup, 0), Started(Abort, 1)]
  {
    var ready, cleaned := Four(READY_JOB, Calling, Calling), Four(DONE_ONE, CallingBack(Cleanup, [], false), Calling);
    var last := Four(CLEANED_FIRST, CallingBack(Cleanup, [], false), CallingBack(Abort, [1], true));
    BothRegister();
    CleanupRunsFirst();
    AbortRunsSecond();
    hide Leads, Init;
    var s, steps :| Init(s) && Leads(s, steps, ready);
    var more := [Do(2)] + ([Acquire(2)] + ([StartCallback(2)] + ([EndCallback(2, false)] + [])));
    LeadsOn(s, steps, ready, more, cleaned);
    LeadsOn(s, steps + more, cleaned, [Do(3)] + ([StartCallback(3)] + []), last);
    assert CLEANED_FIRST.h.log == [Started(Cleanup, 0), Finished(Cleanup, 0), Started(Abort, 1)];
  }

  /** An abort callback registered after a cancellation won is accepted, and may never be run. */
  lemma LateAbortIsDropped()
    ensures exists s, steps, last :: Init(s) && Leads(s, steps, last)
              && 0 in last.job.callbacks.abort && Starts(last.job.h.log, Abort) == [] && last.job.cancelled
              && last.job.h.front == Rank(Terminate)
  {
    var t0 := Task(Register(Abort), Calling, false, false);
    var t1 := CANCELS;
    var r0 := REGISTERS_ABORT;
    var job1 := NEW.(state := Cancelled, cancelled := true, h := NEW.h.Win(1, 0).BeginPhase(Abort, []));
    var job2 := job1.(callbacks := Callbacks([0], [], [], []));
    var job3 := job2.(h := job1.h.EndPhase(Abort).BeginPhase(Terminate, []));
    var s0 := State(NEW, map[0 := t0, 1 := t1]);
    var s1 := State(job1, map[0 := t0, 1 := t1.(at := CallingBack(Abort, [], false))]);
    var s2 := State(job2, map[0 := r0, 1 := t1.(at := CallingBack(Abort, [], false))]);
    var s3 := State(job3, map[0 := r0, 1 := t1.(at := CallingBack(Terminate, [], false))]);
    assert Init(s0) && Starts(job3.h.log, Abort) == [];
    NoSteps(s3);
    hide Leads, Init, Starts;
    OneStep(s2, EndPhase(1), s3, [], s3);
    OneStep(s1, Do(0), s2, [EndPhase(1)] + [], s3);
    OneStep(s0, Do(1), s1, [Do(0)] + ([EndPhase(1)] + []), s3);
  }
}
