/** How the calls on a job end, and what state the job is in, said by the order of the steps of a run alone. */
module JobReplies {
  import opened Wrappers
  import opened Traces
  import opened RemoteJob

  type Calls = map<nat, Task>

  ghost predicate EndsJob(calls: Calls, t: nat) {
    t in calls && (calls[t].call.Succeed? || calls[t].call.Fail? || calls[t].call.Cancel?)
  }

  ghost predicate StartsJob(calls: Calls, t: nat) { t in calls && calls[t].call.Start? }

  // ---- what has happened ----

  ghost function Ending(calls: Calls): Mark<Step> { (before: seq<Step>, x: Step) => x.Do? && EndsJob(calls, x.t) }

  /** Some call of succeed, fail or cancel has been made. */
  ghost predicate Over(calls: Calls, steps: seq<Step>) { Held(steps, Ending(calls), Never()) }

  ghost function Winning(calls: Calls, t: nat): Mark<Step> {
    (before: seq<Step>, x: Step) => x == Do(t) && EndsJob(calls, t) && !Over(calls, before)
  }

  /** It was the first of them. */
  ghost predicate First(calls: Calls, steps: seq<Step>, t: nat) { Held(steps, Winning(calls, t), Never()) }

  ghost function Starting(calls: Calls): Mark<Step> { (before: seq<Step>, x: Step) => x.Do? && StartsJob(calls, x.t) }

  /** Some call of start has been made. */
  ghost predicate Begun(calls: Calls, steps: seq<Step>) { Held(steps, Starting(calls), Never()) }

  ghost function StartingFirst(calls: Calls, t: nat): Mark<Step> {
    (before: seq<Step>, x: Step) =>
      x == Do(t) && StartsJob(calls, t) && !Begun(calls, before) && !Over(calls, before)
  }

  /** It was the first of them, and no call of succeed, fail or cancel came before it. */
  ghost predicate StartedIt(calls: Calls, steps: seq<Step>, t: nat) { Held(steps, StartingFirst(calls, t), Never()) }

  ghost function Locks(): Mark<Step> { (before: seq<Step>, x: Step) => x.Acquire? }

  /** Some call has taken the cleanup lock. */
  ghost predicate Locked(steps: seq<Step>) { Held(steps, Locks(), Never()) }

  ghost function LocksFirst(t: nat): Mark<Step> { (before: seq<Step>, x: Step) => x == Acquire(t) && !Locked(before) }

  /** It was the first to take the lock, and so runs the cleanup. */
  ghost predicate Cleans(steps: seq<Step>, t: nat) { Held(steps, LocksFirst(t), Never()) }

  ghost function FailsInCleanup(t: nat): Mark<Step> {
    (before: seq<Step>, x: Step) => x == EndCallback(t, true) && Cleans(before, t)
  }

  /** A callback failed in its cleanup. */
  ghost predicate CleansBadly(steps: seq<Step>, t: nat) { Held(steps, FailsInCleanup(t), Never()) }

  ghost function CleanupFailing(): Mark<Step> {
    (before: seq<Step>, x: Step) => x.EndCallback? && x.fails && Cleans(before, x.t)
  }

  /** A cleanup callback failed. */
  ghost predicate CleanupFailed(steps: seq<Step>) { Held(steps, CleanupFailing(), Never()) }

  ghost function RegistersLate(t: nat): Mark<Step> { (before: seq<Step>, x: Step) => x == Do(t) && Locked(before) }

  /** Its call came when the cleanup had begun. */
  ghost predicate Late(steps: seq<Step>, t: nat) { Held(steps, RegistersLate(t), Never()) }

  /** How much a step adds to what has happened, for task `t`. */
  ghost predicate Grows(calls: Calls, steps: seq<Step>, x: Step, t: nat) {
    var more := steps + [x];
    && (Over(calls, more) <==> (x.Do? && EndsJob(calls, x.t)) || Over(calls, steps))
    && (First(calls, more, t) <==> (x == Do(t) && EndsJob(calls, t) && !Over(calls, steps)) || First(calls, steps, t))
    && (Begun(calls, more) <==> (x.Do? && StartsJob(calls, x.t)) || Begun(calls, steps))
    && (StartedIt(calls, more, t) <==>
          (x == Do(t) && StartsJob(calls, t) && !Begun(calls, steps) && !Over(calls, steps))
          || StartedIt(calls, steps, t))
    && (Locked(more) <==> x.Acquire? || Locked(steps))
    && (Cleans(more, t) <==> (x == Acquire(t) && !Locked(steps)) || Cleans(steps, t))
    && (CleansBadly(more, t) <==> (x == EndCallback(t, true) && Cleans(steps, t)) || CleansBadly(steps, t))
    && (CleanupFailed(more) <==> (x.EndCallback? && x.fails && Cleans(steps, x.t)) || CleanupFailed(steps))
    && (Late(more, t) <==> (x == Do(t) && Locked(steps)) || Late(steps, t))
    && (Made(more, EndCallback(t, true)) <==> x == EndCallback(t, true) || Made(steps, EndCallback(t, true)))
    && (Made(more, Do(t)) <==> x == Do(t) || Made(steps, Do(t)))
  }

  lemma DoesGrow(calls: Calls, steps: seq<Step>, x: Step, t: nat)
    ensures Grows(calls, steps, x, t)
  {
    hide Held, EndsJob, StartsJob;
    HeldNext(steps, x, Ending(calls), Never());
    HeldNext(steps, x, Winning(calls, t), Never());
    HeldNext(steps, x, Starting(calls), Never());
    HeldNext(steps, x, StartingFirst(calls, t), Never());
    HeldNext(steps, x, Locks(), Never());
    HeldNext(steps, x, LocksFirst(t), Never());
    HeldNext(steps, x, FailsInCleanup(t), Never());
    HeldNext(steps, x, CleanupFailing(), Never());
    HeldNext(steps, x, RegistersLate(t), Never());
    HeldNext(steps, x, Is(EndCallback(t, true)), Never());
    HeldNext(steps, x, Is(Do(t)), Never());
  }

  // ---- what that means for the job and its calls ----

  /** The state of the job: whoever comes first. */
  ghost predicate JobTold(calls: Calls, steps: seq<Step>, job: Job) {
    && (job.state.Terminal() <==> Over(calls, steps))
    && (job.state.Pending? <==> !Over(calls, steps) && !Begun(calls, steps))
    && (job.cleaned <==> Locked(steps))
    && (job.cleanupFailed <==> job.lock.None? && CleanupFailed(steps))
    && (CleanupFailed(steps) ==> Locked(steps))
  }

  /** What a call that has ended is answered. */
  ghost predicate Answered(calls: Calls, steps: seq<Step>, t: nat, reply: Reply)
    requires t in calls
  {
    match calls[t].call
    case Start => reply == if StartedIt(calls, steps, t) then Nothing else Raises
    case Register(_) => reply == if Late(steps, t) then Raises else Nothing
    case Succeed(_) => reply == if First(calls, steps, t) && !CleanupFailed(steps) then Nothing else Raises
    case Fail(_) => reply == if First(calls, steps, t) && !CleanupFailed(steps) then Nothing else Raises
    case Cancel =>
      reply == if !First(calls, steps, t) then Answer(false)
               else if Made(steps, EndCallback(t, true)) || CleanupFailed(steps) then Raises else Answer(true)
    case CallCleanup => reply == if CleanupFailed(steps) then Raises else Answer(Cleans(steps, t))
  }

  ghost predicate TaskTold(calls: Calls, steps: seq<Step>, t: nat, task: Task, job: Job)
    requires t in calls
  {
    && task.call == calls[t].call
    && (job.h.winner == Some(t) <==> First(calls, steps, t))
    && (job.h.cleaner == Some(t) <==> Cleans(steps, t))
    && (task.failed <==> Made(steps, EndCallback(t, true)))
    && (task.uncleaned <==> CleansBadly(steps, t))
    && (Cleans(steps, t) ==> (CleansBadly(steps, t) <==> CleanupFailed(steps)))
    && (CleansBadly(steps, t) ==> Cleans(steps, t))
    && (task.at.Calling? <==> !Made(steps, Do(t)))
    && (task.at.Calling? ==> !StartedIt(calls, steps, t) && !Late(steps, t))
    && (task.at.Ended? ==> Answered(calls, steps, t, task.at.reply) && EndedLate(task, t, job))
  }

  /** A call that goes through the cleanup ends when that is over. */
  ghost predicate EndedLate(task: Task, t: nat, job: Job) {
    task.call.CallCleanup? || job.h.winner == Some(t) ==> job.cleaned && job.lock.None?
  }

  // ---- one step ----

  lemma OwnTold(calls: Calls, steps: seq<Step>, job: Job, task: Task, x: Step)
    requires Ready(job, task.at, x) && TaskInv(job, x.t, task) && Agree(job) && x.t in calls
    requires JobTold(calls, steps, job) && TaskTold(calls, steps, x.t, task, job)
    requires job.h.winner == Some(x.t) ==> task.call.Succeed? || task.call.Fail? || task.call.Cancel?
    ensures var (next, after) := Effect(job, task, x);
            JobTold(calls, steps + [x], next) && TaskTold(calls, steps + [x], x.t, after, next)
  {
    hide JobTold, TaskTold, Effect, TaskInv, Agree;
    if x.Do? {
      DoTold(calls, steps, job, task, x);
    } else if x.EndPhase? {
      PhaseTold(calls, steps, job, task, x);
    } else if x.Acquire? {
      AcquireTold(calls, steps, job, task, x);
    } else {
      CallbackTold(calls, steps, job, task, x);
    }
  }

  lemma DoTold(calls: Calls, steps: seq<Step>, job: Job, task: Task, x: Step)
    requires Ready(job, task.at, x) && TaskInv(job, x.t, task) && Agree(job) && x.t in calls
    requires JobTold(calls, steps, job) && TaskTold(calls, steps, x.t, task, job)
    requires job.h.winner == Some(x.t) ==> task.call.Succeed? || task.call.Fail? || task.call.Cancel?
    requires x.Do?
    ensures var (next, after) := Effect(job, task, x);
            JobTold(calls, steps + [x], next) && TaskTold(calls, steps + [x], x.t, after, next)
  {
    DoesGrow(calls, steps, x, x.t);
    hide Over, First, Begun, StartedIt, Locked, Cleans, CleansBadly, CleanupFailed, Late, Made, Callbacks.At,
      Callbacks.With, Callbacks.Add;
  }

  lemma CallbackTold(calls: Calls, steps: seq<Step>, job: Job, task: Task, x: Step)
    requires Ready(job, task.at, x) && TaskInv(job, x.t, task) && Agree(job) && x.t in calls
    requires JobTold(calls, steps, job) && TaskTold(calls, steps, x.t, task, job)
    requires job.h.winner == Some(x.t) ==> task.call.Succeed? || task.call.Fail? || task.call.Cancel?
    requires x.StartCallback? || x.EndCallback?
    ensures var (next, after) := Effect(job, task, x);
            JobTold(calls, steps + [x], next) && TaskTold(calls, steps + [x], x.t, after, next)
  {
    DoesGrow(calls, steps, x, x.t);
    hide Over, First, Begun, StartedIt, Locked, Cleans, CleansBadly, CleanupFailed, Late, Made, Callbacks.At,
      Callbacks.With, Callbacks.Add;
  }

  lemma PhaseTold(calls: Calls, steps: seq<Step>, job: Job, task: Task, x: Step)
    requires Ready(job, task.at, x) && TaskInv(job, x.t, task) && Agree(job) && x.t in calls
    requires JobTold(calls, steps, job) && TaskTold(calls, steps, x.t, task, job)
    requires job.h.winner == Some(x.t) ==> task.call.Succeed? || task.call.Fail? || task.call.Cancel?
    requires x.EndPhase?
    ensures var (next, after) := Effect(job, task, x);
            JobTold(calls, steps + [x], next) && TaskTold(calls, steps + [x], x.t, after, next)
  {
    DoesGrow(calls, steps, x, x.t);
    hide Over, First, Begun, StartedIt, Locked, Cleans, CleansBadly, CleanupFailed, Late, Made, Callbacks.At,
      Callbacks.With, Callbacks.Add;
  }

  lemma AcquireTold(calls: Calls, steps: seq<Step>, job: Job, task: Task, x: Step)
    requires Ready(job, task.at, x) && TaskInv(job, x.t, task) && Agree(job) && x.t in calls
    requires JobTold(calls, steps, job) && TaskTold(calls, steps, x.t, task, job)
    requires job.h.winner == Some(x.t) ==> task.call.Succeed? || task.call.Fail? || task.call.Cancel?
    requires x.Acquire?
    ensures var (next, after) := Effect(job, task, x);
            JobTold(calls, steps + [x], next) && TaskTold(calls, steps + [x], x.t, after, next)
  {
    DoesGrow(calls, steps, x, x.t);
    hide Over, First, Begun, StartedIt, Locked, Cleans, CleansBadly, CleanupFailed, Late, Made, Callbacks.At,
      Callbacks.With, Callbacks.Add;
  }

  /** What another task's step leaves of what is told of task `t`. */
  lemma OtherTold(calls: Calls, steps: seq<Step>, job: Job, task: Task, x: Step, t: nat, other: Task)
    requires Ready(job, task.at, x) && TaskInv(job, x.t, task) && Agree(job) && x.t in calls
    requires JobTold(calls, steps, job) && TaskTold(calls, steps, x.t, task, job)
    requires t in calls && t != x.t && TaskTold(calls, steps, t, other, job)
    ensures TaskTold(calls, steps + [x], t, other, Effect(job, task, x).0)
  {
    hide Over, First, Begun, StartedIt, Locked, Cleans, CleansBadly, CleanupFailed, Late, Made, Effect, EndsJob,
      StartsJob;
    DoesGrow(calls, steps, x, t);
    EffectOnOutcome(job, task, x);
    EffectOnCleanup(job, task, x);
  }

  /** What is told of a job and all its calls. */
  ghost predicate Told(calls: Calls, steps: seq<Step>, s: State) {
    && s.tasks.Keys == calls.Keys && JobTold(calls, steps, s.job)
    && forall t <- calls :: TaskTold(calls, steps, t, s.tasks[t], s.job)
  }

  lemma StepTold(calls: Calls, steps: seq<Step>, s: State, x: Step)
    requires Inv(s) && Enabled(s, x) && Told(calls, steps, s)
    ensures Told(calls, steps + [x], After(s, x))
  {
    hide Inv, JobTold, TaskTold, TaskInv, Effect, Agree;
    var next := After(s, x);
    InvFacts(s, x.t);
    OwnTold(calls, steps, s.job, s.tasks[x.t], x);
    forall t | t in calls ensures TaskTold(calls, steps + [x], t, next.tasks[t], next.job) {
      if t != x.t { OtherTold(calls, steps, s.job, s.tasks[x.t], x, t, s.tasks[t]); }
    }
  }

  lemma InvFacts(s: State, t: nat)
    requires Inv(s) && t in s.tasks
    ensures TaskInv(s.job, t, s.tasks[t]) && Agree(s.job) && WinnerInv(s)
    ensures s.job.h.winner == Some(t) ==> s.tasks[t].call.Succeed? || s.tasks[t].call.Fail? || s.tasks[t].call.Cancel?
  {
    hide TaskInv, CleanupLogInv, RegisteredInv, CancelInv, TakenInv, OrderInv;
  }

  lemma {:induction false} LastStep(s: State, steps: seq<Step>, x: Step)
    requires Run(s, steps + [x])
    ensures Run(s, steps) && Enabled(Final(s, steps), x) && Final(s, steps + [x]) == After(Final(s, steps), x)
    decreases |steps|
  {
    assert (steps + [x])[1..] == if steps == [] then [] else steps[1..] + [x];
    if steps != [] { LastStep(After(s, steps[0]), steps[1..], x); }
  }

  lemma NothingTold(s: State)
    requires Init(s)
    ensures Told(s.tasks, [], s)
  {
  }

  lemma {:induction false} RunTold(s: State, steps: seq<Step>)
    requires Init(s) && Run(s, steps)
    ensures Inv(Final(s, steps)) && Told(s.tasks, steps, Final(s, steps))
    decreases |steps|
  {
    hide Told, Inv, Init, After;
    if steps == [] {
      InitInv(s);
      NothingTold(s);
    } else {
      var before, x := steps[..|steps| - 1], steps[|steps| - 1];
      assert steps == before + [x];
      LastStep(s, before, x);
      RunTold(s, before);
      hide Run, Final;
      StepKeepsInv(Final(s, before), x);
      StepTold(s.tasks, before, Final(s, before), x);
    }
  }

  // ---- every run ----

  /**
   * The first call of succeed, fail or cancel wins, whatever has been started, and no other; the job is pending until
   * it or a call of start comes, and terminal from then on; it holds the winner's result or error.
   */
  lemma FirstCallWins(s: State, steps: seq<Step>, t: nat)
    requires Init(s) && Run(s, steps) && t in s.tasks
    ensures var job := Final(s, steps).job;
            && (job.h.winner == Some(t) <==> First(s.tasks, steps, t))
            && (job.state.Terminal() <==> Over(s.tasks, steps))
            && (job.state.Pending? <==> !Over(s.tasks, steps) && !Begun(s.tasks, steps))
            && (First(s.tasks, steps, t) ==>
                  Holds(job, s.tasks[t].call))
  {
    RunTold(s, steps);
    var now := Final(s, steps);
    hide Inv, Init, Run, Final;
    InvFacts(now, t);
    WinnerHolds(s.tasks, steps, now, t);
  }

  /** What a job holds is what its winner gave. */
  ghost predicate Holds(job: Job, call: Call) {
    match call
    case Succeed(result) => job.state.Succeeded? && job.result == Some(result) && job.error.None?
    case Fail(error) => job.state.Failed? && job.error == Some(error) && job.result.None?
    case _ => job.state.Cancelled? && job.cancelled && job.result.None? && job.error.None?
  }

  lemma WinnerHolds(calls: Calls, steps: seq<Step>, s: State, t: nat)
    requires WinnerInv(s) && t in calls && t in s.tasks && TaskTold(calls, steps, t, s.tasks[t], s.job)
    ensures First(calls, steps, t) ==> Holds(s.job, calls[t].call)
  {
    hide First, Cleans, CleansBadly, CleanupFailed, StartedIt, Late, Made, Answered;
  }

  /**
   * Every call gets the answer that is due. A start succeeds if and only if it is the first call; a registration if and
   * only if the cleanup has not begun. A call of succeed or fail raises exactly if it did not win or a cleanup callback
   * failed; a call of cancel answers false exactly if it did not win, and otherwise raises exactly if one of its own
   * callbacks or a cleanup callback failed. A call of cleanup raises exactly if a cleanup callback failed, and
   * otherwise answers whether it ran the cleanup.
   */
  lemma EveryCallIsAnswered(s: State, steps: seq<Step>, t: nat)
    requires Init(s) && Run(s, steps) && t in s.tasks
    requires t in Final(s, steps).tasks && Final(s, steps).tasks[t].at.Ended?
    ensures Answered(s.tasks, steps, t, Final(s, steps).tasks[t].at.reply)
    ensures Won(Final(s, steps).tasks[t]) <==> First(s.tasks, steps, t) && Final(s, steps).tasks[t].at.reply != Raises
  {
    RunTold(s, steps);
    var now := Final(s, steps);
    assert TaskTold(s.tasks, steps, t, now.tasks[t], now.job);
    hide Inv, Init, Run, Final, Answered, Won, First;
    WinnersAreTold(s.tasks, steps, now.tasks[t], t);
  }

  lemma WinnersAreTold(calls: Calls, steps: seq<Step>, task: Task, t: nat)
    requires t in calls && task.call == calls[t].call && task.at.Ended? && Answered(calls, steps, t, task.at.reply)
    ensures Won(task) <==> First(calls, steps, t) && task.at.reply != Raises
  {
    hide Cleans, CleansBadly, CleanupFailed, StartedIt, Late, Made;
    if First(calls, steps, t) { FirstEnds(calls, steps, t); }
    hide First;
  }

  lemma FirstEnds(calls: Calls, steps: seq<Step>, t: nat)
    requires First(calls, steps, t)
    ensures EndsJob(calls, t)
  {
  }

  /** While a call has not ended, some call can go on. */
  lemma SomebodyCanGoOn(s: State, steps: seq<Step>, t: nat)
    requires Init(s) && Run(s, steps) && t in Final(s, steps).tasks && !Final(s, steps).tasks[t].at.Ended?
    ensures exists x :: Enabled(Final(s, steps), x)
  {
    InitInv(s);
    RunKeepsInv(s, steps);
    var now := Final(s, steps);
    var u := if now.tasks[t].at.Locking? && now.job.lock.Some? then now.job.lock.value else t;
    assert CleanupInv(now);
    assert TaskInv(now.job, u, now.tasks[u]);
    hide Inv, Run, Final, Init;
    match now.tasks[u].at
    case Calling => assert Enabled(now, Do(u));
    case Locking => assert Enabled(now, Acquire(u));
    case CallingBack(_, todo, running) =>
      assert Enabled(now, if todo == [] then EndPhase(u)
                          else if running then EndCallback(u, false)
                          else StartCallback(u));
  }
}
