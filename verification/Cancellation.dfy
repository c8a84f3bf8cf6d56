/**
 * Running a workflow prompt while others try to cancel it. Coroutines share one event loop, which a
 * coroutine holds from one await to the next; the prompt worker is a thread and moves at any time, also
 * between two queue calls of the same coroutine.
 */
module Cancellation {

  /** Where a prompt stands in ComfyUI's queue. */
  datatype QueueState = Absent | Queued | Running(interrupted: bool) | Done | Removed

  datatype Outcome = Finished | Failed | Cancelled | TimedOut

  /** Where the coroutine that runs the prompt stands. */
  datatype Point =
    | NotStarted
    | Materializing      // no cancellation was recorded; input files are being written
    | Validating         // awaits the validation of the prompt
    | Queueing           // no cancellation was recorded; about to put the prompt into the queue
    | Polling            // about to look at the history
    | Asking             // not in the history; about to look for a recorded cancellation
    | Sleeping           // awaits the next poll
    | Stopping           // in its own call of `cancel_prompt`
    | Returned(outcome: Outcome)

  /**
   * `tomb`: a cancellation is recorded. `armed`: the guard owns the input files. The last four are history. `recorded`:
   * a cancellation was recorded at some time. `lapsed`: the last record was dropped, for age or count, while the prompt
   * was still to be queued. `pulled`: the inputs were deleted. `bared`: they had been when such a record was dropped.
   */
  datatype Prompt = Prompt(at: Point, queue: QueueState, tomb: bool, armed: bool, inputs: bool,
                           recorded: bool, lapsed: bool, pulled: bool, bared: bool)
  {
    predicate Live() { queue.Queued? || queue.Running? }

    /** Not yet queued, and its run has not returned. */
    predicate Unqueued() { queue.Absent? && !at.Returned? }

    function Record(): Prompt {
      this.(tomb := true, recorded := true, lapsed := false, bared := bared && !queue.Absent?)
    }

    function Drop(): Prompt {
      this.(tomb := false, lapsed := lapsed || Unqueued(), bared := bared || (Unqueued() && pulled))
    }

    function DeleteInputs(): (p: Prompt)
      ensures SameButInputs(p) && p.at == at && !p.inputs
    {
      this.(inputs := false, pulled := pulled || inputs)
    }

    /** No more than the run's point and the input files differ. */
    predicate SameButInputs(other: Prompt) {
      && other.queue == queue && other.tomb == tomb && other.armed == armed && other.recorded == recorded
      && other.lapsed == lapsed && other.bared == bared
    }

    /** Leaves the guarded block: the guard deletes the inputs if it still owns them. */
    function Leave(outcome: Outcome): Prompt {
      (if armed then DeleteInputs() else this).(at := Returned(outcome))
    }
  }

  const NEW := Prompt(NotStarted, Absent, false, true, false, false, false, false, false)

  /** Who called `cancel_prompt`: the interrupt route, a closed stream, or the run itself. */
  datatype Caller = Route | Stream | AfterTombstone | AfterTimeout

  datatype Phase = Deleting | Interrupting(removed: bool) | Cleaning(removed: bool, interrupted: bool)

  datatype Loop = Free | Runs(id: string) | Cancels(id: string, phase: Phase, caller: Caller)

  datatype State = State(loop: Loop, prompts: map<string, Prompt>)

  datatype Step =
    | Begin(id: string) | Materialize(id: string, ok: bool, files: bool) | Validated(id: string, valid: bool)
    | Put(id: string, ok: bool)
    | PollExpired(id: string) | PollHistory(id: string) | PollTombstone(id: string) | Wake(id: string)
    | RecordAndCancel(id: string) | StreamCancel(id: string)
    | CancelDelete(id: string) | CancelInterrupt(id: string) | CancelClean(id: string)
    | StartWork(id: string) | FinishWork(id: string) | Forget(id: string)

  predicate Enabled(s: State, t: Step) {
    && t.id in s.prompts
    && var p := s.prompts[t.id];
       match t
       case Begin(_) => s.loop.Free? && p.at.NotStarted?
       case Materialize(id, _, _) => s.loop == Runs(id) && p.at.Materializing?
       case Validated(_, _) => s.loop.Free? && p.at.Validating?
       case Put(id, _) => s.loop == Runs(id) && p.at.Queueing?
       case PollExpired(id) => s.loop == Runs(id) && p.at.Polling?
       case PollHistory(id) => s.loop == Runs(id) && p.at.Polling?
       case PollTombstone(id) => s.loop == Runs(id) && p.at.Asking?
       case Wake(_) => s.loop.Free? && p.at.Sleeping?
       case RecordAndCancel(_) => s.loop.Free?
       case StreamCancel(_) => s.loop.Free?
       case CancelDelete(id) => s.loop.Cancels? && s.loop.id == id && s.loop.phase.Deleting?
       case CancelInterrupt(id) => s.loop.Cancels? && s.loop.id == id && s.loop.phase.Interrupting?
       case CancelClean(id) => s.loop.Cancels? && s.loop.id == id && s.loop.phase.Cleaning?
       case StartWork(_) => p.queue.Queued?
       case FinishWork(_) => p.queue.Running?
       case Forget(_) => p.tomb
  }

  /** The end of a call of `cancel_prompt`: input files may be deleted, and the run that made the call returns. */
  function EndCall(p: Prompt, caller: Caller, removed: bool, interrupted: bool): (q: Prompt)
    ensures p.SameButInputs(q)
  {
    var cleaned := if removed || (!interrupted && p.tomb) then p.DeleteInputs() else p;
    match caller
    case Route | Stream => cleaned
    case AfterTombstone => (if interrupted then cleaned else cleaned.DeleteInputs()).(at := Returned(Cancelled))
    case AfterTimeout => cleaned.(at := Returned(TimedOut))
  }

  /** The prompt and the loop after a step. */
  function Effect(loop: Loop, p: Prompt, t: Step): (Loop, Prompt) {
    match t
    case Begin(id) =>
      if p.tomb then (Free, p.(tomb := false, at := Returned(Cancelled))) else (Runs(id), p.(at := Materializing))
    case Materialize(id, ok, files) =>
      if ok then (Free, p.(inputs := files, at := Validating)) else (Free, p.(inputs := files).Leave(Failed))
    case Validated(id, valid) =>
      if !valid then (Free, p.Leave(Failed))
      else if p.tomb then (Free, p.(tomb := false).Leave(Cancelled))
      else (Runs(id), p.(at := Queueing))
    case Put(id, ok) =>
      if ok then (Runs(id), p.(queue := Queued, armed := false, at := Polling)) else (Free, p.Leave(Failed))
    case PollExpired(id) => (Cancels(id, Deleting, AfterTimeout), p.(at := Stopping))
    case PollHistory(id) =>
      if p.queue.Done? then (Free, p.(at := Returned(Finished))) else (Runs(id), p.(at := Asking))
    case PollTombstone(id) =>
      if p.tomb then (Cancels(id, Deleting, AfterTombstone), p.(tomb := false, at := Stopping))
        else (Free, p.(at := Sleeping))
    case Wake(id) => (Runs(id), p.(at := Polling))
    case RecordAndCancel(id) => (Cancels(id, Deleting, Route), p.Record())
    case StreamCancel(id) => (Cancels(id, Deleting, Stream), p)
    case CancelDelete(id) =>
      if !loop.Cancels? then (loop, p)
      else (loop.(phase := Interrupting(p.queue.Queued?)), if p.queue.Queued? then p.(queue := Removed) else p)
    case CancelInterrupt(id) =>
      if !(loop.Cancels? && loop.phase.Interrupting?) then (loop, p)
      else (loop.(phase := Cleaning(loop.phase.removed, p.queue.Running?)),
            if p.queue.Running? then p.(queue := Running(true)) else p)
    case CancelClean(id) =>
      if !(loop.Cancels? && loop.phase.Cleaning?) then (loop, p)
      else (Free, EndCall(p, loop.caller, loop.phase.removed, loop.phase.interrupted))
    case StartWork(_) => (loop, p.(queue := Running(false)))
    case FinishWork(_) => (loop, p.(queue := Done))
    case Forget(_) => (loop, p.Drop())
  }

  function After(s: State, t: Step): State
    requires Enabled(s, t)
  {
    var effect := Effect(s.loop, s.prompts[t.id], t);
    State(effect.0, s.prompts[t.id := effect.1])
  }

  predicate Run(s: State, steps: seq<Step>)
    decreases |steps|
  {
    steps == [] || (Enabled(s, steps[0]) && Run(After(s, steps[0]), steps[1..]))
  }

  function Final(s: State, steps: seq<Step>): State
    requires Run(s, steps)
    decreases |steps|
  {
    if steps == [] then s else Final(After(s, steps[0]), steps[1..])
  }

  function Init(ids: set<string>): State { State(Free, map id | id in ids :: NEW) }

  // ---- the invariant ----

  ghost predicate Cancelling(loop: Loop, id: string) { loop.Cancels? && loop.id == id }

  /** The run, the queue, the guard and the event loop are in step. */
  ghost predicate InStep(loop: Loop, id: string, p: Prompt) {
    && (loop == Runs(id) <==> p.at.Materializing? || p.at.Queueing? || p.at.Polling? || p.at.Asking?)
    && (p.at.Stopping? <==> Cancelling(loop, id) && (loop.caller.AfterTombstone? || loop.caller.AfterTimeout?))
    && (p.at.NotStarted? || p.at.Materializing? || p.at.Validating? || p.at.Queueing? ==> p.queue.Absent? && p.armed)
    && (p.at.Polling? || p.at.Asking? || p.at.Sleeping? || p.at.Stopping? ==> !p.queue.Absent? && !p.armed)
    && (p.at.NotStarted? || p.at.Materializing? ==> !p.inputs && !p.pulled)
    && (p.at.Materializing? || p.at.Queueing? ==> !p.tomb)
    && (p.tomb || (p.at.Stopping? && loop.caller.AfterTombstone?) || p.at == Returned(Cancelled) ==> p.recorded)
  }

  /** What a cancellation call has established about the prompt so far. */
  ghost predicate CancelHolds(loop: Loop, id: string, p: Prompt) {
    Cancelling(loop, id) ==>
      match loop.phase
      case Deleting => true
      case Interrupting(removed) => !p.queue.Queued? && (removed ==> p.queue.Removed?)
      case Cleaning(removed, interrupted) =>
        && !p.queue.Queued? && (removed ==> p.queue.Removed?)
        && (p.queue.Running? ==> p.queue.interrupted)
        && (interrupted ==> (p.queue.Running? && p.queue.interrupted) || p.queue.Done?)
        && (!interrupted ==> !p.queue.Running?)
  }

  /** The prompt cannot run any more, or is being interrupted, or will be turned away before it is queued. */
  ghost predicate Settled(p: Prompt) {
    match p.queue
    case Absent => p.tomb || p.at.Returned?
    case Queued => false
    case Running(interrupted) => interrupted
    case Done => true
    case Removed => true
  }

  /** A recorded cancellation takes effect, at the latest when the call that recorded it has made its queue calls. */
  ghost predicate Answered(loop: Loop, id: string, p: Prompt) {
    && (p.recorded && p.Unqueued() ==> (p.lapsed <==> !p.tomb))
    && (p.recorded && !p.lapsed ==>
      Settled(p) || (Cancelling(loop, id) && !p.queue.Absent?
                     && (loop.phase.Deleting? || (loop.phase.Interrupting? && p.queue.Running?))))
  }

  /** How a run may end. */
  ghost predicate HonestReturn(p: Prompt) {
    match p.at
    case Returned(Finished) => p.queue.Done?
    case Returned(Failed) => p.queue.Absent? && !p.inputs
    case Returned(Cancelled) =>
      !p.queue.Queued? && (p.queue.Running? ==> p.queue.interrupted) && (p.queue.Absent? ==> !p.inputs)
    case Returned(TimedOut) => !p.queue.Absent? && !p.queue.Queued? && (p.queue.Running? ==> p.queue.interrupted)
    case _ => true
  }

  /** The inputs of a queued or running prompt are deleted exactly if it was bared before. */
  ghost predicate InputsSafe(p: Prompt) {
    && (p.bared ==> p.pulled)
    && (p.Unqueued() && p.pulled ==> (p.bared <==> !p.tomb))
    && (p.Live() ==> (p.pulled <==> p.bared))
  }

  ghost predicate PromptInv(loop: Loop, id: string, p: Prompt) {
    && InStep(loop, id, p)
    && CancelHolds(loop, id, p)
    && Answered(loop, id, p)
    && HonestReturn(p)
    && InputsSafe(p)
  }

  ghost predicate Inv(s: State) {
    && (s.loop.Free? || s.loop.id in s.prompts)
    && forall id <- s.prompts :: PromptInv(s.loop, id, s.prompts[id])
  }

  lemma RunnerStep(loop: Loop, p: Prompt, t: Step)
    requires PromptInv(loop, t.id, p) && Enabled(State(loop, map[t.id := p]), t)
    requires t.Begin? || t.Materialize? || t.Validated? || t.Put?
    ensures var e := Effect(loop, p, t); PromptInv(e.0, t.id, e.1)
  {
  }

  lemma PollStep(loop: Loop, p: Prompt, t: Step)
    requires PromptInv(loop, t.id, p) && Enabled(State(loop, map[t.id := p]), t)
    requires t.PollExpired? || t.PollHistory? || t.PollTombstone? || t.Wake?
    ensures var e := Effect(loop, p, t); PromptInv(e.0, t.id, e.1)
  {
    if t.PollExpired? || t.PollTombstone? { StopStep(loop, p, t); } else { LookStep(loop, p, t); }
  }

  lemma StopStep(loop: Loop, p: Prompt, t: Step)
    requires PromptInv(loop, t.id, p) && Enabled(State(loop, map[t.id := p]), t) && (t.PollExpired? || t.PollTombstone?)
    ensures var e := Effect(loop, p, t); PromptInv(e.0, t.id, e.1)
  {
  }

  lemma LookStep(loop: Loop, p: Prompt, t: Step)
    requires PromptInv(loop, t.id, p) && Enabled(State(loop, map[t.id := p]), t) && (t.PollHistory? || t.Wake?)
    ensures var e := Effect(loop, p, t); PromptInv(e.0, t.id, e.1)
  {
  }

  lemma CallStep(loop: Loop, p: Prompt, t: Step)
    requires PromptInv(loop, t.id, p) && Enabled(State(loop, map[t.id := p]), t)
    requires t.RecordAndCancel? || t.StreamCancel? || t.CancelDelete? || t.CancelInterrupt?
    ensures var e := Effect(loop, p, t); PromptInv(e.0, t.id, e.1)
  {
  }

  lemma CleanStep(loop: Loop, p: Prompt, t: Step)
    requires PromptInv(loop, t.id, p) && Enabled(State(loop, map[t.id := p]), t) && t.CancelClean?
    ensures var e := Effect(loop, p, t); PromptInv(e.0, t.id, e.1)
  {
    if loop.caller.AfterTombstone? {
      TombstoneCleanStep(loop, p, t);
    } else if loop.caller.AfterTimeout? {
      TimeoutCleanStep(loop, p, t);
    } else {
      OutsideCleanStep(loop, p, t);
    }
  }

  lemma TombstoneCleanStep(loop: Loop, p: Prompt, t: Step)
    requires PromptInv(loop, t.id, p) && Enabled(State(loop, map[t.id := p]), t) && t.CancelClean?
             && loop.caller.AfterTombstone?
    ensures var e := Effect(loop, p, t); PromptInv(e.0, t.id, e.1)
  {
  }

  lemma TimeoutCleanStep(loop: Loop, p: Prompt, t: Step)
    requires PromptInv(loop, t.id, p) && Enabled(State(loop, map[t.id := p]), t) && t.CancelClean?
             && loop.caller.AfterTimeout?
    ensures var e := Effect(loop, p, t); PromptInv(e.0, t.id, e.1)
  {
  }

  lemma OutsideCleanStep(loop: Loop, p: Prompt, t: Step)
    requires PromptInv(loop, t.id, p) && Enabled(State(loop, map[t.id := p]), t) && t.CancelClean?
    requires loop.caller.Route? || loop.caller.Stream?
    ensures var e := Effect(loop, p, t); PromptInv(e.0, t.id, e.1)
  {
  }

  lemma WorkerStep(loop: Loop, p: Prompt, t: Step)
    requires PromptInv(loop, t.id, p) && Enabled(State(loop, map[t.id := p]), t)
    requires t.StartWork? || t.FinishWork? || t.Forget?
    ensures var e := Effect(loop, p, t); PromptInv(e.0, t.id, e.1)
  {
  }

  lemma OwnStep(loop: Loop, p: Prompt, t: Step)
    requires PromptInv(loop, t.id, p) && Enabled(State(loop, map[t.id := p]), t)
    ensures var e := Effect(loop, p, t); PromptInv(e.0, t.id, e.1)
  {
    hide PromptInv, Effect, Enabled;
    if t.Begin? || t.Materialize? || t.Validated? || t.Put? {
      RunnerStep(loop, p, t);
    } else if t.PollExpired? || t.PollHistory? || t.PollTombstone? || t.Wake? {
      PollStep(loop, p, t);
    } else if t.RecordAndCancel? || t.StreamCancel? || t.CancelDelete? || t.CancelInterrupt? {
      CallStep(loop, p, t);
    } else if t.CancelClean? {
      CleanStep(loop, p, t);
    } else {
      WorkerStep(loop, p, t);
    }
  }

  /** A step for one prompt does not disturb what is known of the others. */
  lemma OtherStep(loop: Loop, p: Prompt, t: Step, id: string, other: Prompt)
    requires PromptInv(loop, t.id, p) && PromptInv(loop, id, other) && id != t.id
    requires Enabled(State(loop, map[t.id := p]), t)
    ensures PromptInv(Effect(loop, p, t).0, id, other)
  {
  }

  lemma StepKeepsInv(s: State, t: Step)
    requires Inv(s) && Enabled(s, t)
    ensures Inv(After(s, t))
  {
    hide PromptInv, Effect;
    OwnStep(s.loop, s.prompts[t.id], t);
    LoopStaysKnown(s, t);
    forall id | id in s.prompts && id != t.id ensures PromptInv(After(s, t).loop, id, s.prompts[id]) {
      OtherStep(s.loop, s.prompts[t.id], t, id, s.prompts[id]);
    }
  }

  lemma LoopStaysKnown(s: State, t: Step)
    requires Inv(s) && Enabled(s, t)
    ensures After(s, t).loop.Free? || After(s, t).loop.id in s.prompts
  {
    hide PromptInv;
  }

  lemma {:induction false} RunKeepsInv(s: State, steps: seq<Step>)
    requires Inv(s) && Run(s, steps)
    ensures Inv(Final(s, steps))
    decreases |steps|
  {
    if steps != [] {
      StepKeepsInv(s, steps[0]);
      RunKeepsInv(After(s, steps[0]), steps[1..]);
    }
  }

  lemma InvAtFirst(ids: set<string>)
    ensures Inv(Init(ids))
  {
  }

  // ---- the guarantees, over every run ----

  /** However a run ends, its prompt is not left in the queue, and it goes on running only interrupted. */
  lemma NoPromptLeftQueued(ids: set<string>, steps: seq<Step>, id: string)
    requires Run(Init(ids), steps) && id in ids && id in Final(Init(ids), steps).prompts
    ensures var p := Final(Init(ids), steps).prompts[id];
            p.at.Returned? ==> !p.queue.Queued? && (p.queue.Running? ==> p.queue.interrupted)
                               && (p.at.outcome.Finished? ==> p.queue.Done?)
                               && (p.at.outcome.Failed? ==> p.queue.Absent? && !p.inputs)
                               && (p.at.outcome.Cancelled? ==> p.recorded)
  {
    InvAtFirst(ids);
    RunKeepsInv(Init(ids), steps);
    assert PromptInv(Final(Init(ids), steps).loop, id, Final(Init(ids), steps).prompts[id]);
  }

  /**
   * A recorded cancellation is never lost, unless its record was dropped before the prompt was queued and none
   * followed: once the call that recorded it is over, the prompt is turned away before queueing, out of the queue,
   * interrupted, or finished, and stays so. Before queueing, a record that was so dropped is indeed lost.
   */
  lemma NoCancellationLost(ids: set<string>, steps: seq<Step>, id: string)
    requires Run(Init(ids), steps) && id in ids && id in Final(Init(ids), steps).prompts
    ensures var s := Final(Init(ids), steps);
            && (s.prompts[id].recorded && !s.prompts[id].lapsed && !Cancelling(s.loop, id) ==> Settled(s.prompts[id]))
            && (s.prompts[id].recorded && s.prompts[id].Unqueued() ==>
                (Settled(s.prompts[id]) <==> !s.prompts[id].lapsed))
  {
    InvAtFirst(ids);
    RunKeepsInv(Init(ids), steps);
    assert PromptInv(Final(Init(ids), steps).loop, id, Final(Init(ids), steps).prompts[id]);
  }

  /**
   * A queued or running prompt has had its inputs deleted if and only if a record was dropped before it was queued,
   * after they had been deleted, and no record followed before it was queued.
   */
  lemma NoInputsPulledAway(ids: set<string>, steps: seq<Step>, id: string)
    requires Run(Init(ids), steps) && id in ids && id in Final(Init(ids), steps).prompts
    ensures var p := Final(Init(ids), steps).prompts[id]; p.Live() ==> (p.pulled <==> p.bared)
  {
    InvAtFirst(ids);
    RunKeepsInv(Init(ids), steps);
    assert PromptInv(Final(Init(ids), steps).loop, id, Final(Init(ids), steps).prompts[id]);
  }

  /** Even when records are dropped, no step deletes the inputs of a prompt that is queued or running. */
  lemma NoStepPullsLiveInputs(ids: set<string>, steps: seq<Step>, t: Step)
    requires Run(Init(ids), steps) && Enabled(Final(Init(ids), steps), t)
    ensures var s := Final(Init(ids), steps);
            s.prompts[t.id].inputs && !After(s, t).prompts[t.id].inputs ==>
              !s.prompts[t.id].Live() && !After(s, t).prompts[t.id].Live()
  {
    InvAtFirst(ids);
    RunKeepsInv(Init(ids), steps);
    var s := Final(Init(ids), steps);
    assert PromptInv(s.loop, t.id, s.prompts[t.id]);
    PullsNoLiveInputs(s.loop, s.prompts[t.id], t);
    hide Effect, PromptInv, Run, Init, Final;
  }

  lemma PullsNoLiveInputs(loop: Loop, p: Prompt, t: Step)
    requires PromptInv(loop, t.id, p) && Enabled(State(loop, map[t.id := p]), t)
    ensures p.inputs && !Effect(loop, p, t).1.inputs ==> !p.Live() && !Effect(loop, p, t).1.Live()
  {
    hide Settled, Answered, HonestReturn, InputsSafe;
  }

  /** To drop a record undoes a settled cancellation exactly while the prompt is still to be queued. */
  lemma DropHarmsUnqueued(s: State, id: string)
    requires Inv(s) && Enabled(s, Forget(id)) && Settled(s.prompts[id])
    ensures Settled(After(s, Forget(id)).prompts[id]) <==> !s.prompts[id].Unqueued()
    ensures var next := After(s, Forget(id)).prompts[id];
            && (next.lapsed && !s.prompts[id].lapsed <==> s.prompts[id].Unqueued())
            && (next.bared && !s.prompts[id].bared <==> s.prompts[id].Unqueued() && s.prompts[id].pulled)
  {
    assert PromptInv(s.loop, id, s.prompts[id]);
  }

  // ---- a call that records nothing ----

  /** The event loop stays in an unrecorded call for a prompt, throughout a run. */
  ghost predicate InCall(s: State, steps: seq<Step>, id: string)
    requires Run(s, steps)
    decreases |steps|
  {
    && Cancelling(s.loop, id) && s.loop.caller.Stream?
    && (steps != [] ==> InCall(After(s, steps[0]), steps[1..], id))
  }

  /** What such a call has done to a prompt that was `before` at the call. */
  ghost predicate CallHolds(before: Prompt, loop: Loop, p: Prompt) {
    && loop.Cancels?
    && (before.queue.Absent? <==> p.queue.Absent?)
    && (before.queue.Absent? && !before.tomb ==> p == before)
    && (p.queue.Absent? ==> match loop.phase
                            case Deleting => true
                            case Interrupting(removed) => !removed
                            case Cleaning(removed, interrupted) => !removed && !interrupted)
  }

  lemma CallStepHolds(before: Prompt, loop: Loop, p: Prompt, t: Step, next: Loop)
    requires Enabled(State(loop, map[t.id := p]), t) && CallHolds(before, loop, p) && Cancelling(loop, t.id)
    requires Effect(loop, p, t).0 == next && Cancelling(next, t.id)
    ensures CallHolds(before, next, Effect(loop, p, t).1)
  {
  }

  lemma {:induction false} RunHolds(before: Prompt, s: State, steps: seq<Step>, id: string)
    requires Run(s, steps) && id in s.prompts && InCall(s, steps, id) && CallHolds(before, s.loop, s.prompts[id])
    ensures id in Final(s, steps).prompts && Cancelling(Final(s, steps).loop, id) && Final(s, steps).loop.caller.Stream?
    ensures CallHolds(before, Final(s, steps).loop, Final(s, steps).prompts[id])
    decreases |steps|
  {
    if steps != [] {
      var next := After(s, steps[0]);
      assert Cancelling(next.loop, id);
      if steps[0].id == id {
        CallStepHolds(before, s.loop, s.prompts[id], steps[0], next.loop);
      } else {
        assert next.loop == s.loop;
      }
      RunHolds(before, next, steps[1..], id);
    }
  }

  /**
   * A call that records nothing settles a prompt if and only if it finds it in the queue, running or done: before the
   * prompt is queued it changes nothing at all. That is, unless a cancellation was recorded or the run has returned.
   */
  lemma UnrecordedCallExactly(s: State, steps: seq<Step>, id: string)
    requires Inv(s) && Enabled(s, StreamCancel(id))
    requires var called := After(s, StreamCancel(id));
             Run(called, steps) && InCall(called, steps, id) && Enabled(Final(called, steps), CancelClean(id))
    ensures id in After(Final(After(s, StreamCancel(id)), steps), CancelClean(id)).prompts
    ensures var before := s.prompts[id];
            var after := After(Final(After(s, StreamCancel(id)), steps), CancelClean(id)).prompts[id];
            && (!before.queue.Absent? ==> Settled(after) && !after.queue.Absent?)
            && (before.queue.Absent? && !before.tomb ==> after == before)
            && (!before.tomb && !before.at.Returned? ==> (Settled(after) <==> !before.queue.Absent?))
  {
    var called := After(s, StreamCancel(id));
    StepKeepsInv(s, StreamCancel(id));
    RunKeepsInv(called, steps);
    RunHolds(s.prompts[id], called, steps, id);
    var last := Final(called, steps);
    assert PromptInv(last.loop, id, last.prompts[id]);
    hide Inv, Run, Final, InCall, InStep, Answered, HonestReturn, InputsSafe;
  }

  /** A prompt that was settled once queued stays so, and is never queued again. */
  lemma {:induction false} SettledStays(s: State, steps: seq<Step>, id: string)
    requires Inv(s) && Run(s, steps) && id in s.prompts && Settled(s.prompts[id]) && !s.prompts[id].queue.Absent?
    ensures id in Final(s, steps).prompts
    ensures Settled(Final(s, steps).prompts[id]) && !Final(s, steps).prompts[id].queue.Absent?
    decreases |steps|
  {
    if steps != [] {
      StepKeepsInv(s, steps[0]);
      if steps[0].id == id { StepKeepsSettled(s.loop, s.prompts[id], steps[0]); }
      hide Inv, Settled, Effect;
      SettledStays(After(s, steps[0]), steps[1..], id);
    }
  }

  lemma StepKeepsSettled(loop: Loop, p: Prompt, t: Step)
    requires PromptInv(loop, t.id, p) && Enabled(State(loop, map[t.id := p]), t) && Settled(p) && !p.queue.Absent?
    ensures Settled(Effect(loop, p, t).1) && !Effect(loop, p, t).1.queue.Absent?
  {
    hide Answered, HonestReturn, InputsSafe;
  }

  // ---- and why the conditions are there ----

  const A := "a"

  function Alone(loop: Loop, p: Prompt): State { State(loop, map[A := p]) }

  ghost predicate Leads(s: State, steps: seq<Step>, last: State) {
    Run(s, steps) && Final(s, steps) == last
  }

  lemma FirstStep(s: State, t: Step, steps: seq<Step>, last: State)
    requires Enabled(s, t) && Leads(After(s, t), steps, last)
    ensures Leads(s, [t] + steps, last)
  {
    assert ([t] + steps)[1..] == steps;
  }

  /** One step of a prompt that is alone. */
  lemma AloneStep(loop: Loop, p: Prompt, t: Step, steps: seq<Step>, last: State)
    requires t.id == A && Enabled(Alone(loop, p), t)
    requires var e := Effect(loop, p, t); Leads(Alone(e.0, e.1), steps, last)
    ensures Leads(Alone(loop, p), [t] + steps, last)
  {
    var e := Effect(loop, p, t);
    assert After(Alone(loop, p), t) == Alone(e.0, e.1);
    FirstStep(Alone(loop, p), t, steps, last);
  }

  /** A prompt whose input files were written, awaiting validation. */
  const WAITING := NEW.(at := Validating, inputs := true)

  lemma CancelWhileWaiting(p: Prompt, caller: Caller, steps: seq<Step>, last: State)
    requires p.at.Validating? && p.queue.Absent? && (caller.Route? || caller.Stream?)
    requires Leads(Alone(Free, if p.tomb then p.DeleteInputs() else p), steps, last)
    ensures Leads(Alone(Cancels(A, Deleting, caller), p),
                  [CancelDelete(A), CancelInterrupt(A), CancelClean(A)] + steps, last)
  {
    hide Leads;
    var s3 := [CancelClean(A)] + steps;
    AloneStep(Cancels(A, Cleaning(false, false), caller), p, CancelClean(A), steps, last);
    AloneStep(Cancels(A, Interrupting(false), caller), p, CancelInterrupt(A), s3, last);
    AloneStep(Cancels(A, Deleting, caller), p, CancelDelete(A), [CancelInterrupt(A)] + s3, last);
    assert [CancelDelete(A), CancelInterrupt(A), CancelClean(A)] + steps
        == [CancelDelete(A)] + ([CancelInterrupt(A)] + s3);
  }

  lemma Queues(p: Prompt) returns (steps: seq<Step>)
    requires p.at.Validating? && !p.tomb
    ensures Leads(Alone(Free, p), steps, Alone(Runs(A), p.(queue := Queued, armed := false, at := Polling)))
  {
    var last := Alone(Runs(A), p.(queue := Queued, armed := false, at := Polling));
    assert Leads(last, [], last);
    hide Leads;
    AloneStep(Runs(A), p.(at := Queueing), Put(A, true), [], last);
    AloneStep(Free, p, Validated(A, true), [Put(A, true)] + [], last);
    steps := [Validated(A, true)] + ([Put(A, true)] + []);
  }

  lemma Waits(steps: seq<Step>, last: State) returns (all: seq<Step>)
    requires Leads(Alone(Free, WAITING), steps, last)
    ensures Leads(Init({A}), all, last) && forall t <- steps :: t in all
  {
    hide Leads;
    AloneStep(Runs(A), NEW.(at := Materializing), Materialize(A, true, true), steps, last);
    AloneStep(Free, NEW, Begin(A), [Materialize(A, true, true)] + steps, last);
    assert Init({A}) == Alone(Free, NEW);
    all := [Begin(A)] + ([Materialize(A, true, true)] + steps);
  }

  /** If the record is dropped while the prompt is validated, the prompt is queued without its inputs. */
  lemma DroppedRecordPullsInputs()
    ensures exists steps, last :: Leads(Init({A}), steps, last) && A in last.prompts
              && last.prompts[A].bared && last.prompts[A].pulled && !last.prompts[A].inputs
                && last.prompts[A].queue.Queued?
  {
    hide Leads;
    var marked := WAITING.(tomb := true, recorded := true);
    var gone := marked.DeleteInputs();
    var bare := gone.Drop();
    var end := Queues(bare);
    var last := Alone(Runs(A), bare.(queue := Queued, armed := false, at := Polling));
    AloneStep(Free, gone, Forget(A), end, last);
    CancelWhileWaiting(marked, Route, [Forget(A)] + end, last);
    AloneStep(Free, WAITING, RecordAndCancel(A),
              [CancelDelete(A), CancelInterrupt(A), CancelClean(A)] + ([Forget(A)] + end), last);
    var call := [CancelDelete(A), CancelInterrupt(A), CancelClean(A)];
    var all := Waits([RecordAndCancel(A)] + (call + ([Forget(A)] + end)), last);
  }

  /** A closed stream cancels without recording: before queueing that has no effect. */
  lemma UnrecordedCancellationIsLost()
    ensures exists steps, last :: Leads(Init({A}), steps, last) && StreamCancel(A) in steps && A in last.prompts
              && last.loop == Runs(A) && last.prompts[A].queue.Queued?
  {
    hide Leads;
    var end := Queues(WAITING);
    var last := Alone(Runs(A), WAITING.(queue := Queued, armed := false, at := Polling));
    CancelWhileWaiting(WAITING, Stream, end, last);
    AloneStep(Free, WAITING, StreamCancel(A), [CancelDelete(A), CancelInterrupt(A), CancelClean(A)] + end, last);
    var steps := [StreamCancel(A)] + ([CancelDelete(A), CancelInterrupt(A), CancelClean(A)] + end);
    assert steps[0] == StreamCancel(A);
    var all := Waits(steps, last);
  }
}
