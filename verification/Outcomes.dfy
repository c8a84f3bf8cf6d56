/**
 * What becomes of a prompt, said by the order of the steps of a run alone: which outcome its run reports, where it
 * stands in the queue, whether a cancellation is recorded, and whether its input files are there.
 */
module Outcomes {
  import opened Traces
  import opened Cancellation

  // ---- the record of a cancellation ----

  /** A step that looks for a recorded cancellation, and uses it up. */
  predicate Looks(t: Step, id: string) { t == Begin(id) || t == Validated(id, true) || t == PollTombstone(id) }

  ghost function Clears(id: string): Mark<Step> { (before: seq<Step>, t: Step) => Looks(t, id) || t == Forget(id) }

  /** A cancellation was recorded, and the record has been neither used up nor dropped. */
  ghost predicate Recorded(steps: seq<Step>, id: string) { Held(steps, Is(RecordAndCancel(id)), Clears(id)) }

  // ---- the queue ----

  ghost function Dequeues(id: string): Mark<Step> {
    (before: seq<Step>, t: Step) => t == StartWork(id) || t == CancelDelete(id)
  }

  ghost predicate InQueue(steps: seq<Step>, id: string) { Held(steps, Is(Put(id, true)), Dequeues(id)) }

  ghost predicate InWork(steps: seq<Step>, id: string) { Held(steps, Is(StartWork(id)), Is(FinishWork(id))) }

  ghost function TakesOut(id: string): Mark<Step> {
    (before: seq<Step>, t: Step) => t == CancelDelete(id) && InQueue(before, id)
  }

  /** A cancellation took the prompt out of the queue. */
  ghost predicate TakenOut(steps: seq<Step>, id: string) { Held(steps, TakesOut(id), Never()) }

  ghost function Interrupts(id: string): Mark<Step> {
    (before: seq<Step>, t: Step) => t == CancelInterrupt(id) && InWork(before, id)
  }

  /** The prompt is at work, and a cancellation has interrupted it. */
  ghost predicate Interrupted(steps: seq<Step>, id: string) { Held(steps, Interrupts(id), Is(FinishWork(id))) }

  // ---- how the run of a prompt ends ----

  ghost function Serves(id: string): Mark<Step> {
    (before: seq<Step>, t: Step) => t == PollHistory(id) && Made(before, FinishWork(id))
  }

  /** The run looked at the history when the prompt was done. */
  ghost predicate Served(steps: seq<Step>, id: string) { Held(steps, Serves(id), Never()) }

  ghost function Heeds(id: string): Mark<Step> { (before: seq<Step>, t: Step) => Looks(t, id) && Recorded(before, id) }

  /** The run looked for a recorded cancellation when there was one. */
  ghost predicate Heeded(steps: seq<Step>, id: string) { Held(steps, Heeds(id), Never()) }

  /** The deadline passed before the run returned. */
  ghost predicate Expired(steps: seq<Step>, id: string) { Made(steps, PollExpired(id)) }

  ghost function Refuses(id: string): Mark<Step> {
    (before: seq<Step>, t: Step) =>
      (t.Materialize? && t.id == id && !t.ok) || t == Validated(id, false) || t == Put(id, false)
  }

  /** The values could not be written, the prompt was not valid, or the queue did not take it. */
  ghost predicate Refused(steps: seq<Step>, id: string) { Held(steps, Refuses(id), Never()) }

  /** What the run of a prompt has come to. */
  ghost predicate OutcomeTold(steps: seq<Step>, id: string, loop: Loop, p: Prompt) {
    && (p.at == Returned(Finished) <==> Served(steps, id))
    && (p.at == Returned(Failed) <==> Refused(steps, id))
    && (p.at == Returned(Cancelled) || (Cancelling(loop, id) && loop.caller.AfterTombstone?) <==> Heeded(steps, id))
    && (p.at == Returned(TimedOut) || (Cancelling(loop, id) && loop.caller.AfterTimeout?) <==> Expired(steps, id))
    && (p.at.NotStarted? <==> !Made(steps, Begin(id)))
  }

  ghost predicate QueueTold(steps: seq<Step>, id: string, p: Prompt) {
    && (p.tomb <==> Recorded(steps, id))
    && (p.recorded <==> Made(steps, RecordAndCancel(id)))
    && (p.queue.Absent? <==> !Made(steps, Put(id, true)))
    && (p.queue.Queued? <==> InQueue(steps, id))
    && (p.queue.Running? <==> InWork(steps, id))
    && (p.queue.Running? && p.queue.interrupted <==> Interrupted(steps, id))
    && (p.queue.Done? <==> Made(steps, FinishWork(id)))
    && (p.queue.Removed? <==> TakenOut(steps, id))
  }

  // ---- what a cancellation call has done, and what becomes of the input files ----

  ghost function Tries(id: string): Mark<Step> { (before: seq<Step>, t: Step) => t == CancelDelete(id) }

  /** The last cancellation call took the prompt out of the queue. */
  ghost predicate Removing(steps: seq<Step>, id: string) { Held(steps, TakesOut(id), Tries(id)) }

  ghost function TriesWork(id: string): Mark<Step> { (before: seq<Step>, t: Step) => t == CancelInterrupt(id) }

  /** The last cancellation call interrupted the prompt. */
  ghost predicate Interrupting(steps: seq<Step>, id: string) { Held(steps, Interrupts(id), TriesWork(id)) }

  ghost function HeedsQueued(id: string): Mark<Step> {
    (before: seq<Step>, t: Step) => t == PollTombstone(id) && Recorded(before, id)
  }

  /** The run cancels its own prompt because it found a record. */
  ghost predicate Heeding(steps: seq<Step>, id: string) { Held(steps, HeedsQueued(id), Is(CancelClean(id))) }

  /**
   * The input files are deleted when the run ends before queueing, and at the end of a call that took the prompt out of
   * the queue, or that did not interrupt it although a record is there or was heeded.
   */
  ghost function Deletes(id: string): Mark<Step> {
    (before: seq<Step>, t: Step) =>
      || t == Validated(id, false) || t == Put(id, false) || (t == Validated(id, true) && Recorded(before, id))
      || (t == CancelClean(id)
          && (Removing(before, id) || (!Interrupting(before, id) && (Recorded(before, id) || Heeding(before, id)))))
  }

  ghost predicate InputsThere(steps: seq<Step>, id: string) {
    Held(steps, Is(Materialize(id, true, true)), Deletes(id))
  }

  ghost function Pulls(id: string): Mark<Step> {
    (before: seq<Step>, t: Step) =>
      t == Materialize(id, false, true) || (Deletes(id)(before, t) && InputsThere(before, id))
  }

  /** Input files that had been written were deleted. */
  ghost predicate Pulled(steps: seq<Step>, id: string) { Held(steps, Pulls(id), Never()) }

  /** Not yet queued, and its run has not returned. */
  ghost predicate ToQueue(steps: seq<Step>, id: string) {
    !Made(steps, Put(id, true)) && !Refused(steps, id) && !Heeded(steps, id)
  }

  ghost function Drops(id: string): Mark<Step> {
    (before: seq<Step>, t: Step) => t == Forget(id) && ToQueue(before, id)
  }

  /** The last record was dropped while the prompt was still to be queued. */
  ghost predicate Lapsed(steps: seq<Step>, id: string) { Held(steps, Drops(id), Is(RecordAndCancel(id))) }

  ghost function Bares(id: string): Mark<Step> {
    (before: seq<Step>, t: Step) => t == Forget(id) && ToQueue(before, id) && Pulled(before, id)
  }

  ghost function Covers(id: string): Mark<Step> {
    (before: seq<Step>, t: Step) => t == RecordAndCancel(id) && !Made(before, Put(id, true))
  }

  /** So it was when the input files had been deleted, and no record followed before the prompt was queued. */
  ghost predicate Bared(steps: seq<Step>, id: string) { Held(steps, Bares(id), Covers(id)) }

  ghost predicate CallTold(steps: seq<Step>, id: string, loop: Loop) {
    && (Cancelling(loop, id) && !loop.phase.Deleting? ==> (loop.phase.removed <==> Removing(steps, id)))
    && (Cancelling(loop, id) && loop.phase.Cleaning? ==> (loop.phase.interrupted <==> Interrupting(steps, id)))
    && (Cancelling(loop, id) && loop.caller.AfterTombstone? <==> Heeding(steps, id))
  }

  ghost predicate InputsTold(steps: seq<Step>, id: string, p: Prompt) {
    && (p.inputs <==> InputsThere(steps, id)) && (p.pulled <==> Pulled(steps, id))
    && (p.lapsed <==> Lapsed(steps, id)) && (p.bared <==> Bared(steps, id))
    && (p.armed <==> !Made(steps, Put(id, true)))
  }

  // ---- one more step ----

  /** How one more step changes what is held of the queue and the record. */
  ghost predicate QueueGrows(steps: seq<Step>, t: Step, id: string) {
    var more := steps + [t];
    && (Recorded(more, id) <==> t == RecordAndCancel(id) || (Recorded(steps, id) && !Looks(t, id) && t != Forget(id)))
    && (Made(more, RecordAndCancel(id)) <==> t == RecordAndCancel(id) || Made(steps, RecordAndCancel(id)))
    && (Made(more, Put(id, true)) <==> t == Put(id, true) || Made(steps, Put(id, true)))
    && (InQueue(more, id) <==>
          t == Put(id, true) || (InQueue(steps, id) && t != StartWork(id) && t != CancelDelete(id)))
    && (InWork(more, id) <==> t == StartWork(id) || (InWork(steps, id) && t != FinishWork(id)))
    && (Interrupted(more, id) <==>
          (t == CancelInterrupt(id) && InWork(steps, id)) || (Interrupted(steps, id) && t != FinishWork(id)))
    && (Made(more, FinishWork(id)) <==> t == FinishWork(id) || Made(steps, FinishWork(id)))
    && (TakenOut(more, id) <==> (t == CancelDelete(id) && InQueue(steps, id)) || TakenOut(steps, id))
  }

  lemma QueueDoesGrow(steps: seq<Step>, t: Step, id: string)
    ensures QueueGrows(steps, t, id)
  {
    hide Held;
    HeldNext(steps, t, Is(RecordAndCancel(id)), Clears(id));
    HeldNext(steps, t, Is(RecordAndCancel(id)), Never());
    HeldNext(steps, t, Is(Put(id, true)), Never());
    HeldNext(steps, t, Is(Put(id, true)), Dequeues(id));
    HeldNext(steps, t, Is(StartWork(id)), Is(FinishWork(id)));
    HeldNext(steps, t, Interrupts(id), Is(FinishWork(id)));
    HeldNext(steps, t, Is(FinishWork(id)), Never());
    HeldNext(steps, t, TakesOut(id), Never());
  }

  ghost predicate OutcomeGrows(steps: seq<Step>, t: Step, id: string) {
    var more := steps + [t];
    && (Served(more, id) <==> (t == PollHistory(id) && Made(steps, FinishWork(id))) || Served(steps, id))
    && (Heeded(more, id) <==> (Looks(t, id) && Recorded(steps, id)) || Heeded(steps, id))
    && (Expired(more, id) <==> t == PollExpired(id) || Expired(steps, id))
    && (Refused(more, id) <==>
          || (t.Materialize? && t.id == id && !t.ok) || t == Validated(id, false) || t == Put(id, false)
          || Refused(steps, id))
    && (Made(more, Begin(id)) <==> t == Begin(id) || Made(steps, Begin(id)))
  }

  lemma OutcomeDoesGrow(steps: seq<Step>, t: Step, id: string)
    ensures OutcomeGrows(steps, t, id)
  {
    hide Held;
    HeldNext(steps, t, Serves(id), Never());
    HeldNext(steps, t, Heeds(id), Never());
    HeldNext(steps, t, Is(PollExpired(id)), Never());
    HeldNext(steps, t, Refuses(id), Never());
    HeldNext(steps, t, Is(Begin(id)), Never());
  }

  lemma QueueStep(steps: seq<Step>, loop: Loop, p: Prompt, t: Step)
    requires PromptInv(loop, t.id, p) && Enabled(State(loop, map[t.id := p]), t) && QueueTold(steps, t.id, p)
    ensures QueueTold(steps + [t], t.id, Effect(loop, p, t).1)
  {
    if t.Begin? || t.Materialize? {
      QueueBegins(steps, loop, p, t);
    } else if t.Validated? || t.Put? {
      QueuePuts(steps, loop, p, t);
    } else if t.PollHistory? || t.PollTombstone? || t.PollExpired? || t.Wake? {
      QueueLooks(steps, loop, p, t);
    } else if t.RecordAndCancel? || t.StreamCancel? {
      QueueCalls(steps, loop, p, t);
    } else if t.CancelDelete? {
      QueueDeletes(steps, loop, p, t);
    } else if t.CancelInterrupt? {
      QueueInterrupts(steps, loop, p, t);
    } else if t.CancelClean? {
      QueueCleans(steps, loop, p, t);
    } else {
      QueueWorks(steps, loop, p, t);
    }
  }

  lemma QueueBegins(steps: seq<Step>, loop: Loop, p: Prompt, t: Step)
    requires PromptInv(loop, t.id, p) && Enabled(State(loop, map[t.id := p]), t) && QueueTold(steps, t.id, p)
    requires t.Begin? || t.Materialize?
    ensures QueueTold(steps + [t], t.id, Effect(loop, p, t).1)
  {
    QueueDoesGrow(steps, t, t.id);
    hide Made, Recorded, InQueue, InWork, TakenOut, Interrupted, Answered, HonestReturn, InputsSafe;
  }

  lemma QueuePuts(steps: seq<Step>, loop: Loop, p: Prompt, t: Step)
    requires PromptInv(loop, t.id, p) && Enabled(State(loop, map[t.id := p]), t) && QueueTold(steps, t.id, p)
    requires t.Validated? || t.Put?
    ensures QueueTold(steps + [t], t.id, Effect(loop, p, t).1)
  {
    QueueDoesGrow(steps, t, t.id);
    hide Made, Recorded, InQueue, InWork, TakenOut, Interrupted, Answered, HonestReturn, InputsSafe;
  }

  lemma QueueLooks(steps: seq<Step>, loop: Loop, p: Prompt, t: Step)
    requires PromptInv(loop, t.id, p) && Enabled(State(loop, map[t.id := p]), t) && QueueTold(steps, t.id, p)
    requires t.PollHistory? || t.PollTombstone? || t.PollExpired? || t.Wake?
    ensures QueueTold(steps + [t], t.id, Effect(loop, p, t).1)
  {
    QueueDoesGrow(steps, t, t.id);
    hide Made, Recorded, InQueue, InWork, TakenOut, Interrupted, Answered, HonestReturn, InputsSafe;
  }

  lemma QueueCalls(steps: seq<Step>, loop: Loop, p: Prompt, t: Step)
    requires PromptInv(loop, t.id, p) && Enabled(State(loop, map[t.id := p]), t) && QueueTold(steps, t.id, p)
    requires t.RecordAndCancel? || t.StreamCancel?
    ensures QueueTold(steps + [t], t.id, Effect(loop, p, t).1)
  {
    QueueDoesGrow(steps, t, t.id);
    hide Made, Recorded, InQueue, InWork, TakenOut, Interrupted, Answered, HonestReturn, InputsSafe;
  }

  lemma QueueDeletes(steps: seq<Step>, loop: Loop, p: Prompt, t: Step)
    requires PromptInv(loop, t.id, p) && Enabled(State(loop, map[t.id := p]), t) && QueueTold(steps, t.id, p)
    requires t.CancelDelete?
    ensures QueueTold(steps + [t], t.id, Effect(loop, p, t).1)
  {
    QueueDoesGrow(steps, t, t.id);
    hide Made, Recorded, InQueue, InWork, TakenOut, Interrupted, Answered, HonestReturn, InputsSafe;
  }

  lemma QueueInterrupts(steps: seq<Step>, loop: Loop, p: Prompt, t: Step)
    requires PromptInv(loop, t.id, p) && Enabled(State(loop, map[t.id := p]), t) && QueueTold(steps, t.id, p)
    requires t.CancelInterrupt?
    ensures QueueTold(steps + [t], t.id, Effect(loop, p, t).1)
  {
    QueueDoesGrow(steps, t, t.id);
    hide Made, Recorded, InQueue, InWork, TakenOut, Interrupted, Answered, HonestReturn, InputsSafe;
  }

  lemma QueueCleans(steps: seq<Step>, loop: Loop, p: Prompt, t: Step)
    requires PromptInv(loop, t.id, p) && Enabled(State(loop, map[t.id := p]), t) && QueueTold(steps, t.id, p)
    requires t.CancelClean?
    ensures QueueTold(steps + [t], t.id, Effect(loop, p, t).1)
  {
    CleanLeavesQueue(loop, p, t);
    QueueToldStays(steps, t, t.id, p, Effect(loop, p, t).1);
  }

  lemma QueueToldStays(steps: seq<Step>, t: Step, id: string, p: Prompt, q: Prompt)
    requires QueueTold(steps, id, p) && t.CancelClean?
    requires q.queue == p.queue && q.tomb == p.tomb && q.recorded == p.recorded
    ensures QueueTold(steps + [t], id, q)
  {
    QueueDoesGrow(steps, t, id);
    assert !Looks(t, id);
    hide Looks, Made, Recorded, InQueue, InWork, TakenOut, Interrupted;
  }

  lemma CleanLeavesQueue(loop: Loop, p: Prompt, t: Step)
    requires t.CancelClean?
    ensures var q := Effect(loop, p, t).1; q.queue == p.queue && q.tomb == p.tomb && q.recorded == p.recorded
  {
    hide EndCall;
  }

  lemma QueueWorks(steps: seq<Step>, loop: Loop, p: Prompt, t: Step)
    requires PromptInv(loop, t.id, p) && Enabled(State(loop, map[t.id := p]), t) && QueueTold(steps, t.id, p)
    requires t.StartWork? || t.FinishWork? || t.Forget?
    ensures QueueTold(steps + [t], t.id, Effect(loop, p, t).1)
  {
    QueueDoesGrow(steps, t, t.id);
    hide Made, Recorded, InQueue, InWork, TakenOut, Interrupted, Answered, HonestReturn, InputsSafe;
  }

  lemma OutcomeStep(steps: seq<Step>, loop: Loop, p: Prompt, t: Step)
    requires PromptInv(loop, t.id, p) && Enabled(State(loop, map[t.id := p]), t)
    requires QueueTold(steps, t.id, p) && OutcomeTold(steps, t.id, loop, p)
    ensures OutcomeTold(steps + [t], t.id, Effect(loop, p, t).0, Effect(loop, p, t).1)
  {
    if t.Begin? || t.Materialize? {
      OutcomeBegins(steps, loop, p, t);
    } else if t.Validated? || t.Put? {
      OutcomePuts(steps, loop, p, t);
    } else if t.PollHistory? || t.PollTombstone? || t.PollExpired? || t.Wake? {
      OutcomeLooks(steps, loop, p, t);
    } else if t.RecordAndCancel? || t.StreamCancel? {
      OutcomeCalls(steps, loop, p, t);
    } else if t.CancelDelete? {
      OutcomeDeletes(steps, loop, p, t);
    } else if t.CancelInterrupt? {
      OutcomeInterrupts(steps, loop, p, t);
    } else if t.CancelClean? {
      OutcomeCleans(steps, loop, p, t);
    } else {
      OutcomeWorks(steps, loop, p, t);
    }
  }

  lemma OutcomeBegins(steps: seq<Step>, loop: Loop, p: Prompt, t: Step)
    requires PromptInv(loop, t.id, p) && Enabled(State(loop, map[t.id := p]), t)
    requires QueueTold(steps, t.id, p) && OutcomeTold(steps, t.id, loop, p)
    requires t.Begin? || t.Materialize?
    ensures OutcomeTold(steps + [t], t.id, Effect(loop, p, t).0, Effect(loop, p, t).1)
  {
    OutcomeDoesGrow(steps, t, t.id);
    hide Made, Recorded, InQueue, InWork, TakenOut, Interrupted, Served, Heeded, Expired, Refused;
    hide Answered, HonestReturn, InputsSafe;
  }

  lemma OutcomePuts(steps: seq<Step>, loop: Loop, p: Prompt, t: Step)
    requires PromptInv(loop, t.id, p) && Enabled(State(loop, map[t.id := p]), t)
    requires QueueTold(steps, t.id, p) && OutcomeTold(steps, t.id, loop, p)
    requires t.Validated? || t.Put?
    ensures OutcomeTold(steps + [t], t.id, Effect(loop, p, t).0, Effect(loop, p, t).1)
  {
    OutcomeDoesGrow(steps, t, t.id);
    hide Made, Recorded, InQueue, InWork, TakenOut, Interrupted, Served, Heeded, Expired, Refused;
    hide Answered, HonestReturn, InputsSafe;
  }

  lemma OutcomeLooks(steps: seq<Step>, loop: Loop, p: Prompt, t: Step)
    requires PromptInv(loop, t.id, p) && Enabled(State(loop, map[t.id := p]), t)
    requires QueueTold(steps, t.id, p) && OutcomeTold(steps, t.id, loop, p)
    requires t.PollHistory? || t.PollTombstone? || t.PollExpired? || t.Wake?
    ensures OutcomeTold(steps + [t], t.id, Effect(loop, p, t).0, Effect(loop, p, t).1)
  {
    OutcomeDoesGrow(steps, t, t.id);
    hide Made, Recorded, InQueue, InWork, TakenOut, Interrupted, Served, Heeded, Expired, Refused;
    hide Answered, HonestReturn, InputsSafe;
  }

  lemma OutcomeCalls(steps: seq<Step>, loop: Loop, p: Prompt, t: Step)
    requires PromptInv(loop, t.id, p) && Enabled(State(loop, map[t.id := p]), t)
    requires QueueTold(steps, t.id, p) && OutcomeTold(steps, t.id, loop, p)
    requires t.RecordAndCancel? || t.StreamCancel?
    ensures OutcomeTold(steps + [t], t.id, Effect(loop, p, t).0, Effect(loop, p, t).1)
  {
    OutcomeDoesGrow(steps, t, t.id);
    hide Made, Recorded, InQueue, InWork, TakenOut, Interrupted, Served, Heeded, Expired, Refused;
    hide Answered, HonestReturn, InputsSafe;
  }

  lemma OutcomeDeletes(steps: seq<Step>, loop: Loop, p: Prompt, t: Step)
    requires PromptInv(loop, t.id, p) && Enabled(State(loop, map[t.id := p]), t)
    requires QueueTold(steps, t.id, p) && OutcomeTold(steps, t.id, loop, p)
    requires t.CancelDelete?
    ensures OutcomeTold(steps + [t], t.id, Effect(loop, p, t).0, Effect(loop, p, t).1)
  {
    OutcomeDoesGrow(steps, t, t.id);
    hide Made, Recorded, InQueue, InWork, TakenOut, Interrupted, Served, Heeded, Expired, Refused;
    hide Answered, HonestReturn, InputsSafe;
  }

  lemma OutcomeInterrupts(steps: seq<Step>, loop: Loop, p: Prompt, t: Step)
    requires PromptInv(loop, t.id, p) && Enabled(State(loop, map[t.id := p]), t)
    requires QueueTold(steps, t.id, p) && OutcomeTold(steps, t.id, loop, p)
    requires t.CancelInterrupt?
    ensures OutcomeTold(steps + [t], t.id, Effect(loop, p, t).0, Effect(loop, p, t).1)
  {
    OutcomeDoesGrow(steps, t, t.id);
    hide Made, Recorded, InQueue, InWork, TakenOut, Interrupted, Served, Heeded, Expired, Refused;
    hide Answered, HonestReturn, InputsSafe;
  }

  lemma OutcomeCleans(steps: seq<Step>, loop: Loop, p: Prompt, t: Step)
    requires PromptInv(loop, t.id, p) && Enabled(State(loop, map[t.id := p]), t)
    requires QueueTold(steps, t.id, p) && OutcomeTold(steps, t.id, loop, p)
    requires t.CancelClean?
    ensures OutcomeTold(steps + [t], t.id, Effect(loop, p, t).0, Effect(loop, p, t).1)
  {
    OutcomeDoesGrow(steps, t, t.id);
    hide Made, Recorded, InQueue, InWork, TakenOut, Interrupted, Served, Heeded, Expired, Refused;
    hide Answered, HonestReturn, InputsSafe;
  }

  lemma OutcomeWorks(steps: seq<Step>, loop: Loop, p: Prompt, t: Step)
    requires PromptInv(loop, t.id, p) && Enabled(State(loop, map[t.id := p]), t)
    requires QueueTold(steps, t.id, p) && OutcomeTold(steps, t.id, loop, p)
    requires t.StartWork? || t.FinishWork? || t.Forget?
    ensures OutcomeTold(steps + [t], t.id, Effect(loop, p, t).0, Effect(loop, p, t).1)
  {
    OutcomeDoesGrow(steps, t, t.id);
    hide Made, Recorded, InQueue, InWork, TakenOut, Interrupted, Served, Heeded, Expired, Refused;
    hide Answered, HonestReturn, InputsSafe;
  }

  ghost predicate CallGrows(steps: seq<Step>, t: Step, id: string) {
    var more := steps + [t];
    && (Removing(more, id) <==> if t == CancelDelete(id) then InQueue(steps, id) else Removing(steps, id))
    && (Interrupting(more, id) <==> if t == CancelInterrupt(id) then InWork(steps, id) else Interrupting(steps, id))
    && (Heeding(more, id) <==>
          (t == PollTombstone(id) && Recorded(steps, id)) || (Heeding(steps, id) && t != CancelClean(id)))
  }

  lemma CallDoesGrow(steps: seq<Step>, t: Step, id: string)
    ensures CallGrows(steps, t, id)
  {
    hide Held;
    HeldNext(steps, t, TakesOut(id), Tries(id));
    HeldNext(steps, t, Interrupts(id), TriesWork(id));
    HeldNext(steps, t, HeedsQueued(id), Is(CancelClean(id)));
  }

  ghost predicate InputsGrow(steps: seq<Step>, t: Step, id: string) {
    var more, gone := steps + [t], Deletes(id)(steps, t);
    && (InputsThere(more, id) <==> t == Materialize(id, true, true) || (InputsThere(steps, id) && !gone))
    && (Pulled(more, id) <==>
          t == Materialize(id, false, true) || (gone && InputsThere(steps, id)) || Pulled(steps, id))
    && (Lapsed(more, id) <==>
          (t == Forget(id) && ToQueue(steps, id)) || (Lapsed(steps, id) && t != RecordAndCancel(id)))
    && (Bared(more, id) <==>
          || (t == Forget(id) && ToQueue(steps, id) && Pulled(steps, id))
          || (Bared(steps, id) && !(t == RecordAndCancel(id) && !Made(steps, Put(id, true)))))
  }

  lemma InputsDoGrow(steps: seq<Step>, t: Step, id: string)
    ensures InputsGrow(steps, t, id)
  {
    hide Held, Deletes;
    HeldNext(steps, t, Is(Materialize(id, true, true)), Deletes(id));
    HeldNext(steps, t, Pulls(id), Never());
    HeldNext(steps, t, Drops(id), Is(RecordAndCancel(id)));
    HeldNext(steps, t, Bares(id), Covers(id));
  }

  lemma CallStep(steps: seq<Step>, loop: Loop, p: Prompt, t: Step)
    requires PromptInv(loop, t.id, p) && Enabled(State(loop, map[t.id := p]), t) && QueueTold(steps, t.id, p)
    requires CallTold(steps, t.id, loop)
    ensures CallTold(steps + [t], t.id, Effect(loop, p, t).0)
  {
    if t.Begin? || t.Materialize? || t.Validated? || t.Put? {
      CallRuns(steps, loop, p, t);
    } else if t.PollHistory? || t.PollTombstone? || t.PollExpired? || t.Wake? {
      CallLooks(steps, loop, p, t);
    } else if t.RecordAndCancel? || t.StreamCancel? {
      CallCalls(steps, loop, p, t);
    } else if t.CancelDelete? {
      CallDeletes(steps, loop, p, t);
    } else if t.CancelInterrupt? {
      CallInterrupts(steps, loop, p, t);
    } else if t.CancelClean? {
      CallCleans(steps, loop, p, t);
    } else {
      CallWorks(steps, loop, p, t);
    }
  }

  lemma CallRuns(steps: seq<Step>, loop: Loop, p: Prompt, t: Step)
    requires PromptInv(loop, t.id, p) && Enabled(State(loop, map[t.id := p]), t) && QueueTold(steps, t.id, p)
    requires CallTold(steps, t.id, loop)
    requires t.Begin? || t.Materialize? || t.Validated? || t.Put?
    ensures CallTold(steps + [t], t.id, Effect(loop, p, t).0)
  {
    CallDoesGrow(steps, t, t.id);
    hide Made, Recorded, InQueue, InWork, TakenOut, Interrupted, Removing, Interrupting, Heeding;
    hide Answered, HonestReturn, InputsSafe;
  }

  lemma CallLooks(steps: seq<Step>, loop: Loop, p: Prompt, t: Step)
    requires PromptInv(loop, t.id, p) && Enabled(State(loop, map[t.id := p]), t) && QueueTold(steps, t.id, p)
    requires CallTold(steps, t.id, loop)
    requires t.PollHistory? || t.PollTombstone? || t.PollExpired? || t.Wake?
    ensures CallTold(steps + [t], t.id, Effect(loop, p, t).0)
  {
    CallDoesGrow(steps, t, t.id);
    hide Made, Recorded, InQueue, InWork, TakenOut, Interrupted, Removing, Interrupting, Heeding;
    hide Answered, HonestReturn, InputsSafe;
  }

  lemma CallCalls(steps: seq<Step>, loop: Loop, p: Prompt, t: Step)
    requires PromptInv(loop, t.id, p) && Enabled(State(loop, map[t.id := p]), t) && QueueTold(steps, t.id, p)
    requires CallTold(steps, t.id, loop)
    requires t.RecordAndCancel? || t.StreamCancel?
    ensures CallTold(steps + [t], t.id, Effect(loop, p, t).0)
  {
    CallDoesGrow(steps, t, t.id);
    hide Made, Recorded, InQueue, InWork, TakenOut, Interrupted, Removing, Interrupting, Heeding;
    hide Answered, HonestReturn, InputsSafe;
  }

  lemma CallDeletes(steps: seq<Step>, loop: Loop, p: Prompt, t: Step)
    requires PromptInv(loop, t.id, p) && Enabled(State(loop, map[t.id := p]), t) && QueueTold(steps, t.id, p)
    requires CallTold(steps, t.id, loop)
    requires t.CancelDelete?
    ensures CallTold(steps + [t], t.id, Effect(loop, p, t).0)
  {
    CallDoesGrow(steps, t, t.id);
    hide Made, Recorded, InQueue, InWork, TakenOut, Interrupted, Removing, Interrupting, Heeding;
    hide Answered, HonestReturn, InputsSafe;
  }

  lemma CallInterrupts(steps: seq<Step>, loop: Loop, p: Prompt, t: Step)
    requires PromptInv(loop, t.id, p) && Enabled(State(loop, map[t.id := p]), t) && QueueTold(steps, t.id, p)
    requires CallTold(steps, t.id, loop)
    requires t.CancelInterrupt?
    ensures CallTold(steps + [t], t.id, Effect(loop, p, t).0)
  {
    CallDoesGrow(steps, t, t.id);
    hide Made, Recorded, InQueue, InWork, TakenOut, Interrupted, Removing, Interrupting, Heeding;
    hide Answered, HonestReturn, InputsSafe;
  }

  lemma CallCleans(steps: seq<Step>, loop: Loop, p: Prompt, t: Step)
    requires PromptInv(loop, t.id, p) && Enabled(State(loop, map[t.id := p]), t) && QueueTold(steps, t.id, p)
    requires CallTold(steps, t.id, loop)
    requires t.CancelClean?
    ensures CallTold(steps + [t], t.id, Effect(loop, p, t).0)
  {
    CallDoesGrow(steps, t, t.id);
    hide Made, Recorded, InQueue, InWork, TakenOut, Interrupted, Removing, Interrupting, Heeding;
    hide Answered, HonestReturn, InputsSafe;
  }

  lemma CallWorks(steps: seq<Step>, loop: Loop, p: Prompt, t: Step)
    requires PromptInv(loop, t.id, p) && Enabled(State(loop, map[t.id := p]), t) && QueueTold(steps, t.id, p)
    requires CallTold(steps, t.id, loop)
    requires t.StartWork? || t.FinishWork? || t.Forget?
    ensures CallTold(steps + [t], t.id, Effect(loop, p, t).0)
  {
    CallDoesGrow(steps, t, t.id);
    hide Made, Recorded, InQueue, InWork, TakenOut, Interrupted, Removing, Interrupting, Heeding;
    hide Answered, HonestReturn, InputsSafe;
  }

  lemma InputsStep(steps: seq<Step>, loop: Loop, p: Prompt, t: Step)
    requires PromptInv(loop, t.id, p) && Enabled(State(loop, map[t.id := p]), t) && QueueTold(steps, t.id, p)
    requires OutcomeTold(steps, t.id, loop, p) && CallTold(steps, t.id, loop) && InputsTold(steps, t.id, p)
    ensures InputsTold(steps + [t], t.id, Effect(loop, p, t).1)
  {
    if t.Begin? || t.Materialize? {
      InputsBegins(steps, loop, p, t);
    } else if t.Validated? {
      InputsValidated(steps, loop, p, t);
    } else if t.Put? {
      InputsPuts(steps, loop, p, t);
    } else if t.PollHistory? || t.PollTombstone? || t.PollExpired? || t.Wake? {
      InputsLooks(steps, loop, p, t);
    } else if t.RecordAndCancel? || t.StreamCancel? {
      InputsCalls(steps, loop, p, t);
    } else if t.CancelDelete? {
      InputsDeletes(steps, loop, p, t);
    } else if t.CancelInterrupt? {
      InputsInterrupts(steps, loop, p, t);
    } else if t.CancelClean? {
      InputsCleans(steps, loop, p, t);
    } else {
      InputsWorks(steps, loop, p, t);
    }
  }

  lemma InputsBegins(steps: seq<Step>, loop: Loop, p: Prompt, t: Step)
    requires PromptInv(loop, t.id, p) && Enabled(State(loop, map[t.id := p]), t) && QueueTold(steps, t.id, p)
    requires OutcomeTold(steps, t.id, loop, p) && CallTold(steps, t.id, loop) && InputsTold(steps, t.id, p)
    requires t.Begin? || t.Materialize?
    ensures InputsTold(steps + [t], t.id, Effect(loop, p, t).1)
  {
    InputsDoGrow(steps, t, t.id);
    QueueDoesGrow(steps, t, t.id);
    hide Made, Recorded, InQueue, InWork, TakenOut, Interrupted, Removing, Interrupting, Heeding, Served, Heeded,
      Expired, Refused, InputsThere, Pulled, Lapsed, Bared, Answered, HonestReturn, InputsSafe;
  }

  lemma InputsValidated(steps: seq<Step>, loop: Loop, p: Prompt, t: Step)
    requires PromptInv(loop, t.id, p) && Enabled(State(loop, map[t.id := p]), t) && QueueTold(steps, t.id, p)
    requires OutcomeTold(steps, t.id, loop, p) && CallTold(steps, t.id, loop) && InputsTold(steps, t.id, p)
    requires t.Validated?
    ensures InputsTold(steps + [t], t.id, Effect(loop, p, t).1)
  {
    InputsDoGrow(steps, t, t.id);
    QueueDoesGrow(steps, t, t.id);
    hide Made, Recorded, InQueue, InWork, TakenOut, Interrupted, Removing, Interrupting, Heeding, Served, Heeded,
      Expired, Refused, InputsThere, Pulled, Lapsed, Bared, Answered, HonestReturn, InputsSafe;
  }

  lemma InputsPuts(steps: seq<Step>, loop: Loop, p: Prompt, t: Step)
    requires PromptInv(loop, t.id, p) && Enabled(State(loop, map[t.id := p]), t) && QueueTold(steps, t.id, p)
    requires OutcomeTold(steps, t.id, loop, p) && CallTold(steps, t.id, loop) && InputsTold(steps, t.id, p)
    requires t.Put?
    ensures InputsTold(steps + [t], t.id, Effect(loop, p, t).1)
  {
    InputsDoGrow(steps, t, t.id);
    QueueDoesGrow(steps, t, t.id);
    hide Made, Recorded, InQueue, InWork, TakenOut, Interrupted, Removing, Interrupting, Heeding, Served, Heeded,
      Expired, Refused, InputsThere, Pulled, Lapsed, Bared, Answered, HonestReturn, InputsSafe;
  }

  lemma InputsLooks(steps: seq<Step>, loop: Loop, p: Prompt, t: Step)
    requires PromptInv(loop, t.id, p) && Enabled(State(loop, map[t.id := p]), t) && QueueTold(steps, t.id, p)
    requires OutcomeTold(steps, t.id, loop, p) && CallTold(steps, t.id, loop) && InputsTold(steps, t.id, p)
    requires t.PollHistory? || t.PollTombstone? || t.PollExpired? || t.Wake?
    ensures InputsTold(steps + [t], t.id, Effect(loop, p, t).1)
  {
    InputsDoGrow(steps, t, t.id);
    QueueDoesGrow(steps, t, t.id);
    hide Made, Recorded, InQueue, InWork, TakenOut, Interrupted, Removing, Interrupting, Heeding, Served, Heeded,
      Expired, Refused, InputsThere, Pulled, Lapsed, Bared, Answered, HonestReturn, InputsSafe;
  }

  lemma InputsCalls(steps: seq<Step>, loop: Loop, p: Prompt, t: Step)
    requires PromptInv(loop, t.id, p) && Enabled(State(loop, map[t.id := p]), t) && QueueTold(steps, t.id, p)
    requires OutcomeTold(steps, t.id, loop, p) && CallTold(steps, t.id, loop) && InputsTold(steps, t.id, p)
    requires t.RecordAndCancel? || t.StreamCancel?
    ensures InputsTold(steps + [t], t.id, Effect(loop, p, t).1)
  {
    InputsDoGrow(steps, t, t.id);
    QueueDoesGrow(steps, t, t.id);
    hide Made, Recorded, InQueue, InWork, TakenOut, Interrupted, Removing, Interrupting, Heeding, Served, Heeded,
      Expired, Refused, InputsThere, Pulled, Lapsed, Bared, Answered, HonestReturn, InputsSafe;
  }

  lemma InputsDeletes(steps: seq<Step>, loop: Loop, p: Prompt, t: Step)
    requires PromptInv(loop, t.id, p) && Enabled(State(loop, map[t.id := p]), t) && QueueTold(steps, t.id, p)
    requires OutcomeTold(steps, t.id, loop, p) && CallTold(steps, t.id, loop) && InputsTold(steps, t.id, p)
    requires t.CancelDelete?
    ensures InputsTold(steps + [t], t.id, Effect(loop, p, t).1)
  {
    InputsDoGrow(steps, t, t.id);
    QueueDoesGrow(steps, t, t.id);
    hide Made, Recorded, InQueue, InWork, TakenOut, Interrupted, Removing, Interrupting, Heeding, Served, Heeded,
      Expired, Refused, InputsThere, Pulled, Lapsed, Bared, Answered, HonestReturn, InputsSafe;
  }

  lemma InputsInterrupts(steps: seq<Step>, loop: Loop, p: Prompt, t: Step)
    requires PromptInv(loop, t.id, p) && Enabled(State(loop, map[t.id := p]), t) && QueueTold(steps, t.id, p)
    requires OutcomeTold(steps, t.id, loop, p) && CallTold(steps, t.id, loop) && InputsTold(steps, t.id, p)
    requires t.CancelInterrupt?
    ensures InputsTold(steps + [t], t.id, Effect(loop, p, t).1)
  {
    InputsDoGrow(steps, t, t.id);
    QueueDoesGrow(steps, t, t.id);
    hide Made, Recorded, InQueue, InWork, TakenOut, Interrupted, Removing, Interrupting, Heeding, Served, Heeded,
      Expired, Refused, InputsThere, Pulled, Lapsed, Bared, Answered, HonestReturn, InputsSafe;
  }

  lemma InputsCleans(steps: seq<Step>, loop: Loop, p: Prompt, t: Step)
    requires PromptInv(loop, t.id, p) && Enabled(State(loop, map[t.id := p]), t) && QueueTold(steps, t.id, p)
    requires OutcomeTold(steps, t.id, loop, p) && CallTold(steps, t.id, loop) && InputsTold(steps, t.id, p)
    requires t.CancelClean?
    ensures InputsTold(steps + [t], t.id, Effect(loop, p, t).1)
  {
    InputsDoGrow(steps, t, t.id);
    QueueDoesGrow(steps, t, t.id);
    hide Made, Recorded, InQueue, InWork, TakenOut, Interrupted, Removing, Interrupting, Heeding, Served, Heeded,
      Expired, Refused, InputsThere, Pulled, Lapsed, Bared, Answered, HonestReturn, InputsSafe;
  }

  lemma InputsWorks(steps: seq<Step>, loop: Loop, p: Prompt, t: Step)
    requires PromptInv(loop, t.id, p) && Enabled(State(loop, map[t.id := p]), t) && QueueTold(steps, t.id, p)
    requires OutcomeTold(steps, t.id, loop, p) && CallTold(steps, t.id, loop) && InputsTold(steps, t.id, p)
    requires t.StartWork? || t.FinishWork? || t.Forget?
    ensures InputsTold(steps + [t], t.id, Effect(loop, p, t).1)
  {
    InputsDoGrow(steps, t, t.id);
    QueueDoesGrow(steps, t, t.id);
    hide Made, Recorded, InQueue, InWork, TakenOut, Interrupted, Removing, Interrupting, Heeding, Served, Heeded,
      Expired, Refused, InputsThere, Pulled, Lapsed, Bared, Answered, InputsSafe;
  }

  // ---- every run ----

  ghost predicate Told(steps: seq<Step>, id: string, loop: Loop, p: Prompt) {
    && QueueTold(steps, id, p) && OutcomeTold(steps, id, loop, p) && CallTold(steps, id, loop)
    && InputsTold(steps, id, p)
  }

  lemma OwnStepTold(steps: seq<Step>, loop: Loop, p: Prompt, t: Step)
    requires PromptInv(loop, t.id, p) && Enabled(State(loop, map[t.id := p]), t) && Told(steps, t.id, loop, p)
    ensures Told(steps + [t], t.id, Effect(loop, p, t).0, Effect(loop, p, t).1)
  {
    hide PromptInv, Enabled, QueueTold, OutcomeTold, CallTold, InputsTold, Effect;
    QueueStep(steps, loop, p, t);
    OutcomeStep(steps, loop, p, t);
    CallStep(steps, loop, p, t);
    InputsStep(steps, loop, p, t);
  }

  /** A step for one prompt tells nothing of the others. */
  lemma OtherStepTold(steps: seq<Step>, loop: Loop, p: Prompt, t: Step, next: Loop, id: string, other: Prompt)
    requires Told(steps, id, loop, other) && id != t.id
    requires Cancelling(loop, id) || Cancelling(next, id) ==> next == loop
    ensures Told(steps + [t], id, next, other)
  {
    hide QueueTold, OutcomeTold, CallTold, InputsTold, Cancelling;
    OtherQueueTold(steps, t, id, other);
    OtherOutcomeTold(steps, loop, t, next, id, other);
    OtherCallTold(steps, loop, t, next, id);
    OtherInputsTold(steps, t, id, other);
  }

  lemma OtherQueueTold(steps: seq<Step>, t: Step, id: string, p: Prompt)
    requires QueueTold(steps, id, p) && id != t.id
    ensures QueueTold(steps + [t], id, p)
  {
    QueueDoesGrow(steps, t, id);
    hide Made, Recorded, InQueue, InWork, TakenOut, Interrupted;
  }

  lemma OtherOutcomeTold(steps: seq<Step>, loop: Loop, t: Step, next: Loop, id: string, p: Prompt)
    requires OutcomeTold(steps, id, loop, p) && id != t.id
    requires Cancelling(loop, id) || Cancelling(next, id) ==> next == loop
    ensures OutcomeTold(steps + [t], id, next, p)
  {
    OutcomeDoesGrow(steps, t, id);
    hide Made, Recorded, Served, Heeded, Expired, Refused;
  }

  lemma OtherCallTold(steps: seq<Step>, loop: Loop, t: Step, next: Loop, id: string)
    requires CallTold(steps, id, loop) && id != t.id
    requires Cancelling(loop, id) || Cancelling(next, id) ==> next == loop
    ensures CallTold(steps + [t], id, next)
  {
    CallDoesGrow(steps, t, id);
    hide Recorded, InQueue, InWork, Removing, Interrupting, Heeding;
  }

  lemma OtherInputsTold(steps: seq<Step>, t: Step, id: string, p: Prompt)
    requires InputsTold(steps, id, p) && id != t.id
    ensures InputsTold(steps + [t], id, p)
  {
    InputsDoGrow(steps, t, id);
    QueueDoesGrow(steps, t, id);
    hide Made, InputsThere, Pulled, Lapsed, Bared, Recorded, Removing, Interrupting, Heeding, ToQueue;
  }

  lemma OtherLoop(s: State, t: Step, id: string)
    requires Inv(s) && Enabled(s, t) && id != t.id
    ensures Cancelling(s.loop, id) || Cancelling(After(s, t).loop, id) ==> After(s, t).loop == s.loop
  {
    assert PromptInv(s.loop, t.id, s.prompts[t.id]);
    hide Answered, HonestReturn, InputsSafe, CancelHolds;
  }

  lemma {:induction false} LastStep(s: State, steps: seq<Step>, t: Step)
    requires Run(s, steps + [t])
    ensures Run(s, steps) && Enabled(Final(s, steps), t) && Final(s, steps + [t]) == After(Final(s, steps), t)
    decreases |steps|
  {
    assert (steps + [t])[1..] == if steps == [] then [] else steps[1..] + [t];
    if steps != [] { LastStep(After(s, steps[0]), steps[1..], t); }
  }

  lemma ToldAtFirst(id: string)
    ensures Told([], id, Free, NEW)
  {
  }

  lemma StateStepTold(s: State, steps: seq<Step>, t: Step, id: string)
    requires Inv(s) && Enabled(s, t) && id in s.prompts && Told(steps, id, s.loop, s.prompts[id])
    ensures id in After(s, t).prompts && Told(steps + [t], id, After(s, t).loop, After(s, t).prompts[id])
  {
    hide Told, Effect, PromptInv;
    assert PromptInv(s.loop, t.id, s.prompts[t.id]);
    if t.id == id {
      OwnStepTold(steps, s.loop, s.prompts[id], t);
    } else {
      OtherLoop(s, t, id);
      OtherStepTold(steps, s.loop, s.prompts[t.id], t, After(s, t).loop, id, s.prompts[id]);
    }
  }

  /** What is told of a prompt by the order of the steps is so, in every run. */
  lemma {:induction false} RunTold(ids: set<string>, steps: seq<Step>, id: string)
    requires Run(Init(ids), steps) && id in ids
    ensures Inv(Final(Init(ids), steps)) && id in Final(Init(ids), steps).prompts
    ensures Told(steps, id, Final(Init(ids), steps).loop, Final(Init(ids), steps).prompts[id])
    decreases |steps|
  {
    InvAtFirst(ids);
    ToldAtFirst(id);
    hide Told, Inv, Enabled, After;
    if steps != [] {
      var before, t := steps[..|steps| - 1], steps[|steps| - 1];
      assert steps == before + [t];
      LastStep(Init(ids), before, t);
      RunTold(ids, before, id);
      hide Run, Init, Final;
      StepKeepsInv(Final(Init(ids), before), t);
      StateStepTold(Final(Init(ids), before), before, t, id);
    }
  }

  /** Exactly which outcome the run of a prompt has, if any. */
  ghost predicate OutcomeIs(steps: seq<Step>, id: string, loop: Loop, p: Prompt) {
    && (p.at == Returned(Finished) <==> Served(steps, id))
    && (p.at == Returned(Failed) <==> Refused(steps, id))
    && (!p.at.Stopping? ==> (p.at == Returned(Cancelled) <==> Heeded(steps, id)))
    && (!p.at.Stopping? ==> (p.at == Returned(TimedOut) <==> Expired(steps, id)))
    && (p.at.Stopping? ==> (loop.Cancels? && loop.id == id) && (Heeded(steps, id) <==> !Expired(steps, id)))
    && (p.at.Returned? || p.at.Stopping? <==>
          Served(steps, id) || Refused(steps, id) || Heeded(steps, id) || Expired(steps, id))
  }

  /**
   * The outcome of a run, exactly. It is `Finished` if and only if the run looked at the history when the prompt was
   * done; `Cancelled` if and only if it looked for a record when there was one, and `TimedOut` if and only if its
   * deadline passed first, as soon as its own call of `cancel_prompt` is over; `Failed` if and only if the prompt was
   * refused before queueing.
   */
  lemma OutcomeExactly(ids: set<string>, steps: seq<Step>, id: string)
    requires Run(Init(ids), steps) && id in ids
    ensures id in Final(Init(ids), steps).prompts
    ensures OutcomeIs(steps, id, Final(Init(ids), steps).loop, Final(Init(ids), steps).prompts[id])
  {
    RunTold(ids, steps, id);
    var s := Final(Init(ids), steps);
    assert PromptInv(s.loop, id, s.prompts[id]);
    OutcomeFrom(steps, id, s.loop, s.prompts[id]);
    hide *;
  }

  lemma OutcomeFrom(steps: seq<Step>, id: string, loop: Loop, p: Prompt)
    requires PromptInv(loop, id, p) && Told(steps, id, loop, p)
    ensures OutcomeIs(steps, id, loop, p)
  {
    hide QueueTold, CallTold, InputsTold, Served, Refused, Heeded, Expired, Made, Answered, HonestReturn, InputsSafe,
      CancelHolds;
    if p.at.Returned? {
      match p.at.outcome
      case Finished =>
      case Failed =>
      case Cancelled =>
      case TimedOut =>
    }
  }

  /** Where a prompt stands in the queue, exactly, and whether a cancellation is recorded. */
  lemma QueueExactly(ids: set<string>, steps: seq<Step>, id: string)
    requires Run(Init(ids), steps) && id in ids
    ensures id in Final(Init(ids), steps).prompts && QueueTold(steps, id, Final(Init(ids), steps).prompts[id])
  {
    RunTold(ids, steps, id);
    hide Inv, Run, Init, Final, OutcomeTold, CallTold, InputsTold;
  }

  /** Whether the input files are there, exactly; and what the history of a prompt means. */
  lemma InputsExactly(ids: set<string>, steps: seq<Step>, id: string)
    requires Run(Init(ids), steps) && id in ids
    ensures id in Final(Init(ids), steps).prompts && InputsTold(steps, id, Final(Init(ids), steps).prompts[id])
  {
    RunTold(ids, steps, id);
    hide Inv, Run, Init, Final, OutcomeTold, CallTold, QueueTold;
  }

  // ---- a run can always end ----

  /** How far a run is from its return, and the event loop from being free. */
  function ToGo(at: Point): nat {
    match at
    case NotStarted => 8
    case Materializing => 7
    case Validating => 6
    case Queueing => 5
    case Asking => 4
    case Sleeping => 3
    case Polling => 2
    case Stopping => 1
    case Returned(_) => 0
  }

  function Busy(loop: Loop, at: Point): nat {
    match loop
    case Free => 0
    case Runs(_) => if at.Queueing? then 5 else 4
    case Cancels(_, phase, _) => if phase.Deleting? then 3 else if phase.Interrupting? then 2 else 1
  }

  function Left(s: State, id: string): nat
    requires id in s.prompts && (s.loop.Free? || s.loop.id in s.prompts)
  {
    6 * ToGo(s.prompts[id].at) + if s.loop.Free? then 0 else Busy(s.loop, s.prompts[s.loop.id].at)
  }

  /** The next step of the coroutine that holds the event loop, or of the run of a prompt that is given it. */
  function NextOf(loop: Loop, id: string, at: Point): Step {
    match loop
    case Runs(_) =>
      (match at
       case Materializing => Materialize(id, true, true)
       case Queueing => Put(id, true)
       case Asking => PollTombstone(id)
       case _ => PollExpired(id))
    case Cancels(_, phase, _) =>
      if phase.Deleting? then CancelDelete(id) else if phase.Interrupting? then CancelInterrupt(id) else CancelClean(id)
    case Free =>
      match at
      case NotStarted => Begin(id)
      case Validating => Validated(id, true)
      case _ => Wake(id)
  }

  /** The step is one that can be made, and brings the run nearer to its return or the event loop nearer to its end. */
  ghost predicate GoesOn(loop: Loop, p: Prompt, id: string, t: Step) {
    && t.id == id && Enabled(State(loop, map[id := p]), t)
    && var e := Effect(loop, p, t);
       && ToGo(e.1.at) <= ToGo(p.at) && (!e.0.Free? ==> e.0.id == id) && Busy(e.0, e.1.at) <= 5
       && (loop.Free? ==> ToGo(e.1.at) < ToGo(p.at))
       && (!loop.Free? ==> Busy(e.0, e.1.at) < Busy(loop, p.at))
  }

  lemma NextGoesOn(loop: Loop, p: Prompt, id: string)
    requires PromptInv(loop, id, p) && (loop.Free? ==> !p.at.Returned?) && (!loop.Free? ==> loop.id == id)
    ensures GoesOn(loop, p, id, NextOf(loop, id, p.at))
  {
    hide GoesOn, NextOf, PromptInv;
    match loop {
      case Free => FreeGoesOn(p, id);
      case Runs(_) => RunnerGoesOn(p, id);
      case Cancels(_, phase, caller) => CallGoesOn(phase, caller, p, id);
    }
  }

  lemma FreeGoesOn(p: Prompt, id: string)
    requires PromptInv(Free, id, p) && !p.at.Returned?
    ensures GoesOn(Free, p, id, NextOf(Free, id, p.at))
  {
    hide Answered, HonestReturn, InputsSafe, CancelHolds;
  }

  lemma RunnerGoesOn(p: Prompt, id: string)
    requires PromptInv(Runs(id), id, p)
    ensures GoesOn(Runs(id), p, id, NextOf(Runs(id), id, p.at))
  {
    hide Answered, HonestReturn, InputsSafe, CancelHolds;
  }

  lemma CallGoesOn(phase: Phase, caller: Caller, p: Prompt, id: string)
    requires PromptInv(Cancels(id, phase, caller), id, p)
    ensures GoesOn(Cancels(id, phase, caller), p, id, NextOf(Cancels(id, phase, caller), id, p.at))
  {
    if phase.Cleaning? { CleanGoesOn(phase, caller, p, id); } else { QueueCallGoesOn(phase, caller, p, id); }
  }

  lemma CleanGoesOn(phase: Phase, caller: Caller, p: Prompt, id: string)
    requires PromptInv(Cancels(id, phase, caller), id, p) && phase.Cleaning?
    ensures GoesOn(Cancels(id, phase, caller), p, id, NextOf(Cancels(id, phase, caller), id, p.at))
  {
    hide Answered, HonestReturn, InputsSafe, CancelHolds;
  }

  lemma QueueCallGoesOn(phase: Phase, caller: Caller, p: Prompt, id: string)
    requires PromptInv(Cancels(id, phase, caller), id, p) && !phase.Cleaning?
    ensures GoesOn(Cancels(id, phase, caller), p, id, NextOf(Cancels(id, phase, caller), id, p.at))
  {
    hide PromptInv;
  }

  lemma NextStepGoesOn(s: State, id: string) returns (t: Step)
    requires Inv(s) && id in s.prompts && !s.prompts[id].at.Returned?
    ensures Enabled(s, t) && Inv(After(s, t)) && id in After(s, t).prompts && Left(After(s, t), id) < Left(s, id)
  {
    var x := if s.loop.Free? then id else s.loop.id;
    assert PromptInv(s.loop, x, s.prompts[x]);
    NextGoesOn(s.loop, s.prompts[x], x);
    t := NextOf(s.loop, x, s.prompts[x].at);
    hide Effect, PromptInv, NextOf, Busy, ToGo;
    StepKeepsInv(s, t);
  }

  /** From wherever a run of the system has come, the run of a prompt can be brought to its return. */
  lemma {:induction false} RunCanEnd(s: State, id: string)
    requires Inv(s) && id in s.prompts
    ensures exists steps :: Run(s, steps) && id in Final(s, steps).prompts && Final(s, steps).prompts[id].at.Returned?
    decreases Left(s, id)
  {
    if s.prompts[id].at.Returned? {
      assert Run(s, []) && Final(s, []) == s;
    } else {
      var t := NextStepGoesOn(s, id);
      var next := After(s, t);
      RunCanEnd(next, id);
      hide Inv, Left;
      var rest :| Run(next, rest) && id in Final(next, rest).prompts && Final(next, rest).prompts[id].at.Returned?;
      assert ([t] + rest)[1..] == rest && Run(s, [t] + rest) && Final(s, [t] + rest) == Final(next, rest);
    }
  }

  /** A run that reports success. */
  lemma FinishedRun()
    ensures exists steps, last :: Leads(Init({A}), steps, last) && A in last.prompts
                                  && last.prompts[A].at == Returned(Finished)
  {
    hide Leads;
    var polled := WAITING.(queue := Queued, armed := false, at := Polling);
    var worked := polled.(queue := Running(false));
    var done := polled.(queue := Done);
    var last := Alone(Free, done.(at := Returned(Finished)));
    NothingLeft(last);
    AloneStep(Runs(A), done, PollHistory(A), [], last);
    AloneStep(Runs(A), worked, FinishWork(A), [PollHistory(A)] + [], last);
    AloneStep(Runs(A), polled, StartWork(A), [FinishWork(A)] + ([PollHistory(A)] + []), last);
    var end := [StartWork(A)] + ([FinishWork(A)] + ([PollHistory(A)] + []));
    AloneStep(Runs(A), WAITING.(at := Queueing), Put(A, true), end, last);
    AloneStep(Free, WAITING, Validated(A, true), [Put(A, true)] + end, last);
    var all := Waits([Validated(A, true)] + ([Put(A, true)] + end), last);
  }

  lemma NothingLeft(s: State)
    ensures Leads(s, [], s)
  {
  }
}
