/**
 * The transfer coordinator: threads that want a model on a target share one transfer of it, and transfers
 * to the same target take turns. A step is what one thread does while it holds the lock, or between two
 * points at which other threads can be noticed.
 */
module Transfers {
  import opened Wrappers
  import opened BoundaryTypes

  datatype Identity = Identity(category: string, name: string, size: nat, sha256: Option<string>) {
    function DestinationKey(): (string, string) { (category, Lower(name)) }
    function TransferKey(): (string, string, Option<string>) { (category, Lower(name), sha256) }
  }

  datatype Problem = NoHash | NoTarget | Conflict | CancelledByCaller | CallbackFailed(code: int)

  datatype Outcome = Got(result: int) | Raised(error: Problem)

  /** `_ActiveTransfer`; `leader` is the thread that made it and `calls` counts its callback's runs. */
  datatype Entry = Entry(identity: Identity, target: string, done: bool, outcome: Option<Outcome>, leader: nat,
                         calls: nat)

  datatype Phase =
    | Checking               // about to check for cancellation
    | Transferring           // the callback is active
    | CheckingAgain(result: int)
    | Finishing              // the outcome is set, `done` is not
    | Removing               // `done` is set, the entry is still in the map

  datatype Stage =
    | Calling
    | Waiting
    | Leading(entry: nat, phase: Phase)
    | Following(entry: nat)
    | Ended(outcome: Outcome, via: Option<nat>)   // `via`: the entry whose outcome this is

  /** History: `joined` is the entry that it leads or follows, `fired` says that its own check ended its waiting. */
  datatype Thread = Thread(target: string, identity: Identity, at: Stage, joined: Option<nat>, fired: bool) {
    function Key(): string { Lower(Strip(target)) }

    function Fire(): Thread { this.(at := Ended(Raised(CancelledByCaller), None), fired := true) }
  }

  datatype State = State(threads: map<nat, Thread>, entries: seq<Entry>, active: map<string, nat>)

  /** `cancelled`: the caller's own cancellation check raises. */
  datatype Step =
    | Enter(t: nat) | Try(t: nat, cancelled: bool) | Follow(t: nat, cancelled: bool) | Check(t: nat, cancelled: bool)
    | CallbackEnds(t: nat, outcome: Outcome) | CheckAgain(t: nat, cancelled: bool) | SetDone(t: nat) | Remove(t: nat)

  predicate Enabled(s: State, step: Step) {
    && step.t in s.threads
    && var at := s.threads[step.t].at;
       match step
       case Enter(_) => at.Calling?
       case Try(_, _) => at.Waiting?
       case Follow(_, _) => at.Following? && at.entry < |s.entries|
       case Check(_, _) => at.Leading? && at.phase.Checking? && at.entry < |s.entries|
       case CallbackEnds(_, outcome) =>
         at.Leading? && at.phase.Transferring? && at.entry < |s.entries|
           && (outcome.Raised? ==> outcome.error.CallbackFailed?)
       case CheckAgain(_, _) => at.Leading? && at.phase.CheckingAgain? && at.entry < |s.entries|
       case SetDone(_) => at.Leading? && at.phase.Finishing? && at.entry < |s.entries|
       case Remove(_) =>
         at.Leading? && at.phase.Removing? && at.entry < |s.entries| && s.entries[at.entry].outcome.Some?
  }

  function Moved(s: State, t: nat, at: Stage): State
    requires t in s.threads
  {
    Put(s, t, s.threads[t].(at := at))
  }

  function Put(s: State, t: nat, me: Thread): State { s.(threads := s.threads[t := me]) }

  /** The leader of entry e goes on to `phase`, with the entry changed to `entry`. */
  function Led(s: State, t: nat, e: nat, entry: Entry, phase: Phase): State
    requires t in s.threads && e < |s.entries|
  {
    Moved(s, t, Leading(e, phase)).(entries := s.entries[e := entry])
  }

  function After(s: State, step: Step): State
    requires Enabled(s, step)
  {
    var t := step.t;
    var me := s.threads[t];
    match step
    case Enter(_) =>
      if me.identity.sha256.None? then Moved(s, t, Ended(Raised(NoHash), None))
      else if Strip(me.target) == "" then Moved(s, t, Ended(Raised(NoTarget), None))
      else Moved(s, t, Waiting)
    case Try(_, cancelled) =>
      if me.Key() !in s.active then
        State(s.threads[t := me.(at := Leading(|s.entries|, Checking), joined := Some(|s.entries|))],
              s.entries + [Entry(me.identity, me.Key(), false, None, t, 0)], s.active[me.Key() := |s.entries|])
      else if s.active[me.Key()] >= |s.entries| then s
      else
        var current := s.entries[s.active[me.Key()]].identity;
        if current.DestinationKey() == me.identity.DestinationKey() && current != me.identity then
          Moved(s, t, Ended(Raised(Conflict), None))
        else if current.TransferKey() == me.identity.TransferKey() then
          Put(s, t, me.(at := Following(s.active[me.Key()]), joined := Some(s.active[me.Key()])))
        else if cancelled then Put(s, t, me.Fire())
        else s
    case Follow(_, cancelled) =>
      var entry := s.entries[me.at.entry];
      if entry.done && entry.outcome.Some? then Moved(s, t, Ended(entry.outcome.value, Some(me.at.entry)))
      else if cancelled then Put(s, t, me.Fire())
      else s
    case Check(_, cancelled) =>
      var e := me.at.entry;
      if cancelled then Led(s, t, e, s.entries[e].(outcome := Some(Raised(CancelledByCaller))), Finishing)
      else Led(s, t, e, s.entries[e].(calls := s.entries[e].calls + 1), Transferring)
    case CallbackEnds(_, outcome) =>
      var e := me.at.entry;
      if outcome.Raised? then Led(s, t, e, s.entries[e].(outcome := Some(outcome)), Finishing)
      else Led(s, t, e, s.entries[e], CheckingAgain(outcome.result))
    case CheckAgain(_, cancelled) =>
      var e := me.at.entry;
      Led(s, t, e, s.entries[e].(outcome := Some(if cancelled then Raised(CancelledByCaller)
                                                 else Got(me.at.phase.result))), Finishing)
    case SetDone(_) =>
      var e := me.at.entry;
      Led(s, t, e, s.entries[e].(done := true), Removing)
    case Remove(_) =>
      var e := me.at.entry;
      var left := if me.Key() in s.active && s.active[me.Key()] == e then s.active - {me.Key()} else s.active;
      Moved(s, t, Ended(s.entries[e].outcome.value, Some(e))).(active := left)
  }

  predicate Run(s: State, steps: seq<Step>)
    decreases |steps|
  {
    steps == [] || (Enabled(s, steps[0]) && Run(After(s, steps[0]), steps[1..]))
  }

  function Final(s: State, steps: seq<Step>): State
    requires Run(s, steps)
    decreases |steps|
  {
    if steps == [] then s else Final(After(s, steps[0]), steps[1..])
  }

  /** Any number of threads, each with its own target and model, and nothing active. */
  predicate Init(s: State) {
    s.entries == [] && s.active == map[] && forall t <- s.threads :: Fresh(s.threads[t]) && s.threads[t].at.Calling?
  }

  /** The request names a content and a target. */
  predicate Asks(me: Thread) { me.identity.sha256.Some? && Strip(me.target) != "" }

  predicate Fresh(me: Thread) { me.joined.None? && !me.fired }

  // ---- the invariant ----

  /** How far the leader of an entry has come. */
  ghost predicate PhaseFits(e: Entry, phase: Phase) {
    match phase
    case Checking => e.outcome.None? && !e.done && e.calls == 0
    case Transferring => e.outcome.None? && !e.done && e.calls == 1
    case CheckingAgain(_) => e.outcome.None? && !e.done && e.calls == 1
    case Finishing => e.outcome.Some? && !e.done && CalledFor(e)
    case Removing => e.outcome.Some? && e.done && CalledFor(e)
  }

  /** The callback ran at most once, and once for a result. */
  ghost predicate CalledFor(e: Entry) {
    e.calls <= 1 && (e.outcome.Some? && e.outcome.value.Got? ==> e.calls == 1)
  }

  ghost predicate ThreadInv(s: State, t: nat, me: Thread) {
    match me.at
    case Calling => Fresh(me)
    case Waiting => Fresh(me) && Asks(me)
    case Leading(e, phase) =>
      && e < |s.entries| && s.entries[e].leader == t && s.entries[e].target == me.Key()
        && s.entries[e].identity == me.identity
      && PhaseFits(s.entries[e], phase) && me.joined == Some(e) && !me.fired && Asks(me)
      && me.Key() in s.active && s.active[me.Key()] == e
    case Following(e) =>
      && e < |s.entries| && s.entries[e].identity == me.identity && s.entries[e].target == me.Key()
      && me.joined == Some(e) && !me.fired && Asks(me)
    case Ended(outcome, via) =>
      if via.None? then EndedAlone(me, outcome)
      else
        && via.value < |s.entries| && s.entries[via.value].identity == me.identity
          && s.entries[via.value].target == me.Key()
        && s.entries[via.value].done && s.entries[via.value].outcome == Some(outcome)
        && me.joined == via && !me.fired && Asks(me)
  }

  /** A thread that took no entry's outcome: its request was bad, it met a conflict, or its own check fired. */
  ghost predicate EndedAlone(me: Thread, outcome: Outcome) {
    && outcome.Raised?
    && (outcome.error.NoHash? <==> me.identity.sha256.None?)
    && (outcome.error.NoTarget? <==> me.identity.sha256.Some? && Strip(me.target) == "")
    && (outcome.error.CancelledByCaller? <==> me.fired)
    && !outcome.error.CallbackFailed? && (me.joined.Some? ==> me.fired)
  }

  ghost predicate EntryInv(s: State, e: nat)
    requires e < |s.entries|
  {
    var leader := s.entries[e].leader;
    && leader in s.threads
    && CalledFor(s.entries[e])
    && (s.entries[e].done ==> s.entries[e].outcome.Some?)
    && match s.threads[leader].at
       case Leading(d, _) => d == e
       case Ended(_, via) => via == Some(e) && s.entries[e].done
       case _ => false
  }

  ghost predicate ActiveInv(s: State, key: string)
    requires key in s.active
  {
    var e := s.active[key];
    && e < |s.entries| && s.entries[e].target == key
    && s.entries[e].leader in s.threads
    && s.threads[s.entries[e].leader].at.Leading? && s.threads[s.entries[e].leader].at.entry == e
  }

  ghost predicate Inv(s: State) {
    && (forall t <- s.threads :: ThreadInv(s, t, s.threads[t]))
    && (forall e: nat :: e < |s.entries| ==> EntryInv(s, e))
    && forall key <- s.active :: ActiveInv(s, key)
  }

  lemma InitInv(s: State)
    requires Init(s)
    ensures Inv(s)
  {
  }

  /** A thread that leads nothing goes on. */
  lemma MovedKeepsInv(s: State, t: nat, me: Thread)
    requires Inv(s) && t in s.threads && !s.threads[t].at.Leading? && !s.threads[t].at.Ended? && !me.at.Leading?
    requires ThreadInv(s, t, me)
    ensures Inv(Put(s, t, me))
  {
    hide Lower, Strip, PhaseFits, EndedAlone;
    var next := Put(s, t, me);
    forall e: nat | e < |next.entries| ensures EntryInv(next, e) { assert EntryInv(s, e); }
    forall key | key in next.active ensures ActiveInv(next, key) { assert ActiveInv(s, key); }
    forall k | k in next.threads ensures ThreadInv(next, k, next.threads[k]) { assert ThreadInv(s, k, s.threads[k]); }
  }

  /** The leader of an entry goes on. */
  lemma LedKeepsInv(s: State, t: nat, e: nat, entry: Entry, phase: Phase)
    requires Inv(s) && t in s.threads && s.threads[t].at.Leading? && s.threads[t].at.entry == e && e < |s.entries|
    requires entry.identity == s.entries[e].identity && entry.target == s.entries[e].target && entry.leader == t
    requires !s.entries[e].done && PhaseFits(entry, phase)
    ensures Inv(Led(s, t, e, entry, phase))
  {
    hide Lower, Strip;
    var next := Led(s, t, e, entry, phase);
    assert ThreadInv(s, t, s.threads[t]);
    forall d: nat | d < |next.entries| ensures EntryInv(next, d) { assert EntryInv(s, d); }
    forall key | key in next.active ensures ActiveInv(next, key) { assert ActiveInv(s, key); }
    hide PhaseFits;
    forall k | k in next.threads ensures ThreadInv(next, k, next.threads[k]) {
      assert ThreadInv(s, k, s.threads[k]);
    }
  }

  /** Thread t makes a new entry and leads it. */
  ghost predicate IsNew(s: State, t: nat, next: State)
    requires t in s.threads
  {
    var e, me := |s.entries|, s.threads[t];
    && next.threads == s.threads[t := me.(at := Leading(e, Checking), joined := Some(e))]
    && next.entries == s.entries + [Entry(me.identity, me.Key(), false, None, t, 0)]
    && me.Key() !in s.active && next.active == s.active[me.Key() := e]
  }

  lemma NewKeepsInv(s: State, t: nat, next: State)
    requires Inv(s) && t in s.threads && s.threads[t].at.Waiting? && IsNew(s, t, next)
    ensures Inv(next)
  {
    assert ThreadInv(s, t, s.threads[t]);
    hide Lower, Strip;
    forall d: nat | d < |next.entries| ensures EntryInv(next, d) { assert d < |s.entries| ==> EntryInv(s, d); }
    forall key | key in next.active ensures ActiveInv(next, key) { assert key in s.active ==> ActiveInv(s, key); }
    NewKeepsThreads(s, t, next);
    hide Inv, IsNew, ThreadInv, EntryInv, ActiveInv;
  }

  lemma NewKeepsThreads(s: State, t: nat, next: State)
    requires Inv(s) && t in s.threads && s.threads[t].at.Waiting? && IsNew(s, t, next)
    ensures forall k <- next.threads :: ThreadInv(next, k, next.threads[k])
  {
    assert ThreadInv(s, t, s.threads[t]) && ThreadInv(next, t, next.threads[t]);
    hide Lower, Strip, PhaseFits, EndedAlone;
    forall k | k in next.threads ensures ThreadInv(next, k, next.threads[k]) { assert ThreadInv(s, k, s.threads[k]); }
  }

  lemma RemovingIsDone(s: State, t: nat)
    requires Inv(s) && Enabled(s, Remove(t))
    ensures s.entries[s.threads[t].at.entry].done && s.entries[s.threads[t].at.entry].leader == t
  {
    assert ThreadInv(s, t, s.threads[t]);
  }

  lemma RemoveKeepsInv(s: State, t: nat)
    requires Inv(s) && Enabled(s, Remove(t))
    ensures Inv(After(s, Remove(t)))
  {
    hide Lower, Strip, PhaseFits;
    var next := After(s, Remove(t));
    var e := s.threads[t].at.entry;
    assert s.entries[e].done && s.entries[e].leader == t by { RemovingIsDone(s, t); }
    forall d: nat | d < |next.entries| ensures EntryInv(next, d) { assert EntryInv(s, d); }
    forall key | key in next.active ensures ActiveInv(next, key) { assert ActiveInv(s, key); }
    forall k | k in next.threads ensures ThreadInv(next, k, next.threads[k]) { assert ThreadInv(s, k, s.threads[k]); }
  }

  /** Models with the same transfer key have the same destination. */
  lemma SameTransferSameDestination(a: Identity, b: Identity)
    ensures a.TransferKey() == b.TransferKey() ==> a.DestinationKey() == b.DestinationKey()
  {
  }

  lemma TryKeepsInv(s: State, t: nat, cancelled: bool)
    requires Inv(s) && Enabled(s, Try(t, cancelled))
    ensures Inv(After(s, Try(t, cancelled)))
  {
    var me := s.threads[t];
    assert ThreadInv(s, t, me);
    if me.Key() !in s.active {
      NewKeepsInv(s, t, After(s, Try(t, cancelled)));
    } else {
      assert ActiveInv(s, me.Key());
      var e := s.active[me.Key()];
      SameTransferSameDestination(s.entries[e].identity, me.identity);
      hide Inv, Identity.TransferKey, Identity.DestinationKey, Lower, Strip;
      if After(s, Try(t, cancelled)) != s {
        MovedKeepsInv(s, t, After(s, Try(t, cancelled)).threads[t]);
      }
    }
  }

  lemma LeaderAt(s: State, t: nat)
    requires Inv(s) && t in s.threads && s.threads[t].at.Leading?
    ensures var at := s.threads[t].at;
            at.entry < |s.entries| && s.entries[at.entry].leader == t && PhaseFits(s.entries[at.entry], at.phase)
  {
    assert ThreadInv(s, t, s.threads[t]);
  }

  lemma LeaderKeepsInv(s: State, step: Step)
    requires Inv(s) && Enabled(s, step) && s.threads[step.t].at.Leading?
    ensures Inv(After(s, step))
  {
    var t, e := step.t, s.threads[step.t].at.entry;
    LeaderAt(s, t);
    assert EntryInv(s, e);
    hide Inv, EntryInv, Lower, Strip;
    if step.Remove? {
      RemoveKeepsInv(s, t);
    } else {
      LedKeepsInv(s, t, e, After(s, step).entries[e], After(s, step).threads[t].at.phase);
    }
  }

  lemma StepKeepsInv(s: State, step: Step)
    requires Inv(s) && Enabled(s, step)
    ensures Inv(After(s, step))
  {
    var t, at := step.t, s.threads[step.t].at;
    assert ThreadInv(s, t, s.threads[t]);
    if at.Following? { assert EntryInv(s, at.entry); }
    hide Inv, EntryInv, Lower, Strip, PhaseFits;
    if at.Leading? {
      LeaderKeepsInv(s, step);
    } else if step.Try? {
      TryKeepsInv(s, t, step.cancelled);
    } else if After(s, step) != s {
      MovedKeepsInv(s, t, After(s, step).threads[t]);
    }
  }

  lemma {:induction false} RunKeepsInv(s: State, steps: seq<Step>)
    requires Inv(s) && Run(s, steps)
    ensures Inv(Final(s, steps))
    decreases |steps|
  {
    if steps != [] {
      StepKeepsInv(s, steps[0]);
      RunKeepsInv(After(s, steps[0]), steps[1..]);
    }
  }

  // ---- the guarantees, over every run ----

  /** At most one thread leads a transfer to a target, so at most one callback is active there. */
  lemma OneTransferPerTarget(s: State, steps: seq<Step>, t: nat, u: nat)
    requires Init(s) && Run(s, steps)
    requires var now := Final(s, steps).threads;
             t in now && u in now && now[t].at.Leading? && now[u].at.Leading? && now[t].Key() == now[u].Key()
    ensures t == u
  {
    InitInv(s);
    RunKeepsInv(s, steps);
    var last := Final(s, steps);
    assert ThreadInv(last, t, last.threads[t]) && ThreadInv(last, u, last.threads[u]);
  }

  /**
   * A thread that leads or follows an entry takes that entry's outcome, which is its leader's and is for the same
   * model, unless its own cancellation check fired while it followed. A thread that never came so far ends with the
   * error that its request calls for, or again because its check fired.
   */
  lemma FollowersShareOutcome(s: State, steps: seq<Step>, t: nat)
    requires Init(s) && Run(s, steps) && t in Final(s, steps).threads && Final(s, steps).threads[t].at.Ended?
    ensures var now := Final(s, steps); var me := now.threads[t];
            && (me.joined.Some? ==> if me.fired then me.at == Ended(Raised(CancelledByCaller), None)
                else me.at.via == me.joined)
            && (me.joined.None? ==> me.at.via.None?)
            && match me.at.via
            case None => EndedAlone(me, me.at.outcome)
            case Some(e) =>
              && e < |now.entries| && now.entries[e].done && CalledFor(now.entries[e])
              && now.entries[e].identity == me.identity && now.entries[e].target == me.Key()
              && now.entries[e].outcome == Some(me.at.outcome)
              && now.entries[e].leader in now.threads
              && now.threads[now.entries[e].leader].at in {Leading(e, Removing), Ended(me.at.outcome, Some(e))}
  {
    InitInv(s);
    RunKeepsInv(s, steps);
    var now := Final(s, steps);
    hide Lower, Strip;
    assert ThreadInv(now, t, now.threads[t]);
    if now.threads[t].at.via.Some? { LeaderOfDone(now, now.threads[t].at.via.value); }
  }

  lemma LeaderOfDone(s: State, e: nat)
    requires Inv(s) && e < |s.entries| && s.entries[e].done
    ensures CalledFor(s.entries[e]) && s.entries[e].leader in s.threads && s.entries[e].outcome.Some?
    ensures s.threads[s.entries[e].leader].at in {Leading(e, Removing), Ended(s.entries[e].outcome.value, Some(e))}
  {
    assert EntryInv(s, e);
    assert ThreadInv(s, s.entries[e].leader, s.threads[s.entries[e].leader]);
  }

  /** An entry stays in the map until its leader removes it: the `is active` guard never fails. */
  lemma GuardHolds(s: State, steps: seq<Step>, t: nat)
    requires Init(s) && Run(s, steps) && Enabled(Final(s, steps), Remove(t))
    ensures var now := Final(s, steps);
            && now.threads[t].Key() in now.active
            && now.active[now.threads[t].Key()] == now.threads[t].at.entry
  {
    InitInv(s);
    RunKeepsInv(s, steps);
    assert ThreadInv(Final(s, steps), t, Final(s, steps).threads[t]);
  }

  lemma DoneIsFixedByStep(s: State, step: Step, e: nat)
    requires Inv(s) && Enabled(s, step) && e < |s.entries| && s.entries[e].done
    ensures e < |After(s, step).entries| && After(s, step).entries[e] == s.entries[e]
  {
    hide Lower, Strip;
    assert ThreadInv(s, step.t, s.threads[step.t]);
  }

  /** An outcome is fixed once `done` is set. */
  lemma {:induction false} DoneIsFixed(s: State, steps: seq<Step>, e: nat)
    requires Inv(s) && Run(s, steps) && e < |s.entries| && s.entries[e].done
    ensures e < |Final(s, steps).entries| && Final(s, steps).entries[e] == s.entries[e]
    decreases |steps|
  {
    if steps != [] {
      StepKeepsInv(s, steps[0]);
      DoneIsFixedByStep(s, steps[0], e);
      DoneIsFixed(After(s, steps[0]), steps[1..], e);
    }
  }

  /** When every call has ended, no target is left blocked. */
  lemma NoTargetBlocked(s: State, steps: seq<Step>)
    requires Init(s) && Run(s, steps) && forall t <- Final(s, steps).threads :: Final(s, steps).threads[t].at.Ended?
    ensures Final(s, steps).active == map[]
  {
    InitInv(s);
    RunKeepsInv(s, steps);
    var now := Final(s, steps);
    assert forall key <- now.active :: ActiveInv(now, key);
  }

  // ---- nobody waits for ever ----

  function Distance(at: Stage): nat {
    match at
    case Calling => 8
    case Waiting => 7
    case Leading(_, Checking) => 6
    case Leading(_, Transferring) => 5
    case Leading(_, CheckingAgain(_)) => 4
    case Leading(_, Finishing) => 3
    case Leading(_, Removing) => 2
    case Following(_) => 1
    case Ended(_, _) => 0
  }

  /** A step that changes anything brings its thread nearer to its end and moves no other thread. */
  lemma StepsGoForward(s: State, step: Step)
    requires Enabled(s, step) && After(s, step) != s
    ensures var next := After(s, step).threads;
            && next.Keys == s.threads.Keys && Distance(next[step.t].at) < Distance(s.threads[step.t].at)
            && forall t <- s.threads :: t != step.t ==> next[t] == s.threads[t]
  {
    hide Lower, Strip, Identity.TransferKey, Identity.DestinationKey;
    match step {
      case Try(_, _) =>
      case _ =>
    }
  }

  function LeaderStep(t: nat, phase: Phase): Step {
    match phase
    case Checking => Check(t, false)
    case Transferring => CallbackEnds(t, Got(0))
    case CheckingAgain(_) => CheckAgain(t, false)
    case Finishing => SetDone(t)
    case Removing => Remove(t)
  }

  lemma LeaderCanStep(s: State, t: nat)
    requires Inv(s) && t in s.threads && s.threads[t].at.Leading?
    ensures Enabled(s, LeaderStep(t, s.threads[t].at.phase)) && After(s, LeaderStep(t, s.threads[t].at.phase)) != s
  {
    hide Lower, Strip;
    LeaderAt(s, t);
    var step := LeaderStep(t, s.threads[t].at.phase);
    assert After(s, step).threads[t].at != s.threads[t].at;
  }

  /** While any call is unfinished, some thread can go on, even if no cancellation ever fires. */
  lemma SomebodyCanGoOn(s: State, steps: seq<Step>, t: nat)
    requires Init(s) && Run(s, steps) && t in Final(s, steps).threads && !Final(s, steps).threads[t].at.Ended?
    ensures exists step :: Enabled(Final(s, steps), step) && After(Final(s, steps), step) != Final(s, steps)
  {
    InitInv(s);
    RunKeepsInv(s, steps);
    var now := Final(s, steps);
    hide Run, Final, Lower, Strip;
    var me := now.threads[t];
    assert ThreadInv(now, t, me);
    match me.at
    case Leading(_, _) => LeaderCanStep(now, t);
    case Calling => assert Enabled(now, Enter(t)) && After(now, Enter(t)).threads[t].at != me.at;
    case Waiting =>
      if me.Key() in now.active {
        assert ActiveInv(now, me.Key());
        LeaderCanStep(now, now.entries[now.active[me.Key()]].leader);
      } else {
        assert Enabled(now, Try(t, false)) && After(now, Try(t, false)).threads[t].at != me.at;
      }
    case Following(e) =>
      assert EntryInv(now, e);
      if now.entries[e].done {
        assert Enabled(now, Follow(t, false)) && After(now, Follow(t, false)).threads[t].at != me.at;
      } else {
        LeaderCanStep(now, now.entries[e].leader);
      }
  }

  // ---- what a call for a target meets ----

  /** Thread u is transferring something to the target. */
  ghost predicate Busy(s: State, key: string, u: nat) {
    u in s.threads && s.threads[u].at.Leading? && s.threads[u].Key() == key
  }

  /** The same destination is asked for with another size or content. */
  ghost predicate Clash(a: Identity, b: Identity) {
    a != b && a.category == b.category && SameUpToCase(a.name, b.name)
  }

  lemma DestinationsAlike(a: Identity, b: Identity)
    ensures a.DestinationKey() == b.DestinationKey() <==> a.category == b.category && SameUpToCase(a.name, b.name)
  {
    LowerAlike(a.name, b.name);
  }

  /** Two targets are the same if and only if they differ in case and white space around them alone. */
  lemma TargetsAlike(a: Thread, b: Thread, before: string, x: string, after: string, y: string)
    requires AllSpace(before) && Trimmed(x) && AllSpace(after) && a.target == before + x + after
    requires Trimmed(y) && b.target == y
    ensures a.Key() == b.Key() <==> SameUpToCase(x, y)
  {
    StripIsMiddle(before, x, after);
    TrimmedStays(y);
    LowerAlike(x, y);
  }

  /**
   * What becomes of a thread that waits for its turn: it transfers if nobody else does; it ends with a conflict exactly
   * if the transfer under way is for the same destination and another model; it follows exactly if that is for the same
   * model; otherwise it goes on waiting, unless its own check fires.
   */
  ghost predicate Meets(s: State, t: nat, cancelled: bool, next: Thread)
    requires t in s.threads
  {
    var me := s.threads[t];
    && ((forall u :: !Busy(s, me.Key(), u)) ==>
          next == me.(at := Leading(|s.entries|, Checking), joined := Some(|s.entries|)))
    && forall u | Busy(s, me.Key(), u) ::
         var other := s.threads[u];
         if Clash(other.identity, me.identity) then next == me.(at := Ended(Raised(Conflict), None))
         else if other.identity == me.identity then
           next == me.(at := Following(other.at.entry), joined := Some(other.at.entry))
         else if cancelled then next == me.(at := Ended(Raised(CancelledByCaller), None), fired := true)
         else next == me
  }

  lemma TryMeets(s: State, t: nat, cancelled: bool)
    requires Inv(s) && Enabled(s, Try(t, cancelled))
    ensures Meets(s, t, cancelled, After(s, Try(t, cancelled)).threads[t])
  {
    var me := s.threads[t];
    if me.Key() in s.active {
      assert ActiveInv(s, me.Key());
      var e := s.active[me.Key()];
      var leader := s.entries[e].leader;
      assert ThreadInv(s, leader, s.threads[leader]) && Busy(s, me.Key(), leader);
      assert s.threads[leader].identity == s.entries[e].identity;
      forall u | Busy(s, me.Key(), u) ensures u == leader { assert ThreadInv(s, u, s.threads[u]); }
      DestinationsAlike(s.entries[e].identity, me.identity);
      SameTransferSameDestination(s.entries[e].identity, me.identity);
    } else {
      forall u ensures !Busy(s, me.Key(), u) { if u in s.threads { assert ThreadInv(s, u, s.threads[u]); } }
    }
    hide Lower, Strip, PhaseFits, SameUpToCase;
  }
}
