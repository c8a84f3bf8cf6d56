/** How calls for transfers end, said by what happened in a run of the transfer coordinator. */
module TransferOutcomes {
  import opened Wrappers
  import opened BoundaryTypes
  import opened Transfers

  /** Says something of a step and the state in which it is made. */
  type Mark = (State, Step) -> bool

  /** Some step of the run is marked. */
  ghost predicate Happened(s: State, steps: seq<Step>, mark: Mark) {
    exists k :: 0 <= k < |steps| && HappenedAt(s, steps, mark, k)
  }

  ghost predicate HappenedAt(s: State, steps: seq<Step>, mark: Mark, k: nat)
    requires k < |steps|
  {
    Run(s, steps[..k]) && mark(Final(s, steps[..k]), steps[k])
  }

  lemma {:induction false} LastStep(s: State, steps: seq<Step>, x: Step)
    requires Run(s, steps + [x])
    ensures Run(s, steps) && Enabled(Final(s, steps), x) && Final(s, steps + [x]) == After(Final(s, steps), x)
    decreases |steps|
  {
    assert (steps + [x])[1..] == if steps == [] then [] else steps[1..] + [x];
    if steps != [] { LastStep(After(s, steps[0]), steps[1..], x); }
  }

  lemma HappenedNext(s: State, steps: seq<Step>, x: Step, mark: Mark)
    requires Run(s, steps)
    ensures Happened(s, steps + [x], mark) <==> mark(Final(s, steps), x) || Happened(s, steps, mark)
  {
    var more := steps + [x];
    assert more[..|steps|] == steps && more[|steps|] == x;
    assert HappenedAt(s, more, mark, |steps|) <==> mark(Final(s, steps), x);
    forall k | 0 <= k < |steps| ensures HappenedAt(s, more, mark, k) <==> HappenedAt(s, steps, mark, k) {
      assert more[..k] == steps[..k] && more[k] == steps[k];
    }
  }

  // ---- what can happen to a thread ----

  /** It meets a transfer of another model to its own destination. */
  ghost predicate MeetsClash(s: State, x: Step, t: nat) {
    && x.Try? && x.t == t && t in s.threads
    && exists u :: Busy(s, s.threads[t].Key(), u) && Clash(s.threads[u].identity, s.threads[t].identity)
  }

  /** It finds its target free, or busy with the same model. */
  ghost predicate MeetsPartner(s: State, x: Step, t: nat) {
    && x.Try? && x.t == t && t in s.threads
    && forall u :: Busy(s, s.threads[t].Key(), u) ==> s.threads[u].identity == s.threads[t].identity
  }

  /** Its own check fires while it waits for another destination, or for the end of the transfer that it follows. */
  ghost predicate Fires(s: State, x: Step, t: nat) {
    && x.t == t && t in s.threads
    && if x.Try? then x.cancelled && !MeetsClash(s, x, t) && !MeetsPartner(s, x, t)
       else
         && x.Follow? && x.cancelled && s.threads[t].at.Following? && s.threads[t].at.entry < |s.entries|
         && !s.entries[s.threads[t].at.entry].done
  }

  ghost function Clashes(t: nat): Mark { (s: State, x: Step) => MeetsClash(s, x, t) }
  ghost function Joins(t: nat): Mark { (s: State, x: Step) => MeetsPartner(s, x, t) }
  ghost function Fired(t: nat): Mark { (s: State, x: Step) => Fires(s, x, t) }

  /** What has happened to a thread is what it shows. */
  ghost predicate Shows(s0: State, steps: seq<Step>, t: nat, me: Thread) {
    && (me.at == Ended(Raised(Conflict), None) <==> Happened(s0, steps, Clashes(t)))
    && (me.joined.Some? <==> Happened(s0, steps, Joins(t)))
    && (me.fired <==> Happened(s0, steps, Fired(t)))
    && (me.at.Calling? <==> Enter(t) !in steps)
  }

  /** One step, for the thread that makes it. */
  lemma StepShows(s: State, x: Step)
    requires Inv(s) && Enabled(s, x)
    ensures var me, next := s.threads[x.t], After(s, x).threads[x.t];
            && (next.at == Ended(Raised(Conflict), None) <==>
                  me.at == Ended(Raised(Conflict), None) || MeetsClash(s, x, x.t))
            && (next.joined.Some? <==> me.joined.Some? || MeetsPartner(s, x, x.t))
            && (next.fired <==> me.fired || Fires(s, x, x.t))
            && (next.at.Calling? <==> me.at.Calling? && x != Enter(x.t))
  {
    var t, me := x.t, s.threads[x.t];
    assert ThreadInv(s, t, me);
    if x.Try? {
      TryMeets(s, t, x.cancelled);
      OneBusy(s, me.Key());
      hide After, Inv, Busy, Clash, Lower, Strip;
    } else {
      assert !MeetsClash(s, x, t) && !MeetsPartner(s, x, t);
      hide MeetsClash, MeetsPartner, Inv, Lower, Strip, PhaseFits;
      if me.at.Following? { assert EntryInv(s, me.at.entry) by { FollowedIsThere(s, t); } }
    }
  }

  lemma FollowedIsThere(s: State, t: nat)
    requires Inv(s) && t in s.threads && s.threads[t].at.Following?
    ensures s.threads[t].at.entry < |s.entries| && EntryInv(s, s.threads[t].at.entry)
  {
    assert ThreadInv(s, t, s.threads[t]);
  }

  lemma OneBusy(s: State, key: string)
    requires Inv(s)
    ensures forall u, v :: Busy(s, key, u) && Busy(s, key, v) ==> u == v
  {
    forall u, v | Busy(s, key, u) && Busy(s, key, v) ensures u == v {
      assert ThreadInv(s, u, s.threads[u]) && ThreadInv(s, v, s.threads[v]);
    }
  }

  // ---- what a leader makes of its entry ----

  ghost predicate Leads(s: State, t: nat, e: nat) { e < |s.entries| && s.entries[e].leader == t }

  /** The leader's steps so far, by the phase that it is in. */
  ghost predicate PhaseTold(steps: seq<Step>, t: nat, at: Stage) {
    at.Leading? ==>
      && (at.phase.Checking? ==> Check(t, true) !in steps && Check(t, false) !in steps)
      && (at.phase.Transferring? ==> Check(t, false) in steps)
      && (at.phase.Checking? || at.phase.Transferring? ==> forall o :: CallbackEnds(t, o) !in steps)
      && (at.phase.CheckingAgain? ==> forall o :: CallbackEnds(t, o) in steps <==> o == Got(at.phase.result))
      && (at.phase.Checking? || at.phase.Transferring? || at.phase.CheckingAgain? ==>
            Check(t, true) !in steps && CheckAgain(t, true) !in steps && CheckAgain(t, false) !in steps)
  }

  /**
   * The outcome of an entry is what its leader's steps made it: the callback's result if the callback gave one and the
   * leader's check after it did not fire; the callback's error; or a cancellation if one of the leader's checks fired.
   */
  ghost predicate OutcomeTold(steps: seq<Step>, entry: Entry) {
    var t := entry.leader;
    && (forall r :: entry.outcome == Some(Got(r)) <==>
          CallbackEnds(t, Got(r)) in steps && CheckAgain(t, false) in steps)
    && (forall c :: entry.outcome == Some(Raised(CallbackFailed(c))) <==>
                    CallbackEnds(t, Raised(CallbackFailed(c))) in steps)
    && (entry.outcome == Some(Raised(CancelledByCaller)) <==> Check(t, true) in steps || CheckAgain(t, true) in steps)
    && (entry.outcome.Some? && entry.outcome.value.Raised? ==>
          entry.outcome.value.error.CallbackFailed? || entry.outcome.value.error.CancelledByCaller?)
    && (entry.calls == if Check(t, false) in steps then 1 else 0)
    && (entry.done <==> SetDone(t) in steps)
  }

  /** A thread that has led nothing has made none of a leader's steps. */
  ghost predicate NoLeaderStep(steps: seq<Step>, t: nat) {
    && Check(t, true) !in steps && Check(t, false) !in steps && CheckAgain(t, true) !in steps
    && CheckAgain(t, false) !in steps && SetDone(t) !in steps && forall o :: CallbackEnds(t, o) !in steps
  }

  ghost predicate LedTold(s: State, steps: seq<Step>, t: nat)
    requires t in s.threads
  {
    && PhaseTold(steps, t, s.threads[t].at)
    && (forall e: nat :: Leads(s, t, e) ==> OutcomeTold(steps, s.entries[e]))
    && ((forall e: nat :: !Leads(s, t, e)) ==> NoLeaderStep(steps, t))
  }

  lemma OthersLedTold(s: State, steps: seq<Step>, x: Step, t: nat)
    requires Inv(s) && Enabled(s, x) && t in s.threads && t != x.t && LedTold(s, steps, t)
    ensures t in After(s, x).threads && LedTold(After(s, x), steps + [x], t)
  {
    var next := After(s, x);
    assert ThreadInv(s, x.t, s.threads[x.t]);
    OthersEntries(s, x, t);
    OthersLabels(steps, x, t, s.threads[t].at);
    forall e: nat | Leads(s, t, e) ensures OutcomeTold(steps + [x], s.entries[e]) {
      OthersOutcome(steps, x, s.entries[e]);
    }
    assert next.threads[t] == s.threads[t];
    hide After, Inv, ThreadInv, PhaseTold, OutcomeTold, NoLeaderStep;
  }

  lemma OthersLabels(steps: seq<Step>, x: Step, t: nat, at: Stage)
    requires x.t != t && PhaseTold(steps, t, at)
    ensures PhaseTold(steps + [x], t, at) && (NoLeaderStep(steps, t) ==> NoLeaderStep(steps + [x], t))
  {
    forall y: Step | y.t == t ensures y in steps + [x] <==> y in steps { }
  }

  lemma OthersOutcome(steps: seq<Step>, x: Step, entry: Entry)
    requires x.t != entry.leader && OutcomeTold(steps, entry)
    ensures OutcomeTold(steps + [x], entry)
  {
    forall y: Step | y.t == entry.leader ensures y in steps + [x] <==> y in steps { }
  }

  /** The entries that a thread leads change by its own steps alone. */
  lemma OthersEntries(s: State, x: Step, t: nat)
    requires Enabled(s, x) && t != x.t && ThreadInv(s, x.t, s.threads[x.t])
    ensures var next := After(s, x);
            forall e: nat ::
              (Leads(next, t, e) <==> Leads(s, t, e)) && (Leads(s, t, e) ==> next.entries[e] == s.entries[e])
  {
    hide Lower, Strip, Identity.TransferKey, Identity.DestinationKey;
  }

  /** A thread leads an entry only while it is at it, or after it has ended. */
  lemma LeadsOnlyHere(s: State, t: nat)
    requires Inv(s) && t in s.threads
    ensures forall e: nat :: Leads(s, t, e) ==>
              || (s.threads[t].at.Leading? && s.threads[t].at.entry == e)
              || (s.threads[t].at.Ended? && s.threads[t].at.via == Some(e))
    ensures s.threads[t].at.Leading? ==> Leads(s, t, s.threads[t].at.entry)
  {
    forall e: nat | Leads(s, t, e)
      ensures || (s.threads[t].at.Leading? && s.threads[t].at.entry == e)
              || (s.threads[t].at.Ended? && s.threads[t].at.via == Some(e))
    {
      assert EntryInv(s, e);
    }
    assert ThreadInv(s, t, s.threads[t]);
    hide Inv, PhaseFits;
  }

  predicate LeaderStepOf(x: Step) { x.Check? || x.CallbackEnds? || x.CheckAgain? || x.SetDone? }

  /** A step that is no leader's adds none to the leader's steps. */
  lemma IdleLabels(steps: seq<Step>, x: Step, t: nat, at: Stage)
    requires !LeaderStepOf(x) && PhaseTold(steps, t, at)
    ensures PhaseTold(steps + [x], t, at) && (NoLeaderStep(steps, t) <==> NoLeaderStep(steps + [x], t))
  {
    forall y: Step | LeaderStepOf(y) ensures y in steps + [x] <==> y in steps { }
  }

  lemma NewOutcome(steps: seq<Step>, t: nat, entry: Entry)
    requires NoLeaderStep(steps, t) && entry.leader == t && entry.outcome.None? && !entry.done && entry.calls == 0
    ensures OutcomeTold(steps, entry) && forall e: nat :: PhaseTold(steps, t, Leading(e, Checking))
  {
  }

  lemma WaiterLedTold(s: State, steps: seq<Step>, x: Step)
    requires Inv(s) && Enabled(s, x) && LedTold(s, steps, x.t) && !s.threads[x.t].at.Leading?
    ensures LedTold(After(s, x), steps + [x], x.t)
  {
    var t, at, next := x.t, s.threads[x.t].at, After(s, x);
    LeadsOnlyHere(s, t);
    assert ThreadInv(s, t, s.threads[t]);
    assert !LeaderStepOf(x);
    IdleLabels(steps, x, t, at);
    WaiterEntries(s, x);
    if |next.entries| > |s.entries| {
      NewOutcome(steps + [x], t, next.entries[|s.entries|]);
    }
    hide After, Inv, ThreadInv, OutcomeTold, NoLeaderStep;
  }

  /** A thread that leads nothing leaves the entries, or adds one that it leads from now on. */
  lemma WaiterEntries(s: State, x: Step)
    requires Enabled(s, x) && !s.threads[x.t].at.Leading?
    ensures var next := After(s, x);
            || (next.entries == s.entries && !next.threads[x.t].at.Leading?)
            || (&& |next.entries| == |s.entries| + 1 && next.entries[..|s.entries|] == s.entries
                && next.threads[x.t].at == Leading(|s.entries|, Checking)
                && var entry := next.entries[|s.entries|];
                   entry.leader == x.t && entry.outcome.None? && !entry.done && entry.calls == 0)
  {
    hide Lower, Strip, Identity.TransferKey, Identity.DestinationKey;
  }

  /** What is told of an entry and of its leader's phase. */
  ghost predicate Makes(steps: seq<Step>, s: State, t: nat, e: nat) {
    t in s.threads && e < |s.entries| && OutcomeTold(steps, s.entries[e]) && PhaseTold(steps, t, s.threads[t].at)
  }

  /** A step of a leader, for its entry and its phase. */
  lemma LeaderMakes(steps: seq<Step>, s: State, x: Step)
    requires Enabled(s, x) && s.threads[x.t].at.Leading? && s.threads[x.t].at.entry < |s.entries|
    requires var me := s.threads[x.t].at;
             && s.entries[me.entry].leader == x.t && PhaseFits(s.entries[me.entry], me.phase)
             && OutcomeTold(steps, s.entries[me.entry]) && PhaseTold(steps, x.t, me)
    ensures Makes(steps + [x], After(s, x), x.t, s.threads[x.t].at.entry)
  {
    hide After, PhaseFits, PhaseTold, OutcomeTold, Makes;
    match x {
      case Check(_, _) => CheckMakes(steps, s, x);
      case CallbackEnds(_, _) => CallbackMakes(steps, s, x);
      case CheckAgain(_, _) => CheckAgainMakes(steps, s, x);
      case SetDone(_) => DoneMakes(steps, s, x);
      case Remove(_) => RemoveMakes(steps, s, x);
      case _ => assert false;
    }
  }

  lemma CheckMakes(steps: seq<Step>, s: State, x: Step)
    requires Enabled(s, x) && s.threads[x.t].at.Leading? && s.threads[x.t].at.entry < |s.entries|
    requires var me := s.threads[x.t].at;
             && s.entries[me.entry].leader == x.t && PhaseFits(s.entries[me.entry], me.phase)
             && OutcomeTold(steps, s.entries[me.entry]) && PhaseTold(steps, x.t, me)
    requires x.Check?
    ensures Makes(steps + [x], After(s, x), x.t, s.threads[x.t].at.entry)
  {
    forall y ensures y in steps + [x] <==> y in steps || y == x { }
    hide Lower, Strip;
  }

  lemma CallbackMakes(steps: seq<Step>, s: State, x: Step)
    requires Enabled(s, x) && s.threads[x.t].at.Leading? && s.threads[x.t].at.entry < |s.entries|
    requires var me := s.threads[x.t].at;
             && s.entries[me.entry].leader == x.t && PhaseFits(s.entries[me.entry], me.phase)
             && OutcomeTold(steps, s.entries[me.entry]) && PhaseTold(steps, x.t, me)
    requires x.CallbackEnds?
    ensures Makes(steps + [x], After(s, x), x.t, s.threads[x.t].at.entry)
  {
    forall y ensures y in steps + [x] <==> y in steps || y == x { }
    hide Lower, Strip;
  }

  lemma CheckAgainMakes(steps: seq<Step>, s: State, x: Step)
    requires Enabled(s, x) && s.threads[x.t].at.Leading? && s.threads[x.t].at.entry < |s.entries|
    requires var me := s.threads[x.t].at;
             && s.entries[me.entry].leader == x.t && PhaseFits(s.entries[me.entry], me.phase)
             && OutcomeTold(steps, s.entries[me.entry]) && PhaseTold(steps, x.t, me)
    requires x.CheckAgain?
    ensures Makes(steps + [x], After(s, x), x.t, s.threads[x.t].at.entry)
  {
    forall y ensures y in steps + [x] <==> y in steps || y == x { }
    hide Lower, Strip;
  }

  lemma DoneMakes(steps: seq<Step>, s: State, x: Step)
    requires Enabled(s, x) && s.threads[x.t].at.Leading? && s.threads[x.t].at.entry < |s.entries|
    requires var me := s.threads[x.t].at;
             && s.entries[me.entry].leader == x.t && PhaseFits(s.entries[me.entry], me.phase)
             && OutcomeTold(steps, s.entries[me.entry]) && PhaseTold(steps, x.t, me)
    requires x.SetDone?
    ensures Makes(steps + [x], After(s, x), x.t, s.threads[x.t].at.entry)
  {
    forall y ensures y in steps + [x] <==> y in steps || y == x { }
    hide Lower, Strip;
  }

  lemma RemoveMakes(steps: seq<Step>, s: State, x: Step)
    requires Enabled(s, x) && s.threads[x.t].at.Leading? && s.threads[x.t].at.entry < |s.entries|
    requires var me := s.threads[x.t].at;
             && s.entries[me.entry].leader == x.t && PhaseFits(s.entries[me.entry], me.phase)
             && OutcomeTold(steps, s.entries[me.entry]) && PhaseTold(steps, x.t, me)
    requires x.Remove?
    ensures Makes(steps + [x], After(s, x), x.t, s.threads[x.t].at.entry)
  {
    forall y ensures y in steps + [x] <==> y in steps || y == x { }
    hide Lower, Strip;
  }

  lemma LeaderLedTold(s: State, steps: seq<Step>, x: Step)
    requires Inv(s) && Enabled(s, x) && LedTold(s, steps, x.t) && s.threads[x.t].at.Leading?
    ensures LedTold(After(s, x), steps + [x], x.t)
  {
    var t, e, next := x.t, s.threads[x.t].at.entry, After(s, x);
    LeadsOnlyHere(s, t);
    assert ThreadInv(s, t, s.threads[t]) && Leads(s, t, e);
    LeaderMakes(steps, s, x);
    LeaderEntries(s, x);
    hide After, Inv, ThreadInv, OutcomeTold, NoLeaderStep, PhaseTold, PhaseFits;
    assert Leads(next, t, e);
    forall d: nat | Leads(next, t, d) ensures d == e { assert d != e ==> Leads(s, t, d); }
  }

  lemma LeaderEntries(s: State, x: Step)
    requires Enabled(s, x) && s.threads[x.t].at.Leading? && s.threads[x.t].at.entry < |s.entries|
    ensures var e, next := s.threads[x.t].at.entry, After(s, x).entries;
            && |next| == |s.entries| && next[e].leader == s.entries[e].leader
            && forall d: nat :: d < |next| && d != e ==> next[d] == s.entries[d]
  {
    hide Lower, Strip;
  }

  /** What is told of every thread, and of the entry it leads, by the steps of a run. */
  ghost predicate Told(s0: State, steps: seq<Step>, s: State, t: nat) {
    t in s.threads && Shows(s0, steps, t, s.threads[t]) && LedTold(s, steps, t)
  }

  lemma StepTold(s0: State, steps: seq<Step>, x: Step, t: nat)
    requires Run(s0, steps) && Enabled(Final(s0, steps), x) && Inv(Final(s0, steps))
    requires Told(s0, steps, Final(s0, steps), t)
    ensures Told(s0, steps + [x], After(Final(s0, steps), x), t)
  {
    var s := Final(s0, steps);
    hide Run, Final, Inv, After, LedTold, Shows;
    ShowsNext(s0, steps, x, t);
    if t != x.t {
      OthersLedTold(s, steps, x, t);
    } else if s.threads[t].at.Leading? {
      LeaderLedTold(s, steps, x);
    } else {
      WaiterLedTold(s, steps, x);
    }
  }

  lemma ShowsNext(s0: State, steps: seq<Step>, x: Step, t: nat)
    requires Run(s0, steps) && Enabled(Final(s0, steps), x) && Inv(Final(s0, steps))
    requires t in Final(s0, steps).threads && Shows(s0, steps, t, Final(s0, steps).threads[t])
    ensures var next := After(Final(s0, steps), x).threads; t in next && Shows(s0, steps + [x], t, next[t])
  {
    var s := Final(s0, steps);
    hide Run, Final, Happened, Inv, Fires, MeetsClash, MeetsPartner, After;
    HappensNext(s0, steps, x, t);
    if t == x.t { StepShows(s, x); } else { OthersStand(s, x, t); }
  }

  lemma HappensNext(s0: State, steps: seq<Step>, x: Step, t: nat)
    requires Run(s0, steps)
    ensures var s, more := Final(s0, steps), steps + [x];
            && (Happened(s0, more, Clashes(t)) <==> MeetsClash(s, x, t) || Happened(s0, steps, Clashes(t)))
            && (Happened(s0, more, Joins(t)) <==> MeetsPartner(s, x, t) || Happened(s0, steps, Joins(t)))
            && (Happened(s0, more, Fired(t)) <==> Fires(s, x, t) || Happened(s0, steps, Fired(t)))
            && (Enter(t) in more <==> Enter(t) in steps || x == Enter(t))
  {
    HappenedNext(s0, steps, x, Clashes(t));
    HappenedNext(s0, steps, x, Joins(t));
    HappenedNext(s0, steps, x, Fired(t));
    hide Run, Final, Happened, Fires, MeetsClash, MeetsPartner;
  }

  lemma OthersStand(s: State, x: Step, t: nat)
    requires Enabled(s, x) && t in s.threads && t != x.t
    ensures t in After(s, x).threads && After(s, x).threads[t] == s.threads[t]
    ensures !MeetsClash(s, x, t) && !MeetsPartner(s, x, t) && !Fires(s, x, t)
  {
    hide Lower, Strip;
  }

  lemma {:induction false} RunTold(s0: State, steps: seq<Step>, t: nat)
    requires Init(s0) && Run(s0, steps) && t in s0.threads
    ensures Inv(Final(s0, steps)) && Told(s0, steps, Final(s0, steps), t)
    decreases |steps|
  {
    InitInv(s0);
    if steps == [] {
      NothingTold(s0, t);
    } else {
      var before, x := steps[..|steps| - 1], steps[|steps| - 1];
      assert steps == before + [x];
      LastStep(s0, before, x);
      RunTold(s0, before, t);
      hide Told, Inv, Init, Run, After;
      StepKeepsInv(Final(s0, before), x);
      StepTold(s0, before, x, t);
    }
  }

  lemma NothingTold(s: State, t: nat)
    requires Init(s) && t in s.threads
    ensures Told(s, [], s, t)
  {
  }

  // ---- every run ----

  /** How a call has ended, by what happened to it. */
  ghost predicate EndIs(s0: State, steps: seq<Step>, t: nat, me: Thread)
    requires me.at.Ended?
  {
    var outcome := me.at.outcome;
    && (outcome == Raised(NoHash) <==> me.identity.sha256.None?)
    && (outcome == Raised(NoTarget) <==> me.identity.sha256.Some? && AllSpace(me.target))
    && (outcome == Raised(Conflict) <==> Happened(s0, steps, Clashes(t)))
    && (me.at.via.None? && outcome == Raised(CancelledByCaller) <==> Happened(s0, steps, Fired(t)))
    && (me.at.via.Some? <==> Happened(s0, steps, Joins(t)) && !Happened(s0, steps, Fired(t)))
  }

  /**
   * How a call ends. It is refused exactly for a model without a hash or a blank target. It ends with a conflict if and
   * only if it met a transfer under way to its target for the same destination and another model; a call that met
   * another destination waited, unless its own check fired. Otherwise it ends with the outcome of the entry it led or
   * followed, unless its own check fired while it followed.
   */
  lemma CallEnds(s0: State, steps: seq<Step>, t: nat)
    requires Init(s0) && Run(s0, steps) && t in s0.threads
    requires t in Final(s0, steps).threads && Final(s0, steps).threads[t].at.Ended?
    ensures EndIs(s0, steps, t, Final(s0, steps).threads[t])
  {
    RunTold(s0, steps, t);
    RunKeepsThreads(s0, steps);
    var now := Final(s0, steps);
    EndsAre(now, t);
    if now.threads[t].at.via.Some? {
      RunTold(s0, steps, now.entries[now.threads[t].at.via.value].leader);
      assert Leads(now, now.entries[now.threads[t].at.via.value].leader, now.threads[t].at.via.value);
    }
    hide *;
    EndsFrom(s0, steps, now, t);
  }

  lemma EndsFrom(s0: State, steps: seq<Step>, now: State, t: nat)
    requires Told(s0, steps, now, t) && now.threads[t].at.Ended? && ThreadInv(now, t, now.threads[t])
    requires now.threads[t].at.via.Some? ==> OutcomeTold(steps, now.entries[now.threads[t].at.via.value])
    ensures EndIs(s0, steps, t, now.threads[t])
  {
    BlankExactly(now.threads[t].target);
    hide Happened, LedTold, Lower, Strip, AllSpace;
  }

  /** A thread leads what another takes the outcome of. */
  lemma EndsAre(s: State, t: nat)
    requires Inv(s) && t in s.threads && s.threads[t].at.Ended?
    ensures ThreadInv(s, t, s.threads[t])
    ensures s.threads[t].at.via.Some? ==>
              s.threads[t].at.via.value < |s.entries| && s.entries[s.threads[t].at.via.value].leader in s.threads
  {
    assert ThreadInv(s, t, s.threads[t]);
    if s.threads[t].at.via.Some? { assert EntryInv(s, s.threads[t].at.via.value); }
  }

  lemma {:induction false} RunKeepsThreads(s: State, steps: seq<Step>)
    requires Run(s, steps)
    ensures Final(s, steps).threads.Keys == s.threads.Keys
    decreases |steps|
  {
    if steps != [] {
      if After(s, steps[0]) != s { StepsGoForward(s, steps[0]); }
      hide After;
      RunKeepsThreads(After(s, steps[0]), steps[1..]);
    }
  }

  /** What the callback and the checks of the leader gave is what everybody gets who took the outcome of its entry. */
  lemma OutcomeIsTheLeaders(s0: State, steps: seq<Step>, t: nat)
    requires Init(s0) && Run(s0, steps) && t in s0.threads
    requires t in Final(s0, steps).threads && Final(s0, steps).threads[t].at.Ended?
    requires Final(s0, steps).threads[t].at.via.Some?
    ensures var now := Final(s0, steps); var e := now.threads[t].at.via.value;
            && e < |now.entries| && now.entries[e].outcome == Some(now.threads[t].at.outcome)
            && OutcomeTold(steps, now.entries[e]) && now.entries[e].identity == now.threads[t].identity
            && now.entries[e].target == now.threads[t].Key()
  {
    RunTold(s0, steps, t);
    RunKeepsThreads(s0, steps);
    var now := Final(s0, steps);
    EndsAre(now, t);
    RunTold(s0, steps, now.entries[now.threads[t].at.via.value].leader);
    assert Leads(now, now.entries[now.threads[t].at.via.value].leader, now.threads[t].at.via.value);
    hide Run, Final, Inv, Init, OutcomeTold, Shows;
  }
}
