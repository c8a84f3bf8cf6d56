/** The registry of live jobs by local prompt id: each job's cleanup takes it out again. */
module JobRegistry {

  /** `due` is how many removal callbacks the job's cleanup still has to run. */
  datatype Job = Job(key: string, registered: bool, cleaned: bool, callbacks: nat, due: nat)

  datatype State = State(jobs: map<nat, Job>, table: map<string, nat>)

  /** Registering is one step under the registry's lock; `Discard` is a call of `remove` from outside. */
  datatype Step = Register(j: nat) | Clean(j: nat) | RunRemoval(j: nat) | Discard(key: string)

  predicate Enabled(s: State, t: Step) {
    match t
    case Register(j) => j in s.jobs
    case Clean(j) => j in s.jobs && !s.jobs[j].cleaned
    case RunRemoval(j) => j in s.jobs && s.jobs[j].cleaned && s.jobs[j].due > 0
    case Discard(_) => true
  }

  /** Registering is refused if the id is taken, or if the job has been cleaned and takes no callback any more. */
  function After(s: State, t: Step): State
    requires Enabled(s, t)
  {
    match t
    case Register(j) =>
      var job := s.jobs[j];
      if job.key in s.table || job.cleaned then s
      else State(s.jobs[j := job.(registered := true, callbacks := job.callbacks + 1)], s.table[job.key := j])
    case Clean(j) => s.(jobs := s.jobs[j := s.jobs[j].(cleaned := true, due := s.jobs[j].callbacks)])
    case RunRemoval(j) => State(s.jobs[j := s.jobs[j].(due := s.jobs[j].due - 1)], s.table - {s.jobs[j].key})
    case Discard(key) => s.(table := s.table - {key})
  }

  predicate Run(s: State, steps: seq<Step>)
    decreases |steps|
  {
    steps == [] || (Enabled(s, steps[0]) && Run(After(s, steps[0]), steps[1..]))
  }

  function Final(s: State, steps: seq<Step>): State
    requires Run(s, steps)
    decreases |steps|
  {
    if steps == [] then s else Final(After(s, steps[0]), steps[1..])
  }

  predicate Init(s: State) {
    && s.table == map[]
    && forall j <- s.jobs ::
         var job := s.jobs[j];
         !job.registered && !job.cleaned && job.callbacks == 0 && job.due == 0
  }

  /** Every removal from outside names an id that is not listed at the time. */
  ghost predicate HarmlessDiscards(s: State, steps: seq<Step>)
    requires Run(s, steps)
    decreases |steps|
  {
    steps == [] || ((steps[0].Discard? ==> steps[0].key !in s.table)
                    && HarmlessDiscards(After(s, steps[0]), steps[1..]))
  }

  /** Registered, and its removal has not run yet. */
  predicate Listed(job: Job) { job.registered && (job.cleaned ==> job.due > 0) }

  /** The table lists exactly the registered jobs whose removal has not run, each under its own id. */
  ghost predicate Inv(s: State) {
    && (forall key <- s.table :: s.table[key] in s.jobs && s.jobs[s.table[key]].key == key
          && Listed(s.jobs[s.table[key]]))
    && (forall j <- s.jobs :: Listed(s.jobs[j]) ==> s.jobs[j].key in s.table && s.table[s.jobs[j].key] == j)
    && forall j <- s.jobs ::
         s.jobs[j].callbacks == (if s.jobs[j].registered then 1 else 0) && s.jobs[j].due <= s.jobs[j].callbacks
                             && (!s.jobs[j].cleaned ==> s.jobs[j].due == 0)
  }

  lemma StepKeepsInv(s: State, t: Step)
    requires Inv(s) && Enabled(s, t) && !t.Discard?
    ensures Inv(After(s, t))
  {
  }

  /** A removal from outside breaks the registry exactly if the id is listed: the job under it is then lost. */
  lemma DiscardHarmsListed(s: State, key: string)
    requires Inv(s)
    ensures Inv(After(s, Discard(key))) <==> key !in s.table
    ensures key in s.table ==>
              var lost := s.table[key];
              lost in s.jobs && Listed(s.jobs[lost]) && s.jobs[lost].key !in After(s, Discard(key)).table
  {
    if key in s.table {
      assert s.jobs[s.table[key]].key == key;
    } else {
      assert s.table - {key} == s.table;
    }
  }

  lemma {:induction false} RunKeepsInv(s: State, steps: seq<Step>)
    requires Inv(s) && Run(s, steps) && HarmlessDiscards(s, steps)
    ensures Inv(Final(s, steps))
    decreases |steps|
  {
    hide Inv;
    if steps != [] {
      if steps[0].Discard? { DiscardHarmsListed(s, steps[0].key); } else { StepKeepsInv(s, steps[0]); }
      RunKeepsInv(After(s, steps[0]), steps[1..]);
    }
  }

  /**
   * As long as removals from outside name no listed id, a look-up finds a job exactly while it is registered and its
   * removal has not run.
   */
  lemma LookUpFindsLiveJobs(s: State, steps: seq<Step>, j: nat)
    requires Init(s) && Run(s, steps) && HarmlessDiscards(s, steps) && j in Final(s, steps).jobs
    ensures var now := Final(s, steps);
            (now.jobs[j].key in now.table && now.table[now.jobs[j].key] == j) <==> Listed(now.jobs[j])
  {
    RunKeepsInv(s, steps);
  }

  ghost predicate Leads(s: State, steps: seq<Step>, last: State) {
    Run(s, steps) && Final(s, steps) == last
  }

  lemma OneStep(s: State, t: Step, next: State, steps: seq<Step>, last: State)
    requires Enabled(s, t) && After(s, t) == next && Leads(next, steps, last)
    ensures Leads(s, [t] + steps, last)
  {
    assert ([t] + steps)[1..] == steps;
  }

  /**
   * After a removal from outside, the first job's cleanup takes out a second job that has the same id and is still
   * live.
   */
  lemma DiscardLosesAJob()
    ensures exists s, steps, last :: Init(s) && Leads(s, steps, last)
              && 1 in last.jobs && last.jobs[1].registered && !last.jobs[1].cleaned && last.jobs[1].key !in last.table
  {
    var a, b := Job("p", false, false, 0, 0), Job("p", true, false, 1, 0);
    var cleaned := Job("p", true, true, 1, 1);
    var s0 := State(map[0 := a, 1 := a], map[]);
    var s1 := State(map[0 := b, 1 := a], map["p" := 0]);
    var s2 := State(map[0 := b, 1 := a], map[]);
    var s3 := State(map[0 := b, 1 := b], map["p" := 1]);
    var s4 := State(map[0 := cleaned, 1 := b], map["p" := 1]);
    var s5 := State(map[0 := cleaned.(due := 0), 1 := b], map[]);
    assert Leads(s5, [], s5) && Init(s0);
    hide Leads, Init;
    OneStep(s4, RunRemoval(0), s5, [], s5);
    OneStep(s3, Clean(0), s4, [RunRemoval(0)] + [], s5);
    OneStep(s2, Register(1), s3, [Clean(0)] + ([RunRemoval(0)] + []), s5);
    OneStep(s1, Discard("p"), s2, [Register(1)] + ([Clean(0)] + ([RunRemoval(0)] + [])), s5);
    OneStep(s0, Register(0), s1, [Discard("p")] + ([Register(1)] + ([Clean(0)] + ([RunRemoval(0)] + []))), s5);
  }
}
