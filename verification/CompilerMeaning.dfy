/**
 * Compiling all groups, one after another into the same prompt, and pruning what is no
 * longer needed: every value is kept, locally and on the remote machines.
 */
module CompilerMeaning {
  import opened Prompts
  import opened Contract
  import opened Editor
  import opened Semantics
  import opened GroupCode
  import opened Agreement
  import opened UnitMeaning
  import opened StepMeaning
  import opened Scheduling
  import opened Prune

  /** The prompts before, between and after the groups' compilations. */
  ghost predicate CompiledThrough(proj: Projection, stages: seq<Prompt>, units: seq<Unit>) {
    |stages| == |units| + 1 && forall i :: 0 <= i < |units| ==> Compiled(proj, stages[i], units[i], stages[i + 1])
  }

  function GroupsOf(units: seq<Unit>): (gs: seq<Group>)
    ensures |gs| == |units| && forall i :: 0 <= i < |gs| ==> gs[i] == units[i].group
  {
    seq(|units|, i requires 0 <= i < |units| => units[i].group)
  }

  /** Compiling one group leaves a later group ready. */
  lemma StaysReady(proj: Projection, p: Prompt, u: Unit, c: Prompt, g: Group, rank: map<string, nat>)
    requires Compiled(proj, p, u, c) && NoCapture(p, u) && Ready(p, g, rank) && g.Remote() !! u.group.inside
    ensures Ready(c, g, rank)
  {
    hide Compiled, NoCapture, NoBoundaryOfItsOwn, Node.LiteralAt;
    forall id <- g.Remote() ensures id in c.nodes && NoBoundaryOfItsOwn(c.nodes[id]) {
      SurvivorNode(proj, p, u, c, id);
      SameBoundary(p.nodes[id], c.nodes[id]);
    }
    forall id, name, src, slot | id in g.Remote() && src in g.Remote() && HasLink(c, id, name, src, slot)
      ensures HasLink(p, id, name, src, slot)
    {
      StillLinked(proj, p, u, c, id, name, src, slot);
    }
  }

  lemma SameBoundary(m: Node, n: Node)
    requires m.kind == n.kind && forall name :: m.LiteralAt(name) == n.LiteralAt(name)
    ensures NoBoundaryOfItsOwn(m) <==> NoBoundaryOfItsOwn(n)
  {
  }

  lemma StillLinked(proj: Projection, p: Prompt, u: Unit, c: Prompt, id: string, name: InputName, src: string,
                    slot: nat)
    requires Compiled(proj, p, u, c) && NoCapture(p, u) && HasLink(c, id, name, src, slot)
    requires {id, src} <= p.nodes.Keys && id !in u.group.inside
    ensures HasLink(p, id, name, src, slot)
  {
    hide Compiled, NoCapture, IsOutlet, Unit.IsDecoder, HasLink;
    var o := LinkOrigin(proj, p, u, c, id, name, src, slot);
    GeneratedIsNew(proj, p, u, c);
    if o.FromGroup? { OutletIsNew(proj, p, u, c, src); }
  }

  // ---- what is known of a group that has been compiled ----

  /** The wrapper's request, under a valuation of the prompt it stands in. */
  ghost function RequestAt(u: Unit, p: Prompt, val: Valuation): Env
    requires u.wrapper in p.nodes && DistinctNames(InPortList(u.inbound))
  {
    RequestOf(u, ArgsOf(p, p.nodes[u.wrapper], val))
  }

  /** The wrapper in `p` is an executor node that runs the unit's workflow. */
  ghost predicate IsWrapperOf(u: Unit, p: Prompt) {
    && u.wrapper in p.nodes
    && var n := p.nodes[u.wrapper];
       && IsExecutor(n.kind) && CanRun(n)
       && n.LiteralAt(RemoteWorkflowJson) == Workflow(u.workflow)
       && n.LiteralAt(InputPortsJson) == Ports(InPortList(u.inbound))
       && DistinctNames(InPortList(u.inbound))
  }

  /** Sent the wrapper's inputs, the remote machine computes every copy's original value. */
  ghost predicate CopiesAgree(I: Interp, u: Unit, p: Prompt, val: Valuation, original: Valuation) {
    && IsWrapperOf(u, p) && Acyclic(u.workflow) && u.group.Remote() <= u.workflow.nodes.Keys
    && forall id, slot :: id in u.group.Remote() ==>
         ValueOf(I, u.workflow, RequestAt(u, p, val), id, slot) == original(id, slot)
  }

  lemma FreshWrapper(I: Interp, proj: Projection, p: Prompt, env: Env, val: Valuation, rank: map<string, nat>,
                     u: Unit, c: Prompt)
    requires Step(I, proj, p, env, val, rank, u, c)
    ensures IsWrapperOf(u, c)
  {
    hide Step, CanRun, WrapperNode, InPortList, DistinctNames;
    StepIsCompiled(I, proj, p, env, val, rank, u, c);
    WrapperIs(proj, p, u, c);
    InPortsReadBack(proj, p, u);
    WrapperCanRun(I, proj, p, env, val, rank, u, c);
    WrapperNodeFacts(u);
  }

  lemma NewCopiesAgree(I: Interp, proj: Projection, p: Prompt, env: Env, val: Valuation, rank: map<string, nat>,
                       u: Unit, c: Prompt)
    requires Step(I, proj, p, env, val, rank, u, c)
    ensures CopiesAgree(I, u, c, After(I, env, val, u, c), val)
  {
    hide Step, Compiled, NoCapture, Ready, Solves, GoodNames, GoodInPorts, GoodOutPorts, IsWorkflow, CarriesSources,
      After, WrapperNode, RequestOf, IsExecutor, CanRun, RequestFor, InPortList, DistinctNames;
    StepIsCompiled(I, proj, p, env, val, rank, u, c);
    FreshWrapper(I, proj, p, env, val, rank, u, c);
    WrapperReads(I, proj, p, env, val, u, c);
    RequestIsRight(u, val, ArgsOf(c, WrapperNode(u), After(I, env, val, u, c)));
    WorkflowComputes(I, proj, p, env, u, RequestAt(u, c, After(I, env, val, u, c)), val, rank);
  }

  lemma SameWrapper(u: Unit, p: Prompt, c: Prompt)
    requires IsWrapperOf(u, p) && u.wrapper in c.nodes
    requires c.nodes[u.wrapper].kind == p.nodes[u.wrapper].kind
    requires forall name :: c.nodes[u.wrapper].LiteralAt(name) == p.nodes[u.wrapper].LiteralAt(name)
    ensures IsWrapperOf(u, c)
  {
    hide DistinctNames, InPortList, ExecutorAccepts, Acyclic;
  }

  /** A compiled group stays in agreement as long as its wrapper's inputs keep their worth. */
  lemma CopiesStillAgree(I: Interp, u: Unit, p: Prompt, val: Valuation, c: Prompt, after: Valuation,
                         original: Valuation)
    requires CopiesAgree(I, u, p, val, original) && IsWrapperOf(u, c)
    requires ArgsOf(c, c.nodes[u.wrapper], after) == ArgsOf(p, p.nodes[u.wrapper], val)
    ensures CopiesAgree(I, u, c, after, original)
  {
    hide IsExecutor, CanRun, RequestOf, InPortList, DistinctNames, ArgsOf, ValueOf;
    assert RequestAt(u, c, after) == RequestAt(u, p, val);
  }

  // ---- all groups ----

  ghost predicate GroupedBefore(units: seq<Unit>, k: nat, id: string)
    requires k <= |units|
  {
    exists i :: 0 <= i < k && id in units[i].group.inside
  }

  /** Nodes not yet taken out of the prompt are there with their original values. */
  ghost predicate SurvivorsAgree(p: Prompt, original: Valuation, units: seq<Unit>, k: nat, stage: Prompt,
                                 val: Valuation)
    requires k <= |units|
  {
    && (forall id :: id in p.nodes && !GroupedBefore(units, k, id) ==> id in stage.nodes)
    && forall id, slot :: id in p.nodes && !GroupedBefore(units, k, id) ==> val(id, slot) == original(id, slot)
  }

  ghost predicate LaterReady(units: seq<Unit>, rank: map<string, nat>, k: nat, stage: Prompt) {
    forall m :: k <= m < |units| ==> Ready(stage, units[m].group, rank)
  }

  ghost predicate EarlierAgree(I: Interp, original: Valuation, units: seq<Unit>, k: nat, stage: Prompt, val: Valuation)
    requires k <= |units|
  {
    forall j :: 0 <= j < k ==> CopiesAgree(I, units[j], stage, val, original)
  }

  /** Wrappers made so far are not members of groups still to be compiled, nor producers to relocate. */
  ghost predicate WrappersOutside(units: seq<Unit>, k: nat)
    requires k <= |units|
  {
    forall j, m :: 0 <= j < k && 0 <= m < |units| ==>
                     (k <= m ==> units[j].wrapper !in units[m].group.inside)
                       && units[j].wrapper !in units[m].group.relocated
  }

  /** The state of the argument after the first k groups. */
  ghost predicate Through(I: Interp, env: Env, p: Prompt, original: Valuation, units: seq<Unit>, rank: map<string, nat>,
                          k: nat, stage: Prompt, val: Valuation)
    requires k <= |units|
  {
    && Solves(I, stage, env, val)
    && SurvivorsAgree(p, original, units, k, stage, val)
    && LaterReady(units, rank, k, stage)
    && EarlierAgree(I, original, units, k, stage, val)
    && WrappersOutside(units, k)
  }

  ghost predicate UnitsApart(units: seq<Unit>) {
    Apart(GroupsOf(units))
  }

  lemma ApartFacts(units: seq<Unit>, j: nat, k: nat)
    requires UnitsApart(units) && j < |units| && k < |units|
    ensures j != k ==> units[j].group.inside !! units[k].group.inside
    ensures units[j].group.relocated !! units[k].group.inside
    ensures j != k ==> units[j].group.Remote() !! units[k].group.inside
  {
    var gs := GroupsOf(units);
    assert gs[j] == units[j].group && gs[k] == units[k].group;
  }

  lemma SurvivorsContinue(I: Interp, proj: Projection, env: Env, p: Prompt, original: Valuation, units: seq<Unit>,
                          k: nat, stage: Prompt, val: Valuation, next: Prompt, after: Valuation)
    requires k < |units| && SurvivorsAgree(p, original, units, k, stage, val)
    requires forall id, slot :: id in stage.nodes && id !in units[k].group.inside ==> after(id, slot) == val(id, slot)
    requires forall id :: id in stage.nodes && id !in units[k].group.inside ==> id in next.nodes
    ensures SurvivorsAgree(p, original, units, k + 1, next, after)
  {
    forall id | id in p.nodes && !GroupedBefore(units, k + 1, id)
      ensures id in next.nodes && forall slot :: after(id, slot) == original(id, slot)
    {
      assert !GroupedBefore(units, k, id) && id !in units[k].group.inside;
    }
  }

  lemma LaterContinue(proj: Projection, units: seq<Unit>, rank: map<string, nat>, k: nat, stage: Prompt, next: Prompt)
    requires k < |units| && LaterReady(units, rank, k, stage) && UnitsApart(units)
    requires Compiled(proj, stage, units[k], next) && NoCapture(stage, units[k])
    ensures LaterReady(units, rank, k + 1, next)
  {
    hide Compiled, NoCapture, Ready, UnitsApart;
    forall m | k + 1 <= m < |units| ensures Ready(next, units[m].group, rank) {
      ApartFacts(units, m, k);
      StaysReady(proj, stage, units[k], next, units[m].group, rank);
    }
  }

  lemma WrappersContinue(proj: Projection, p: Prompt, original: Valuation, units: seq<Unit>, rank: map<string, nat>,
                         k: nat, stage: Prompt, val: Valuation, next: Prompt)
    requires k < |units| && WrappersOutside(units, k) && LaterReady(units, rank, k, stage)
    requires SurvivorsAgree(p, original, units, k, stage, val) && InPrompt(p, GroupsOf(units)) && UnitsApart(units)
    requires Compiled(proj, stage, units[k], next)
    ensures WrappersOutside(units, k + 1)
  {
    hide Compiled, RankedOn, NoUserBoundary, UnitsApart;
    GeneratedIsNew(proj, stage, units[k], next);
    forall m | 0 <= m < |units|
      ensures k + 1 <= m ==> units[k].wrapper !in units[m].group.inside
      ensures units[k].wrapper !in units[m].group.relocated
    {
      if k <= m { assert Ready(stage, units[m].group, rank) && units[m].group.Remote() <= stage.nodes.Keys; }
      forall id <- units[m].group.relocated ensures id in stage.nodes {
        RelocatedSurvives(p, units, k, m, id);
      }
    }
  }

  lemma RelocatedSurvives(p: Prompt, units: seq<Unit>, k: nat, m: nat, id: string)
    requires UnitsApart(units) && InPrompt(p, GroupsOf(units)) && k <= |units| && m < |units|
             && id in units[m].group.relocated
    ensures id in p.nodes && !GroupedBefore(units, k, id)
  {
    assert GroupsOf(units)[m].Remote() <= p.nodes.Keys;
    forall i | 0 <= i < k ensures id !in units[i].group.inside { ApartFacts(units, m, i); }
  }

  lemma OriginalHere(p: Prompt, original: Valuation, units: seq<Unit>, k: nat, stage: Prompt, val: Valuation,
                     id: string)
    requires k < |units| && SurvivorsAgree(p, original, units, k, stage, val)
    requires UnitsApart(units) && InPrompt(p, GroupsOf(units)) && id in units[k].group.Remote()
    ensures forall slot :: val(id, slot) == original(id, slot)
  {
    assert GroupsOf(units)[k].Remote() <= p.nodes.Keys;
    assert !GroupedBefore(units, k, id) by {
      forall i | 0 <= i < k ensures id !in units[i].group.inside { ApartFacts(units, k, i); }
    }
  }

  lemma OldAgreementContinues(I: Interp, proj: Projection, env: Env, original: Valuation, units: seq<Unit>,
                              rank: map<string, nat>, k: nat, stage: Prompt, val: Valuation, next: Prompt, j: nat)
    requires j < k < |units| && CopiesAgree(I, units[j], stage, val, original) && WrappersOutside(units, k)
    requires FaithfulBlobs(I) && Step(I, proj, stage, env, val, rank, units[k], next)
    ensures CopiesAgree(I, units[j], next, After(I, env, val, units[k], next), original)
  {
    hide FaithfulBlobs, Step, Compiled, Solves, After, Ready, Node.LiteralAt, DistinctNames, InPortList, CanRun,
      RequestOf, ValueOf, Acyclic;
    StepIsCompiled(I, proj, stage, env, val, rank, units[k], next);
    StepPreserves(I, proj, stage, env, val, rank, units[k], next);
    SurvivorNode(proj, stage, units[k], next, units[j].wrapper);
    SameWrapper(units[j], stage, next);
    CopiesStillAgree(I, units[j], stage, val, next, After(I, env, val, units[k], next), original);
  }

  lemma NewAgreement(I: Interp, proj: Projection, env: Env, p: Prompt, original: Valuation, units: seq<Unit>,
                     rank: map<string, nat>, k: nat, stage: Prompt, val: Valuation, next: Prompt)
    requires k < |units| && SurvivorsAgree(p, original, units, k, stage, val)
    requires UnitsApart(units) && InPrompt(p, GroupsOf(units))
    requires Step(I, proj, stage, env, val, rank, units[k], next)
    ensures CopiesAgree(I, units[k], next, After(I, env, val, units[k], next), original)
  {
    hide Step, After, CopiesAgree, UnitsApart, InPrompt, SurvivorsAgree;
    NewCopiesAgree(I, proj, stage, env, val, rank, units[k], next);
    forall id, slot | id in units[k].group.Remote() ensures val(id, slot) == original(id, slot) {
      OriginalHere(p, original, units, k, stage, val, id);
    }
    AgreementMoves(I, units[k], next, After(I, env, val, units[k], next), val, original);
  }

  lemma Continue(I: Interp, proj: Projection, env: Env, p: Prompt, original: Valuation, units: seq<Unit>,
                 rank: map<string, nat>, k: nat, stage: Prompt, val: Valuation, next: Prompt)
    requires k < |units| && Through(I, env, p, original, units, rank, k, stage, val)
    requires FaithfulBlobs(I) && Compiled(proj, stage, units[k], next) && NoCapture(stage, units[k])
    requires UnitsApart(units) && InPrompt(p, GroupsOf(units))
    ensures Through(I, env, p, original, units, rank, k + 1, next, After(I, env, val, units[k], next))
  {
    hide FaithfulBlobs, Compiled, NoCapture, Solves, After, Ready, CopiesAgree, UnitsApart, InPrompt, SurvivorsAgree,
      WrappersOutside;
    var after := After(I, env, val, units[k], next);
    assert Step(I, proj, stage, env, val, rank, units[k], next);
    StepPreserves(I, proj, stage, env, val, rank, units[k], next);
    SurvivorsContinue(I, proj, env, p, original, units, k, stage, val, next, after);
    LaterContinue(proj, units, rank, k, stage, next);
    WrappersContinue(proj, p, original, units, rank, k, stage, val, next);
    forall j | 0 <= j < k + 1 ensures CopiesAgree(I, units[j], next, after, original) {
      if j < k {
        OldAgreementContinues(I, proj, env, original, units, rank, k, stage, val, next, j);
      } else {
        NewAgreement(I, proj, env, p, original, units, rank, k, stage, val, next);
      }
    }
  }

  lemma AgreementMoves(I: Interp, u: Unit, p: Prompt, val: Valuation, original: Valuation, other: Valuation)
    requires CopiesAgree(I, u, p, val, original)
    requires forall id, slot :: id in u.group.Remote() ==> original(id, slot) == other(id, slot)
    ensures CopiesAgree(I, u, p, val, other)
  {
    hide IsWrapperOf;
  }

  lemma Begin(I: Interp, env: Env, p: Prompt, original: Valuation, units: seq<Unit>, rank: map<string, nat>)
    requires Solves(I, p, env, original) && LaterReady(units, rank, 0, p)
    ensures Through(I, env, p, original, units, rank, 0, p, original)
  {
    hide Solves, LaterReady, CopiesAgree;
  }

  lemma {:induction false} ThroughAll(I: Interp, proj: Projection, env: Env, stages: seq<Prompt>, units: seq<Unit>,
                                      original: Valuation, rank: map<string, nat>, k: nat) returns (val: Valuation)
    requires CompiledThrough(proj, stages, units) && NoCaptures(stages, units) && k <= |units|
    requires Solves(I, stages[0], env, original) && LaterReady(units, rank, 0, stages[0])
    requires FaithfulBlobs(I) && UnitsApart(units) && InPrompt(stages[0], GroupsOf(units))
    ensures Through(I, env, stages[0], original, units, rank, k, stages[k], val)
  {
    if k == 0 {
      hide *;
      Begin(I, env, stages[0], original, units, rank);
      val := original;
    } else {
      hide FaithfulBlobs, Compiled, NoCapture, Solves, Through, UnitsApart, InPrompt, LaterReady;
      var before := ThroughAll(I, proj, env, stages, units, original, rank, k - 1);
      Continue(I, proj, env, stages[0], original, units, rank, k - 1, stages[k - 1], before, stages[k]);
      val := After(I, env, before, units[k - 1], stages[k]);
    }
  }

  // ---- dangling links ----

  /** No dangling link names an id that is generated where it ends up. */
  ghost predicate NoCaptures(stages: seq<Prompt>, units: seq<Unit>) {
    |stages| == |units| + 1 && forall i :: 0 <= i < |units| ==> NoCapture(stages[i], units[i])
  }

  /** Whatever dangles after the first k groups has dangled from the start, and is as it was. */
  ghost predicate DangledBefore(p: Prompt, stage: Prompt) {
    forall id, name :: Dangles(stage, id, name) ==>
      Dangles(p, id, name) && stage.nodes[id].inputs[name] == p.nodes[id].inputs[name]
  }

  lemma {:induction false} DanglingThrough(proj: Projection, stages: seq<Prompt>, units: seq<Unit>, k: nat)
    requires CompiledThrough(proj, stages, units) && k <= |units|
    ensures DangledBefore(stages[0], stages[k])
    ensures LinkClosed(stages[0]) ==> LinkClosed(stages[k])
  {
    hide Compiled, Dangles, Captured;
    if k > 0 {
      DanglingThrough(proj, stages, units, k - 1);
      DanglingStays(proj, stages[k - 1], units[k - 1], stages[k]);
      if LinkClosed(stages[k - 1]) { LinksStayClosed(proj, stages[k - 1], units[k - 1], stages[k]); }
      hide LinkClosed;
    }
  }

  /** A dangling link of a node that has not been taken out dangles still, if nothing captures it. */
  lemma {:induction false} StillDangles(proj: Projection, stages: seq<Prompt>, units: seq<Unit>, k: nat, id: string,
                                        name: InputName)
    requires CompiledThrough(proj, stages, units) && NoCaptures(stages, units) && k <= |units|
    requires Dangles(stages[0], id, name) && !GroupedBefore(units, k, id)
    ensures Dangles(stages[k], id, name)
  {
    hide Compiled, Dangles;
    if k > 0 {
      forall i | 0 <= i < k - 1 ensures id !in units[i].group.inside { assert !GroupedBefore(units, k, id); }
      StillDangles(proj, stages, units, k - 1, id, name);
      DanglingStays(proj, stages[k - 1], units[k - 1], stages[k]);
      assert id !in units[k - 1].group.inside && NoCapture(stages[k - 1], units[k - 1]);
    }
  }

  /** If no dangling link of the prompt has a name that may be generated, none is captured. */
  lemma ClearThrough(proj: Projection, stages: seq<Prompt>, units: seq<Unit>)
    requires CompiledThrough(proj, stages, units) && LinksClear(stages[0])
    ensures NoCaptures(stages, units)
  {
    forall i | 0 <= i < |units| ensures NoCapture(stages[i], units[i]) {
      DanglingThrough(proj, stages, units, i);
      StaysClear(stages[0], stages[i]);
      assert Compiled(proj, stages[i], units[i], stages[i + 1]);
      CompiledNames(proj, stages[i], units[i], stages[i + 1]);
      hide Compiled, NoCapture, LinksClear;
      ClearIsEnough(proj, stages[i], units[i]);
    }
  }

  lemma CompiledNames(proj: Projection, p: Prompt, u: Unit, c: Prompt)
    requires Compiled(proj, p, u, c)
    ensures GoodNames(p, u) && GoodInPorts(proj, p, u.group, u.inbound)
  {
  }

  lemma StaysClear(p: Prompt, stage: Prompt)
    requires LinksClear(p) && DangledBefore(p, stage)
    ensures LinksClear(stage)
  {
    hide Dangles, MayBeGenerated;
  }

  // ---- when the result can be scheduled ----

  lemma StaysInPrompt(proj: Projection, p: Prompt, u: Unit, c: Prompt, gs: seq<Group>)
    requires Compiled(proj, p, u, c) && gs != [] && gs[0] == u.group && Apart(gs) && InPrompt(p, gs)
    ensures InPrompt(c, gs[1..]) && Apart(gs[1..])
  {
    hide Compiled;
    forall i | 0 <= i < |gs[1..]| ensures gs[1..][i].Remote() <= c.nodes.Keys {
      assert gs[1..][i] == gs[i + 1];
      forall id <- gs[i + 1].Remote() ensures id in c.nodes { RemainderKinds(proj, p, u, c, id); }
    }
    forall i, j | 0 <= i < |gs[1..]| && 0 <= j < |gs[1..]|
      ensures gs[1..][i].relocated !! gs[1..][j].inside
      ensures i < j ==> gs[1..][i].inside !! gs[1..][j].inside
    {
      assert gs[1..][i] == gs[i + 1] && gs[1..][j] == gs[j + 1];
    }
  }

  /** The prompt left after all groups is acyclic exactly when contracting the groups left no cycle. */
  lemma {:induction false} SchedulableThrough(proj: Projection, stages: seq<Prompt>, units: seq<Unit>)
    requires CompiledThrough(proj, stages, units) && NoCaptures(stages, units)
    requires UnitsApart(units) && InPrompt(stages[0], GroupsOf(units))
    ensures Acyclic(stages[|units|]) <==> Contractible(stages[0], GroupsOf(units))
    decreases |units|
  {
    if units == [] {
      NothingGrouped(stages[0]);
      assert GroupsOf(units) == [];
    } else {
      hide Compiled, NoCapture, Contractible, Acyclic, Apart, InPrompt;
      GroupsTail(units);
      StaysInPrompt(proj, stages[0], units[0], stages[1], GroupsOf(units));
      hide GroupsOf;
      ThroughTail(proj, stages, units);
      SchedulableThrough(proj, stages[1..], units[1..]);
      ContractStep(proj, stages[0], units[0], stages[1], GroupsOf(units));
    }
  }

  lemma GroupsTail(units: seq<Unit>)
    requires units != []
    ensures GroupsOf(units) != [] && GroupsOf(units)[0] == units[0].group
            && GroupsOf(units[1..]) == GroupsOf(units)[1..]
  {
  }

  lemma ThroughTail(proj: Projection, stages: seq<Prompt>, units: seq<Unit>)
    requires CompiledThrough(proj, stages, units) && NoCaptures(stages, units) && units != []
    ensures CompiledThrough(proj, stages[1..], units[1..]) && stages[1..][0] == stages[1]
    ensures NoCaptures(stages[1..], units[1..]) && stages[1..][|units[1..]|] == stages[|units|]
  {
    hide Compiled, NoCapture;
  }

  // ---- the main results ----

  datatype Compilation = Compilation(compiled: Prompt, units: seq<Unit>, removed: set<string>)

  function AllRelocated(units: seq<Unit>): set<string> {
    set i: nat, id | i < |units| && id in units[i].group.relocated :: id
  }

  /** The result of compiling `p`: group after group, then pruned. */
  ghost predicate IsCompilation(proj: Projection, p: Prompt, stages: seq<Prompt>, k: Compilation) {
    && CompiledThrough(proj, stages, k.units) && stages[0] == p
    && UnitsApart(k.units) && InPrompt(p, GroupsOf(k.units))
    && IsPruned(stages[|k.units|], AllRelocated(k.units), k.removed, k.compiled)
  }

  /** No copy, inside or relocated, is a user-placed boundary node the executor would count. */
  ghost predicate NoUserBoundaries(p: Prompt, units: seq<Unit>)
    requires InPrompt(p, GroupsOf(units))
  {
    forall i :: 0 <= i < |units| ==> GroupsOf(units)[i].Remote() <= p.nodes.Keys && NoUserBoundary(p, units[i].group)
  }

  lemma AllReadyAtFirst(p: Prompt, units: seq<Unit>, rank: map<string, nat>)
    requires InPrompt(p, GroupsOf(units)) && NoUserBoundaries(p, units) && Ranked(p, rank)
    ensures LaterReady(units, rank, 0, p)
  {
    hide NoUserBoundary;
    forall m | 0 <= m < |units| ensures Ready(p, units[m].group, rank) {
      assert GroupsOf(units)[m].Remote() <= p.nodes.Keys;
    }
  }

  lemma WrapperSurvives(proj: Projection, p: Prompt, stages: seq<Prompt>, k: Compilation, j: nat)
    requires IsCompilation(proj, p, stages, k) && j < |k.units| && WrappersOutside(k.units, |k.units|)
    requires k.units[j].wrapper in stages[|k.units|].nodes
    ensures k.units[j].wrapper in k.compiled.nodes
  {
    hide CompiledThrough, UnitsApart, InPrompt, Kept;
  }

  /** After pruning, the compiled prompt can still be scheduled when it could before. */
  lemma CompiledIsAcyclic(I: Interp, proj: Projection, p: Prompt, env: Env, stages: seq<Prompt>, k: Compilation,
                          val: Valuation)
    requires IsCompilation(proj, p, stages, k) && NoCaptures(stages, k.units) && Contractible(p, GroupsOf(k.units))
    requires Solves(I, stages[|k.units|], env, val)
    ensures Acyclic(k.compiled) && Solves(I, k.compiled, env, val)
    ensures forall id :: id in k.compiled.nodes ==>
              && id in stages[|k.units|].nodes && k.compiled.nodes[id] == stages[|k.units|].nodes[id]
              && ArgsOf(k.compiled, k.compiled.nodes[id], val) == ArgsOf(stages[|k.units|], k.compiled.nodes[id], val)
  {
    hide Compiled, NoCapture, Contractible, Acyclic, UnitsApart, InPrompt, Solves, Kept, Dangles;
    SchedulableThrough(proj, stages, k.units);
    PruningIsSafe(I, stages[|k.units|], env, val, AllRelocated(k.units), k.removed, k.compiled);
  }

  lemma ArgsUnder(I: Interp, p: Prompt, env: Env, val: Valuation, n: Node)
    requires Acyclic(p) && Solves(I, p, env, val)
    ensures ArgsOf(p, n, Valued(I, p, env)) == ArgsOf(p, n, val)
  {
    forall id, slot | id in p.nodes ensures Valued(I, p, env)(id, slot) == val(id, slot) {
      SolutionIsValue(I, p, env, val, id, slot);
    }
    hide ValueOf, Solves, Acyclic;
  }

  /**
   * Compilation preserves meaning. For an acyclic prompt that stays acyclic when its groups are contracted, and if no
   * dangling link is captured, the compiled prompt is acyclic, every surviving node has its original value, and every
   * wrapper, on the inputs it has in the compiled prompt, makes the remote machine give each inside or
   * relocated copy its original value.
   */
  lemma CompilationPreservesMeaning(I: Interp, proj: Projection, p: Prompt, env: Env, stages: seq<Prompt>,
                                    k: Compilation)
    requires IsCompilation(proj, p, stages, k) && NoUserBoundaries(p, k.units) && FaithfulBlobs(I)
    requires Acyclic(p) && NoCaptures(stages, k.units) && Contractible(p, GroupsOf(k.units))
    ensures Acyclic(k.compiled)
    ensures forall id :: id in p.nodes && !GroupedBefore(k.units, |k.units|, id) && id !in k.removed ==>
              id in k.compiled.nodes
    ensures forall id, slot :: id in p.nodes && !GroupedBefore(k.units, |k.units|, id) && id !in k.removed ==>
              ValueOf(I, k.compiled, env, id, slot) == ValueOf(I, p, env, id, slot)
    ensures forall j :: 0 <= j < |k.units| ==>
              CopiesAgree(I, k.units[j], k.compiled, Valued(I, k.compiled, env), Valued(I, p, env))
  {
    var rank :| Ranked(p, rank);
    var original, last := Valued(I, p, env), stages[|k.units|];
    ValuedSolves(I, p, env);
    AllReadyAtFirst(p, k.units, rank);
    hide Compiled, FaithfulBlobs, UnitsApart, InPrompt, LaterReady, Solves, Acyclic, Contractible, NoCaptures, Ranked,
      NoUserBoundaries, CopiesAgree, WrappersOutside, ValueOf, Kept;
    var val := ThroughAll(I, proj, env, stages, k.units, original, rank, |k.units|);
    CompiledIsAcyclic(I, proj, p, env, stages, k, val);
    forall id, slot | id in p.nodes && !GroupedBefore(k.units, |k.units|, id) && id !in k.removed
      ensures id in k.compiled.nodes && ValueOf(I, k.compiled, env, id, slot) == ValueOf(I, p, env, id, slot)
    {
      SolutionIsValue(I, k.compiled, env, val, id, slot);
      assert val(id, slot) == original(id, slot);
    }
    forall j | 0 <= j < |k.units|
      ensures CopiesAgree(I, k.units[j], k.compiled, Valued(I, k.compiled, env), original)
    {
      CopiesAgreeAtLast(I, proj, p, env, stages, k, val, original, j);
    }
  }

  lemma CopiesAgreeAtLast(I: Interp, proj: Projection, p: Prompt, env: Env, stages: seq<Prompt>, k: Compilation,
                          val: Valuation, original: Valuation, j: nat)
    requires IsCompilation(proj, p, stages, k) && NoCaptures(stages, k.units) && Contractible(p, GroupsOf(k.units))
    requires Solves(I, stages[|k.units|], env, val) && j < |k.units| && WrappersOutside(k.units, |k.units|)
    requires CopiesAgree(I, k.units[j], stages[|k.units|], val, original)
    ensures Acyclic(k.compiled) && CopiesAgree(I, k.units[j], k.compiled, Valued(I, k.compiled, env), original)
  {
    hide IsCompilation, NoCaptures, Contractible, Solves, WrappersOutside, DistinctNames, CanRun, InPortList,
      RequestOf, ValueOf, Acyclic, Node.LiteralAt;
    CompilationIsThrough(proj, p, stages, k);
    var u, last := k.units[j], stages[|k.units|];
    CompiledIsAcyclic(I, proj, p, env, stages, k, val);
    WrapperSurvives(proj, p, stages, k, j);
    SameWrapper(u, last, k.compiled);
    ArgsUnder(I, k.compiled, env, val, k.compiled.nodes[u.wrapper]);
    CopiesStillAgree(I, u, last, val, k.compiled, Valued(I, k.compiled, env), original);
  }

  lemma CompilationIsThrough(proj: Projection, p: Prompt, stages: seq<Prompt>, k: Compilation)
    requires IsCompilation(proj, p, stages, k)
    ensures |stages| == |k.units| + 1
  {
  }
}
