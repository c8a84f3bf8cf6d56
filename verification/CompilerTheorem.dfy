/** What the compiler as a whole guarantees. */
module CompilerTheorem {
  import opened Prompts
  import opened Editor
  import opened Relocation
  import opened Semantics
  import opened GroupCode
  import opened UnitMeaning
  import opened StepMeaning
  import opened Scheduling
  import opened Prune
  import opened CompilerMeaning
  import opened Compiler

  /** The groups as drawn, with nothing relocated: contracting them is the quotient of the prompt. */
  function AsDrawn(groups: seq<RemoteGroup>): (gs: seq<Group>)
    ensures |gs| == |groups|
    ensures forall i :: 0 <= i < |gs| ==> gs[i] == Group(i, groups[i].target, groups[i].inside, {})
  {
    seq(|groups|, i requires 0 <= i < |groups| => Group(i, groups[i].target, groups[i].inside, {}))
  }

  /** Along a chain of unsendable links from a group, ranks of the quotient stay below the group's. */
  lemma {:induction false} ChainBelowGroup(plan: Plan, ids: set<string>, drawn: seq<Group>, q: map<string, nat>,
                                           r: seq<nat>, path: seq<string>)
    requires Contracts(plan.p, drawn, q, r) && plan.group < |drawn| && drawn[plan.group].relocated == {}
    requires forall id :: plan.Inside(id) <==> id in drawn[plan.group].inside
    requires forall id <- ids :: !Grouped(drawn, id)
    requires IsRelocation(plan, ids) && |path| >= 2 && plan.ChainFrom(path, path[|path| - 1])
    ensures path[|path| - 1] in q && q[path[|path| - 1]] < r[plan.group]
    decreases |path|
  {
    hide Plan.CanSend;
    var id, src := path[|path| - 2], path[|path| - 1];
    assert plan.Needs(id, src);
    var name, slot :| HasLink(plan.p, id, name, src, slot);
    if |path| == 2 {
      assert GroupRises(plan.p, drawn[plan.group], q, r[plan.group]);
    } else {
      var shorter := path[..|path| - 1];
      ChainPrefix(plan, path);
      assert plan.ChainFrom(shorter, id) && plan.Reached(id);
      ChainBelowGroup(plan, ids, drawn, q, r, shorter);
    }
  }

  lemma DrawnGrouped(groups: seq<RemoteGroup>, gs: seq<Group>, id: string)
    requires |gs| == |groups| && forall i :: 0 <= i < |gs| ==> gs[i].inside == groups[i].inside
    ensures Grouped(gs, id) <==> Grouped(AsDrawn(groups), id)
  {
    if Grouped(gs, id) {
      var i :| 0 <= i < |gs| && id in gs[i].inside;
      assert id in AsDrawn(groups)[i].inside;
    }
    if Grouped(AsDrawn(groups), id) {
      var i :| 0 <= i < |groups| && id in AsDrawn(groups)[i].inside;
      assert id in gs[i].inside;
    }
  }

  /** A rank of the quotient by the drawn groups also ranks the groups with what they relocate. */
  lemma DrawnRanks(p: Prompt, proj: Projection, resolvers: string -> Resolver, groups: seq<RemoteGroup>,
                   owners: map<string, nat>, gs: seq<Group>, q: map<string, nat>, r: seq<nat>, i: nat)
    requires IsMembership(groups, owners) && ArePlanned(p, proj, resolvers, groups, owners, gs) && |gs| == |groups|
    requires Contracts(p, AsDrawn(groups), q, r) && i < |gs|
    ensures GroupRises(p, gs[i], q, r[i])
  {
    hide IsRelocation, Plan.CanSend;
    var plan, drawn := PlanOf(p, proj, resolvers, groups, owners, i), AsDrawn(groups);
    PlannedFacts(plan, gs[i].relocated);
    assert GroupRises(p, drawn[i], q, r[i]);
    forall id <- gs[i].relocated ensures !Grouped(drawn, id) {
      assert forall j :: 0 <= j < |drawn| ==> id !in groups[j].inside;
    }
    forall id, name, src, slot: nat | id in gs[i].Remote() && src !in gs[i].Remote() && HasLink(p, id, name, src, slot)
      ensures q[src] < r[i]
    {
      if id !in gs[i].inside {
        RelocatedIsReached(plan, gs[i].relocated, id);
        var path :| plan.ChainFrom(path, id);
        ChainBelowGroup(plan, gs[i].relocated, drawn, q, r, path);
      }
    }
  }

  lemma RelocatedIsReached(plan: Plan, ids: set<string>, id: string)
    requires IsRelocation(plan, ids) && id in ids
    ensures plan.Reached(id)
  {
  }

  /** If the quotient by the groups has no cycle, neither has the prompt contracted with what is relocated. */
  lemma QuotientIsEnough(p: Prompt, proj: Projection, resolvers: string -> Resolver, groups: seq<RemoteGroup>,
                         owners: map<string, nat>, gs: seq<Group>)
    requires IsMembership(groups, owners) && ArePlanned(p, proj, resolvers, groups, owners, gs) && |gs| == |groups|
    requires Contractible(p, AsDrawn(groups))
    ensures Contractible(p, gs)
  {
    hide IsMembership, GroupRises, IsRelocation;
    var drawn := AsDrawn(groups);
    var q, r :| Contracts(p, drawn, q, r);
    assert MembersShare(gs, q, r) by {
      forall i, id | 0 <= i < |gs| && id in gs[i].inside ensures id in q && q[id] == r[i] {
        assert id in drawn[i].inside;
      }
    }
    assert OutsideRises(p, gs, q) by {
      forall id, name, src, slot: nat | HasLink(p, id, name, src, slot) && !Grouped(gs, id) ensures q[src] < q[id] {
        DrawnGrouped(groups, gs, id);
      }
    }
    forall i | 0 <= i < |gs| ensures GroupRises(p, gs[i], q, r[i]) {
      DrawnRanks(p, proj, resolvers, groups, owners, gs, q, r, i);
    }
    assert Contracts(p, gs, q, r);
  }

  /**
   * In a remote workflow only copies have dangling links, and only the ones their originals have; such a link is copied
   * as it is, and dangles if and only if it names no new node of the workflow.
   */
  lemma WorkflowDangles(proj: Projection, p: Prompt, u: Unit, c: Prompt)
    requires Compiled(proj, p, u, c)
    ensures forall id, name :: Dangles(u.workflow, id, name) ==>
              id in u.group.Remote() && Dangles(p, id, name)
                && u.workflow.nodes[id].inputs[name] == p.nodes[id].inputs[name]
    ensures forall id, name :: Dangles(p, id, name) && id in u.group.Remote() ==>
              (Dangles(u.workflow, id, name) <==> !u.MakesRemotely(p.nodes[id].inputs[name].src))
  {
    hide Compiled, Dangles, Unit.MakesRemotely;
    forall id, name { WorkflowDanglesAt(proj, p, u, c, id, name); }
  }

  lemma WorkflowDanglesAt(proj: Projection, p: Prompt, u: Unit, c: Prompt, id: string, name: InputName)
    requires Compiled(proj, p, u, c)
    ensures Dangles(u.workflow, id, name) ==>
              id in u.group.Remote() && Dangles(p, id, name)
                && u.workflow.nodes[id].inputs[name] == p.nodes[id].inputs[name]
    ensures Dangles(p, id, name) && id in u.group.Remote() ==>
              (Dangles(u.workflow, id, name) <==> !u.MakesRemotely(p.nodes[id].inputs[name].src))
  {
    hide GoodNames, GoodInPorts, IsRemainder, IsWorkflowOrder, GoodOutPorts, IsWorkflow, Unit.MakesRemotely;
    if Dangles(u.workflow, id, name) { DanglingIsCopied(proj, p, u, id, name); }
    if Dangles(p, id, name) && id in u.group.Remote() { CopyDangles(proj, p, u, id, name); }
  }

  lemma DanglingIsCopied(proj: Projection, p: Prompt, u: Unit, id: string, name: InputName)
    requires IsWorkflow(proj, p, u) && GoodOutPorts(proj, p, u.group, u.outbound) && Dangles(u.workflow, id, name)
    ensures id in u.group.Remote() && Dangles(p, id, name)
            && u.workflow.nodes[id].inputs[name] == p.nodes[id].inputs[name]
  {
    hide GoodOutPorts, OutputNode, BoundaryNode, InwardNode, OutPort.Adapted, OutPort.EncodeNode, Prompt.Valid,
      Unit.IsEncoder, Unit.IsBoundary;
    if id in u.group.Remote() {
      CopyLinks(proj, p, u, id, name);
    } else if u.IsEncoder(id) {
      EncodersReadInside(proj, p, u, id, name);
    } else if u.IsBoundary(id) {
      BoundariesReadNothing(proj, p, u, id, name);
    } else {
      OutputReads(proj, p, u, name);
    }
  }

  /** So every link of a remote workflow ends in that workflow, if the prompt has no dangling link. */
  lemma WorkflowIsClosed(proj: Projection, p: Prompt, u: Unit, c: Prompt)
    requires Compiled(proj, p, u, c) && LinkClosed(p)
    ensures LinkClosed(u.workflow)
  {
    WorkflowDangles(proj, p, u, c);
    hide Compiled, LinkClosed, Unit.MakesRemotely;
    NothingDangles(p);
    NothingDangles(u.workflow);
  }

  /**
   * Compiling a group leaves every dangling link dangling, in the remaining prompt and in the workflow, if and only if
   * none names an id that is generated there.
   */
  lemma CapturedExactly(proj: Projection, p: Prompt, u: Unit, c: Prompt)
    requires Compiled(proj, p, u, c)
    ensures NoCapture(p, u) <==>
            forall id, name :: Dangles(p, id, name) ==>
              (id !in u.group.inside ==> Dangles(c, id, name))
                && (id in u.group.Remote() ==> Dangles(u.workflow, id, name))
  {
    DanglingStays(proj, p, u, c);
    WorkflowDangles(proj, p, u, c);
    hide Compiled, Unit.MakesLocally, Unit.MakesRemotely, Dangles;
  }

  /** The groups of a result, each with exactly the producers planned for it. */
  ghost predicate SameMembers(groups: seq<RemoteGroup>, units: seq<Unit>) {
    |units| == |groups| && forall i :: 0 <= i < |units| ==> units[i].group.inside == groups[i].inside
  }

  lemma ResultFacts(p: Prompt, proj: Projection, resolvers: string -> Resolver, partial: set<string>,
                    groups: seq<RemoteGroup>, stages: seq<Prompt>, k: Compilation)
    requires IsResult(p, proj, resolvers, partial, groups, stages, k) && Contractible(p, AsDrawn(groups))
    ensures IsCompilation(proj, p, stages, k) && SameMembers(groups, k.units) && Contractible(p, GroupsOf(k.units))
  {
    hide IsCompilation, InOrder, CrossLink, IsMembership, IsRelocation, Contractible;
    var owners :| IsMembership(groups, owners) && ArePlanned(p, proj, resolvers, groups, owners, GroupsOf(k.units));
    QuotientIsEnough(p, proj, resolvers, groups, owners, GroupsOf(k.units));
  }

  ghost predicate InSomeGroup(groups: seq<RemoteGroup>, id: string) {
    exists i :: 0 <= i < |groups| && id in groups[i].inside
  }

  lemma GroupedIsInside(groups: seq<RemoteGroup>, units: seq<Unit>, id: string)
    requires SameMembers(groups, units)
    ensures GroupedBefore(units, |units|, id) <==> InSomeGroup(groups, id)
  {
    if GroupedBefore(units, |units|, id) {
      var i :| 0 <= i < |units| && id in units[i].group.inside;
      assert id in groups[i].inside;
    }
  }

  /** Of the links of the nodes that stay and of the copies, those dangle that dangled in the prompt. */
  ghost predicate SameDangling(p: Prompt, groups: seq<RemoteGroup>, k: Compilation) {
    && DangledBefore(p, k.compiled)
    && (forall id, name :: Dangles(p, id, name) && !InSomeGroup(groups, id) && id !in k.removed ==>
          Dangles(k.compiled, id, name))
    && forall j :: 0 <= j < |k.units| ==> SameInWorkflow(p, k.units[j])
  }

  ghost predicate SameInWorkflow(p: Prompt, u: Unit) {
    && DangledBefore(p, u.workflow)
    && forall id, name :: Dangles(u.workflow, id, name) <==> id in u.group.Remote() && Dangles(p, id, name)
  }

  lemma WorkflowAsBefore(proj: Projection, p: Prompt, stages: seq<Prompt>, k: Compilation, j: nat)
    requires IsCompilation(proj, p, stages, k) && NoCaptures(stages, k.units) && j < |k.units|
    ensures SameInWorkflow(p, k.units[j])
  {
    hide Compiled, IsPruned, Dangles, NoCapture, UnitsApart, InPrompt, DangledBefore;
    DanglingThrough(proj, stages, k.units, j);
    forall id, name | id in k.units[j].group.Remote() && Dangles(p, id, name) ensures Dangles(stages[j], id, name) {
      NotTakenYet(p, k.units, j, id);
      StillDangles(proj, stages, k.units, j, id, name);
    }
    SameInWorkflowFrom(proj, p, stages[j], k.units[j], stages[j + 1]);
  }

  lemma SameInWorkflowFrom(proj: Projection, p: Prompt, stage: Prompt, u: Unit, c: Prompt)
    requires Compiled(proj, stage, u, c) && NoCapture(stage, u) && DangledBefore(p, stage)
    requires forall id, name :: id in u.group.Remote() && Dangles(p, id, name) ==> Dangles(stage, id, name)
    ensures SameInWorkflow(p, u)
  {
    hide Compiled, NoCapture, Unit.MakesRemotely, Group.Remote;
    forall id, name
      ensures Dangles(u.workflow, id, name) <==> id in u.group.Remote() && Dangles(p, id, name)
      ensures Dangles(u.workflow, id, name) ==> u.workflow.nodes[id].inputs[name] == p.nodes[id].inputs[name]
    {
      WorkflowDanglesAt(proj, stage, u, c, id, name);
      hide Dangles;
      if id in u.group.Remote() && Dangles(stage, id, name) { NotCapturedRemotely(stage, u, id, name); }
    }
  }

  lemma NotCapturedRemotely(p: Prompt, u: Unit, id: string, name: InputName)
    requires NoCapture(p, u) && Dangles(p, id, name) && id in u.group.Remote()
    ensures !u.MakesRemotely(p.nodes[id].inputs[name].src)
  {
    hide Unit.MakesLocally, Unit.MakesRemotely;
  }

  lemma NotTakenYet(p: Prompt, units: seq<Unit>, j: nat, id: string)
    requires UnitsApart(units) && j < |units| && id in units[j].group.Remote()
    ensures !GroupedBefore(units, j, id)
  {
    forall i | 0 <= i < j ensures id !in units[i].group.inside { ApartFacts(units, j, i); }
  }

  lemma DanglingAsBefore(proj: Projection, p: Prompt, groups: seq<RemoteGroup>, stages: seq<Prompt>, k: Compilation)
    requires IsCompilation(proj, p, stages, k) && NoCaptures(stages, k.units) && SameMembers(groups, k.units)
    ensures SameDangling(p, groups, k)
  {
    var n, last := |k.units|, stages[|k.units|];
    forall j | 0 <= j < n ensures SameInWorkflow(p, k.units[j]) { WorkflowAsBefore(proj, p, stages, k, j); }
    DanglingThrough(proj, stages, k.units, n);
    PrunedDangling(last, AllRelocated(k.units), k.removed, k.compiled);
    hide CompiledThrough, UnitsApart, InPrompt, IsPruned, Dangles, NoCaptures, GroupedBefore, InSomeGroup,
      SameInWorkflow;
    forall id, name | Dangles(p, id, name) && !InSomeGroup(groups, id) && id !in k.removed
      ensures Dangles(k.compiled, id, name)
    {
      GroupedIsInside(groups, k.units, id);
      StillDangles(proj, stages, k.units, n, id, name);
    }
  }

  /**
   * For every acyclic prompt none of whose dangling links has a name that may be generated, and whose quotient by the
   * groups is acyclic, a successful compilation leaves an acyclic prompt in which every node that is neither grouped
   * nor pruned has its original value; and every remote machine, sent what its wrapper reads, runs a workflow in which
   * each grouped or relocated node has its original value. Here and there, exactly the links dangle that dangled
   * before.
   */
  lemma CompilerPreservesMeaning(I: Interp, p: Prompt, proj: Projection, resolvers: string -> Resolver,
                                 partial: set<string>, groups: seq<RemoteGroup>, stages: seq<Prompt>, k: Compilation,
                                 env: Env)
    requires IsResult(p, proj, resolvers, partial, groups, stages, k)
    requires Acyclic(p) && LinksClear(p) && Contractible(p, AsDrawn(groups))
    requires NoUserBoundaries(p, k.units) && FaithfulBlobs(I)
    ensures Acyclic(k.compiled) && SameDangling(p, groups, k)
    ensures forall id :: id in p.nodes && !InSomeGroup(groups, id) && id !in k.removed ==> id in k.compiled.nodes
    ensures forall id, slot :: id in p.nodes && !InSomeGroup(groups, id) && id !in k.removed ==>
              ValueOf(I, k.compiled, env, id, slot) == ValueOf(I, p, env, id, slot)
    ensures forall j :: 0 <= j < |k.units| ==>
              CopiesAgree(I, k.units[j], k.compiled, Valued(I, k.compiled, env), Valued(I, p, env))
  {
    hide IsResult, Contractible, Acyclic, LinksClear, NoUserBoundaries, FaithfulBlobs, CopiesAgree, ValueOf, AsDrawn,
      UnitsApart, IsPruned, InPrompt, GroupedBefore, InSomeGroup, NoCaptures, CompiledThrough, SameDangling;
    ResultFacts(p, proj, resolvers, partial, groups, stages, k);
    ClearThrough(proj, stages, k.units);
    CompilationPreservesMeaning(I, proj, p, env, stages, k);
    DanglingAsBefore(proj, p, groups, stages, k);
    forall id | id in p.nodes && !InSomeGroup(groups, id) && id !in k.removed
      ensures id in k.compiled.nodes
      ensures forall slot :: ValueOf(I, k.compiled, env, id, slot) == ValueOf(I, p, env, id, slot)
    {
      GroupedIsInside(groups, k.units, id);
    }
  }
}
