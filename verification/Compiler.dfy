/** The whole compilation: plan every group on the original prompt, compile them in order, prune. */
module Compiler {
  import opened Wrappers
  import opened Prompts
  import opened Editor
  import opened Relocation
  import opened GroupCode
  import opened Scheduling
  import opened Prune
  import Preload
  import opened Capacity
  import opened GroupCompiler
  import opened CompilerMeaning

  /** A non-empty remote group drawn in the editor. */
  datatype RemoteGroup = RemoteGroup(target: string, inside: set<string>)

  ghost predicate GoodGroups(p: Prompt, groups: seq<RemoteGroup>) {
    && (forall i :: 0 <= i < |groups| ==> groups[i].inside <= p.nodes.Keys)
    && forall i, j :: 0 <= i < j < |groups| ==> groups[i].inside !! groups[j].inside
  }

  ghost predicate IsMembership(groups: seq<RemoteGroup>, owners: map<string, nat>) {
    && (forall id <- owners :: owners[id] < |groups| && id in groups[owners[id]].inside)
    && forall i, id :: 0 <= i < |groups| && id in groups[i].inside ==> id in owners && owners[id] == i
  }

  function AllOwnedBy(ids: set<string>, group: nat): map<string, nat> { map id | id in ids :: group }

  method GroupMembership(p: Prompt, groups: seq<RemoteGroup>) returns (owners: map<string, nat>)
    requires GoodGroups(p, groups)
    ensures IsMembership(groups, owners)
  {
    owners := map[];
    for i := 0 to |groups|
      invariant forall id <- owners :: owners[id] < i && id in groups[owners[id]].inside
      invariant forall k, id :: 0 <= k < i && id in groups[k].inside ==> id in owners && owners[id] == k
    {
      owners := owners + AllOwnedBy(groups[i].inside, i);
    }
  }

  /** A grouped node reads a node of another group. */
  ghost predicate CrossLink(p: Prompt, owners: map<string, nat>, id: string, name: InputName) {
    && id in owners && id in p.nodes && name in p.nodes[id].inputs && p.nodes[id].inputs[name].Link?
    && p.nodes[id].inputs[name].src in p.nodes && p.nodes[id].inputs[name].src in owners
    && owners[p.nodes[id].inputs[name].src] != owners[id]
  }

  method FindCrossLink(p: Prompt, owners: map<string, nat>) returns (found: Option<string>)
    requires p.Valid()
    ensures found.Some? ==> exists name :: CrossLink(p, owners, found.value, name)
    ensures found.None? ==> forall id, name :: !CrossLink(p, owners, id, name)
  {
    for i := 0 to |p.order|
      invariant forall k, name :: 0 <= k < i ==> !CrossLink(p, owners, p.order[k], name)
    {
      var id := p.order[i];
      assert id in p.nodes;
      if id in owners {
        var inputs := p.nodes[id].inputs;
        var names := Enumerate(inputs.Keys);
        for j := 0 to |names|
          invariant forall k :: 0 <= k < j ==> !CrossLink(p, owners, id, names[k])
        {
          var value := inputs[names[j]];
          if value.Link? && value.src in p.nodes && value.src in owners && owners[value.src] != owners[id] {
            assert CrossLink(p, owners, id, names[j]);
            return Some(id);
          }
        }
        forall name ensures !CrossLink(p, owners, id, name) { assert name in inputs ==> name in names; }
      }
    }
    forall id, name ensures !CrossLink(p, owners, id, name) { assert id in p.nodes ==> id in p.order; }
    found := None;
  }

  // ---- planning ----

  function PlanOf(p: Prompt, proj: Projection, resolvers: string -> Resolver, groups: seq<RemoteGroup>,
                  owners: map<string, nat>, i: nat): Plan
    requires i < |groups|
  {
    Plan(p, proj, resolvers(groups[i].target), owners, i)
  }

  /** The groups with the relocation sets planned for them on the original prompt. */
  ghost predicate ArePlanned(p: Prompt, proj: Projection, resolvers: string -> Resolver, groups: seq<RemoteGroup>,
                             owners: map<string, nat>, gs: seq<Group>)
  {
    |gs| <= |groups| && forall i :: 0 <= i < |gs| ==>
      && gs[i].index == i && gs[i].target == groups[i].target && gs[i].inside == groups[i].inside
      && IsRelocation(PlanOf(p, proj, resolvers, groups, owners, i), gs[i].relocated)
  }

  lemma PlannedFacts(plan: Plan, ids: set<string>)
    requires IsRelocation(plan, ids)
    ensures ids <= plan.p.nodes.Keys && ids !! plan.owners.Keys
  {
    forall id <- ids ensures id in plan.p.nodes && id !in plan.owners { assert plan.Sound(ids); }
  }

  /** Planned groups lie in the prompt and apart from each other. */
  lemma PlannedApart(p: Prompt, proj: Projection, resolvers: string -> Resolver, groups: seq<RemoteGroup>,
                     owners: map<string, nat>, gs: seq<Group>)
    requires GoodGroups(p, groups) && IsMembership(groups, owners) && ArePlanned(p, proj, resolvers, groups, owners, gs)
    ensures InPrompt(p, gs) && Apart(gs)
  {
    hide IsRelocation;
    forall i | 0 <= i < |gs| ensures gs[i].relocated <= p.nodes.Keys && gs[i].relocated !! owners.Keys {
      PlannedFacts(PlanOf(p, proj, resolvers, groups, owners, i), gs[i].relocated);
    }
  }

  datatype Refusal =
    | CrossTarget(id: string)
    | CannotRelocate(group: nat, id: string)
    | CannotCompile(group: nat, error: CompileError)

  method PlanAll(p: Prompt, proj: Projection, resolvers: string -> Resolver, groups: seq<RemoteGroup>,
                 owners: map<string, nat>)
    returns (r: Result<seq<Group>, Refusal>)
    requires p.Valid()
    ensures r.Success? ==> |r.value| == |groups| && ArePlanned(p, proj, resolvers, groups, owners, r.value)
    ensures r.Success? <==> forall i, id :: 0 <= i < |groups| ==>
                              !PlanOf(p, proj, resolvers, groups, owners, i).Blocked(id)
    ensures r.Failure? ==> r.error.CannotRelocate? && r.error.group < |groups|
                           && PlanOf(p, proj, resolvers, groups, owners, r.error.group).Blocked(r.error.id)
  {
    hide IsRelocation, Plan.Blocked;
    var gs: seq<Group> := [];
    for i := 0 to |groups|
      invariant |gs| == i && ArePlanned(p, proj, resolvers, groups, owners, gs)
      invariant forall k, id :: 0 <= k < i ==> !PlanOf(p, proj, resolvers, groups, owners, k).Blocked(id)
    {
      var planned := PlanGroupRelocation(PlanOf(p, proj, resolvers, groups, owners, i));
      if planned.Failure? { return Failure(CannotRelocate(i, planned.error)); }
      gs := gs + [Group(i, groups[i].target, groups[i].inside, planned.value)];
    }
    r := Success(gs);
  }

  // ---- compiling in order ----

  /** The prompts and units after compiling some of the groups. */
  ghost predicate InOrder(p: Prompt, proj: Projection, resolvers: string -> Resolver, partial: set<string>,
                          gs: seq<Group>, stages: seq<Prompt>, units: seq<Unit>)
  {
    && |stages| == |units| + 1 && stages[0] == p && |units| <= |gs|
    && forall i :: 0 <= i < |units| ==>
         && units[i].group == gs[i]
         && IsGroupCompilation(proj, stages[i], resolvers(gs[i].target), partial, units[i], stages[i + 1])
  }

  lemma InOrderGrows(p: Prompt, proj: Projection, resolvers: string -> Resolver, partial: set<string>,
                     gs: seq<Group>, stages: seq<Prompt>, units: seq<Unit>, u: Unit, c: Prompt)
    requires InOrder(p, proj, resolvers, partial, gs, stages, units) && |units| < |gs| && u.group == gs[|units|]
    requires IsGroupCompilation(proj, stages[|units|], resolvers(gs[|units|].target), partial, u, c)
    ensures InOrder(p, proj, resolvers, partial, gs, stages + [c], units + [u])
  {
    hide IsGroupCompilation;
  }

  lemma RestStays(proj: Projection, p: Prompt, u: Unit, c: Prompt, gs: seq<Group>, i: nat)
    requires Compiled(proj, p, u, c) && i < |gs| && gs[i] == u.group && Apart(gs[i..]) && InPrompt(p, gs[i..])
    ensures InPrompt(c, gs[i + 1..]) && Apart(gs[i + 1..])
  {
    hide Compiled, Apart, InPrompt;
    StaysInPrompt(proj, p, u, c, gs[i..]);
    assert gs[i..][1..] == gs[i + 1..];
  }

  /** Compiles the groups one after another into the same prompt. */
  method CompileInOrder(p: Prompt, proj: Projection, resolvers: string -> Resolver, partial: set<string>,
                        gs: seq<Group>)
    returns (r: Result<(Prompt, seq<Unit>), Refusal>, ghost stages: seq<Prompt>)
    requires p.Valid() && InPrompt(p, gs) && Apart(gs)
    ensures r.Success? ==>
              && InOrder(p, proj, resolvers, partial, gs, stages, r.value.1) && |r.value.1| == |gs|
              && r.value.0 == stages[|gs|] && r.value.0.Valid()
    ensures r.Failure? ==>
              && r.error.CannotCompile? && r.error.group < |gs| && |stages| == r.error.group + 1 && stages[0] == p
              && (exists units :: |units| == r.error.group && StagesOf(proj, gs, stages, units))
              && !CanCompile(proj, stages[r.error.group], gs[r.error.group])
  {
    hide Apart, IsGroupCompilation, CanCompile;
    var c := p;
    var units: seq<Unit> := [];
    stages := [p];
    assert gs[0..] == gs;
    for i := 0 to |gs|
      invariant |units| == i && InOrder(p, proj, resolvers, partial, gs, stages, units) && c == stages[i]
      invariant c.Valid() && InPrompt(c, gs[i..]) && Apart(gs[i..])
    {
      assert gs[i..][0] == gs[i];
      var compiled := CompileGroup(proj, c, gs[i], resolvers(gs[i].target), partial);
      if compiled.Failure? {
        InOrderCompiles(p, proj, resolvers, partial, gs, stages, units);
        return Failure(CannotCompile(i, compiled.error)), stages;
      }
      ExpandCompilation(proj, c, resolvers(gs[i].target), partial, compiled.value.0, compiled.value.1);
      RestStays(proj, c, compiled.value.0, compiled.value.1, gs, i);
      InOrderGrows(p, proj, resolvers, partial, gs, stages, units, compiled.value.0, compiled.value.1);
      c, units, stages := compiled.value.1, units + [compiled.value.0], stages + [compiled.value.1];
    }
    r := Success((c, units));
  }

  lemma ExpandCompilation(proj: Projection, p: Prompt, resolver: Resolver, partial: set<string>, u: Unit, c: Prompt)
    requires IsGroupCompilation(proj, p, resolver, partial, u, c)
    ensures Compiled(proj, p, u, c) && c.Valid()
  {
    hide GoodInPorts, GoodOutPorts, GoodNames, IsWorkflow, IsWorkflowOrder, Preload.IsPreload, OutputBothWays,
      CachedByInputs;
  }


  // ---- everything ----

  /** What a successful compilation is. */
  ghost predicate IsResult(p: Prompt, proj: Projection, resolvers: string -> Resolver, partial: set<string>,
                           groups: seq<RemoteGroup>, stages: seq<Prompt>, k: Compilation)
  {
    && IsCompilation(proj, p, stages, k) && |k.units| == |groups|
    && InOrder(p, proj, resolvers, partial, GroupsOf(k.units), stages, k.units)
    && exists owners :: IsMembership(groups, owners)
         && ArePlanned(p, proj, resolvers, groups, owners, GroupsOf(k.units))
         && forall id, name :: !CrossLink(p, owners, id, name)
  }

  /** Why a compilation was refused. */
  ghost predicate Explains(p: Prompt, proj: Projection, resolvers: string -> Resolver, groups: seq<RemoteGroup>,
                           owners: map<string, nat>, stages: seq<Prompt>, e: Refusal)
  {
    match e
    case CrossTarget(id) => exists name :: CrossLink(p, owners, id, name)
    case CannotRelocate(i, id) => i < |groups| && PlanOf(p, proj, resolvers, groups, owners, i).Blocked(id)
    case CannotCompile(i, _) =>
      exists gs, units ::
        && ArePlanned(p, proj, resolvers, groups, owners, gs) && |gs| == |groups|
        && i < |gs| && |units| == i && |stages| == i + 1 && stages[0] == p
        && StagesOf(proj, gs, stages, units) && !CanCompile(proj, stages[i], gs[i])
  }

  ghost predicate StagesOf(proj: Projection, gs: seq<Group>, stages: seq<Prompt>, units: seq<Unit>) {
    |units| <= |gs| && CompiledThrough(proj, stages, units) && GroupsOf(units) == gs[..|units|]
  }

  ghost predicate IsRefusal(p: Prompt, proj: Projection, resolvers: string -> Resolver, groups: seq<RemoteGroup>,
                            stages: seq<Prompt>, e: Refusal)
  {
    exists owners :: IsMembership(groups, owners) && Explains(p, proj, resolvers, groups, owners, stages, e)
  }

  method CompileRemoteGroups(p: Prompt, proj: Projection, resolvers: string -> Resolver, partial: set<string>,
                             groups: seq<RemoteGroup>)
    returns (r: Result<Compilation, Refusal>)
    requires p.Valid() && GoodGroups(p, groups)
    ensures r.Success? ==> exists stages :: IsResult(p, proj, resolvers, partial, groups, stages, r.value)
    ensures r.Failure? ==> exists stages :: IsRefusal(p, proj, resolvers, groups, stages, r.error)
  {
    hide IsMembership, CrossLink, ArePlanned, InOrder, Apart, InPrompt, Plan.Blocked, CanCompile, CompiledThrough,
      IsPruned;
    var owners := GroupMembership(p, groups);
    var cross := FindCrossLink(p, owners);
    if cross.Some? {
      assert IsRefusal(p, proj, resolvers, groups, [], CrossTarget(cross.value));
      return Failure(CrossTarget(cross.value));
    }
    var planned := PlanAll(p, proj, resolvers, groups, owners);
    if planned.Failure? {
      assert IsRefusal(p, proj, resolvers, groups, [], planned.error);
      return Failure(planned.error);
    }
    PlannedApart(p, proj, resolvers, groups, owners, planned.value);
    var compiled, stages := CompileInOrder(p, proj, resolvers, partial, planned.value);
    if compiled.Failure? {
      assert IsRefusal(p, proj, resolvers, groups, stages, compiled.error);
      return Failure(compiled.error);
    }
    var units := compiled.value.1;
    var pruned, removed := PruneRelocated(compiled.value.0, AllRelocated(units));
    InOrderCompiles(p, proj, resolvers, partial, planned.value, stages, units);
    assert planned.value[..|units|] == planned.value;
    r := Success(Compilation(pruned, units, removed));
    assert IsResult(p, proj, resolvers, partial, groups, stages, r.value);
  }

  lemma InOrderCompiles(p: Prompt, proj: Projection, resolvers: string -> Resolver, partial: set<string>,
                        gs: seq<Group>, stages: seq<Prompt>, units: seq<Unit>)
    requires InOrder(p, proj, resolvers, partial, gs, stages, units)
    ensures StagesOf(proj, gs, stages, units) && stages[0] == p
  {
    hide IsGroupCompilation, Compiled;
    forall i | 0 <= i < |units| ensures Compiled(proj, stages[i], units[i], stages[i + 1]) {
      ExpandCompilation(proj, stages[i], resolvers(gs[i].target), partial, units[i], stages[i + 1]);
    }
  }
}
