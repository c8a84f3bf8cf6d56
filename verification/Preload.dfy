/** The part of a remote workflow that can be run ahead of time to load models. */
module Preload {
  import opened Ids
  import opened Prompts
  import opened BoundaryTypes
  import opened Editor
  import opened Semantics
  import opened GroupCode

  /** A link-shaped input of `id` names `src`, whether or not `src` is a node. */
  ghost predicate Names(w: Prompt, id: string, src: string) {
    id in w.nodes && exists name :: name in w.nodes[id].inputs && w.nodes[id].inputs[name].Link?
                                    && w.nodes[id].inputs[name].src == src
  }

  /** A relocated node whose links all name members of `known`. */
  ghost predicate Supported(w: Prompt, relocated: set<string>, known: set<string>, id: string) {
    id in relocated && id in w.nodes && forall src :: Names(w, id, src) ==> src in relocated && src in known
  }

  /** The least set of relocated nodes that holds every node supported by it. */
  ghost predicate IsLeastFixpoint(w: Prompt, relocated: set<string>, ids: set<string>) {
    && (forall id :: id in ids <==> Supported(w, relocated, ids, id))
    && BelowEveryClosedSet(w, relocated, ids)
  }

  method IsSupported(w: Prompt, relocated: set<string>, known: set<string>, id: string) returns (ok: bool)
    requires id in relocated
    ensures ok <==> Supported(w, relocated, known, id)
  {
    if id !in w.nodes { return false; }
    var inputs := w.nodes[id].inputs;
    var names := Enumerate(inputs.Keys);
    for i := 0 to |names|
      invariant forall k :: 0 <= k < i && inputs[names[k]].Link? ==>
                              inputs[names[k]].src in relocated && inputs[names[k]].src in known
    {
      var value := inputs[names[i]];
      if value.Link? && !(value.src in relocated && value.src in known) {
        assert Names(w, id, value.src);
        return false;
      }
    }
    ok := true;
  }

  /** Every set that holds all the nodes it supports holds `ids`. */
  ghost predicate BelowEveryClosedSet(w: Prompt, relocated: set<string>, ids: set<string>) {
    forall other: set<string> :: (forall id :: Supported(w, relocated, other, id) ==> id in other) ==> ids <= other
  }

  lemma SupportedGrows(w: Prompt, relocated: set<string>, known: set<string>, more: set<string>, id: string)
    requires known <= more && Supported(w, relocated, known, id)
    ensures Supported(w, relocated, more, id)
  {
  }

  lemma StaysBelow(w: Prompt, relocated: set<string>, known: set<string>, resolved: set<string>)
    requires BelowEveryClosedSet(w, relocated, known) && forall id <- resolved :: Supported(w, relocated, known, id)
    ensures BelowEveryClosedSet(w, relocated, known + resolved)
  {
    hide Supported;
    forall other: set<string> | forall id :: Supported(w, relocated, other, id) ==> id in other
      ensures known + resolved <= other
    {
      assert known <= other;
      forall id <- resolved ensures id in other { SupportedGrows(w, relocated, known, other, id); }
    }
  }

  /** One round: the remaining nodes that the nodes known so far support. */
  method Resolve(w: Prompt, relocated: set<string>, known: set<string>, remaining: set<string>)
    returns (resolved: set<string>)
    requires remaining <= relocated
    ensures forall id :: id in resolved <==> id in remaining && Supported(w, relocated, known, id)
  {
    hide Supported;
    resolved := {};
    var todo := Enumerate(remaining);
    for i := 0 to |todo|
      invariant forall id :: id in resolved <==> id in todo[..i] && Supported(w, relocated, known, id)
    {
      assert todo[i] in todo && todo[..i + 1] == todo[..i] + [todo[i]];
      var ok := IsSupported(w, relocated, known, todo[i]);
      if ok { resolved := resolved + {todo[i]}; }
    }
    assert todo[..|todo|] == todo;
  }

  /** Rounds of selection, each adding the nodes that the earlier rounds support. */
  method SelectEligible(w: Prompt, relocated: set<string>) returns (eligible: set<string>)
    ensures IsLeastFixpoint(w, relocated, eligible)
  {
    eligible := {};
    var remaining := relocated;
    assert forall known, id :: Supported(w, relocated, known, id) ==> id in relocated;
    hide Supported;
    while remaining != {}
      invariant remaining !! eligible && remaining + eligible == relocated
      invariant forall id <- eligible :: Supported(w, relocated, eligible, id)
      invariant BelowEveryClosedSet(w, relocated, eligible)
      decreases remaining
    {
      var resolved := Resolve(w, relocated, eligible, remaining);
      if resolved == {} { break; }
      StaysBelow(w, relocated, eligible, resolved);
      forall id <- eligible + resolved ensures Supported(w, relocated, eligible + resolved, id) {
        SupportedGrows(w, relocated, eligible, eligible + resolved, id);
      }
      eligible := eligible + resolved;
      remaining := remaining - resolved;
    }
  }

  // ---- what the fixpoint means ----

  ghost predicate IsTrail(w: Prompt, path: seq<string>) {
    path != [] && forall i :: 0 <= i < |path| - 1 ==> Names(w, path[i], path[i + 1])
  }

  /** Following links from `id` never leaves the relocated nodes that are present. */
  ghost predicate StaysRelocated(w: Prompt, relocated: set<string>, id: string) {
    forall path :: IsTrail(w, path) && path[0] == id ==> path[|path| - 1] in relocated && path[|path| - 1] in w.nodes
  }

  /** Ranks of some nodes that fall along every link that they name. */
  ghost predicate Founded(w: Prompt, ids: set<string>, rank: map<string, nat>) {
    && ids <= rank.Keys
    && forall id, src :: id in ids && Names(w, id, src) ==> src in ids && rank[src] < rank[id]
  }

  /** Nodes found to rest on each other only are extended by the nodes they support until all selected are found. */
  lemma {:induction false} FoundedGrows(w: Prompt, relocated: set<string>, ids: set<string>, found: set<string>,
                                        rank: map<string, nat>) returns (full: map<string, nat>)
    requires IsLeastFixpoint(w, relocated, ids) && found <= ids && Founded(w, found, rank)
    requires forall id <- found :: rank[id] < |found|
    ensures Founded(w, ids, full)
    decreases ids - found
  {
    hide Names;
    if id :| id in ids - found && Supported(w, relocated, found, id) {
      assert found + {id} <= ids && ids - (found + {id}) < ids - found;
      full := FoundedGrows(w, relocated, ids, found + {id}, rank[id := |found|]);
    } else {
      forall id | Supported(w, relocated, found, id) ensures id in found {
        SupportedGrows(w, relocated, found, ids, id);
      }
      ClosedSetHolds(w, relocated, ids, found);
      full := rank;
    }
  }

  lemma ClosedSetHolds(w: Prompt, relocated: set<string>, ids: set<string>, other: set<string>)
    requires IsLeastFixpoint(w, relocated, ids) && other <= ids
    requires forall id :: Supported(w, relocated, other, id) ==> id in other
    ensures other == ids
  {
    hide Supported;
    assert ids <= other;
  }

  /** The selection is well-founded, whatever the workflow. */
  lemma SelectionIsFounded(w: Prompt, relocated: set<string>, ids: set<string>) returns (rank: map<string, nat>)
    requires IsLeastFixpoint(w, relocated, ids)
    ensures Founded(w, ids, rank)
  {
    hide Names, IsLeastFixpoint;
    rank := FoundedGrows(w, relocated, ids, {}, map[]);
  }

  /** Following links from `id` never comes to the same node twice. */
  ghost predicate MeetsNoCycle(w: Prompt, id: string) {
    forall path :: IsTrail(w, path) && path[0] == id ==> NoRepeats(path)
  }

  ghost predicate NoRepeats(path: seq<string>) { forall i, j :: 0 <= i < j < |path| ==> path[i] != path[j] }

  /** Ranks fall along a trail. */
  lemma {:induction false} RankFallsAlong(w: Prompt, ids: set<string>, rank: map<string, nat>, path: seq<string>,
                                          i: nat, j: nat)
    requires Founded(w, ids, rank) && IsTrail(w, path) && path[0] in ids && i <= j < |path|
    ensures path[i] in ids && path[j] in ids && (i < j ==> rank[path[j]] < rank[path[i]])
    decreases j
  {
    hide Names;
    if j > 0 {
      RankFallsAlong(w, ids, rank, path, if i < j then i else j - 1, j - 1);
      assert Names(w, path[j - 1], path[j]);
    }
  }

  /** A node at the end of a trail from which no link leaves the relocated nodes or closes a cycle. */
  lemma {:induction false} StayingIsEligible(w: Prompt, relocated: set<string>, ids: set<string>, path: seq<string>)
    requires IsLeastFixpoint(w, relocated, ids) && IsTrail(w, path)
    requires StaysRelocated(w, relocated, path[0]) && MeetsNoCycle(w, path[0])
    ensures path[|path| - 1] in ids
    decreases relocated - (set x | x in path)
  {
    var id := path[|path| - 1];
    forall src | Names(w, id, src) ensures src in relocated && src in ids {
      var longer := path + [src];
      forall i | 0 <= i < |longer| - 1 ensures Names(w, longer[i], longer[i + 1]) {
        if i < |path| - 1 { assert longer[i] == path[i] && longer[i + 1] == path[i + 1]; }
      }
      assert IsTrail(w, longer) && longer[|longer| - 1] == src && longer[0] == path[0];
      assert NoRepeats(longer) && src in relocated;
      forall k | 0 <= k < |path| ensures path[k] != src { assert longer[k] == path[k]; }
      assert forall x :: x in longer <==> x in path || x == src;
      assert src in relocated - (set x | x in path) && src !in relocated - (set x | x in longer);
      StayingIsEligible(w, relocated, ids, longer);
    }
    assert Supported(w, relocated, ids, id);
  }

  /**
   * The nodes selected are exactly those from which following links neither leaves the relocated nodes nor comes
   * to the same node twice, in any workflow.
   */
  lemma EligibleExactly(w: Prompt, relocated: set<string>, ids: set<string>, id: string)
    requires IsLeastFixpoint(w, relocated, ids)
    ensures id in ids <==> StaysRelocated(w, relocated, id) && MeetsNoCycle(w, id)
  {
    if id in ids {
      var rank := SelectionIsFounded(w, relocated, ids);
      forall path | IsTrail(w, path) && path[0] == id
        ensures path[|path| - 1] in relocated && path[|path| - 1] in w.nodes && NoRepeats(path)
      {
        RankFallsAlong(w, ids, rank, path, 0, |path| - 1);
        assert Supported(w, relocated, ids, path[|path| - 1]);
        forall i, j | 0 <= i < j < |path| ensures path[i] != path[j] { RankFallsAlong(w, ids, rank, path, i, j); }
      }
    }
    if StaysRelocated(w, relocated, id) && MeetsNoCycle(w, id) {
      assert IsTrail(w, [id]);
      StayingIsEligible(w, relocated, ids, [id]);
    }
  }

  // ---- the preload workflow ----

  /** The output sockets of eligible nodes whose values cannot be sent. */
  ghost predicate RuntimeOutput(proj: Projection, ids: set<string>, id: string, slot: nat) {
    id in ids && id in proj.nodes && slot < |proj.nodes[id].outputs| && !CanCross(proj.nodes[id].outputs[slot])
  }

  ghost predicate IsPreload(proj: Projection, w: Prompt, ids: set<string>, group: nat, preload: Prompt) {
    && preload.Valid() && ids <= w.nodes.Keys
    && if forall id, slot :: !RuntimeOutput(proj, ids, id, slot) then
         preload.nodes == map id | id in ids :: w.nodes[id]
       else
         exists out, sources :: AsksFor(proj, w, ids, group, preload, out, sources)
  }

  /** Beside the eligible nodes there is one node, which reads exactly their unsendable outputs. */
  ghost predicate AsksFor(proj: Projection, w: Prompt, ids: set<string>, group: nat, preload: Prompt,
                          out: string, sources: seq<Input>)
    requires ids <= w.nodes.Keys
  {
    && out !in ids && IsCandidate(out, PreloadName(group))
    && (forall i :: 0 <= i < |sources| ==>
          sources[i].Link? && RuntimeOutput(proj, ids, sources[i].src, sources[i].slot))
    && (forall id, slot :: RuntimeOutput(proj, ids, id, slot) ==> Link(id, slot) in sources)
    && preload.nodes == (map id | id in ids :: w.nodes[id])[out := Node(ModelPreload, ValueInputs(sources))]
  }

  /** The unsendable outputs of one node after another. */
  method RuntimeSources(proj: Projection, ids: seq<string>) returns (sources: seq<Input>)
    ensures forall i :: 0 <= i < |sources| ==>
              sources[i].Link? && RuntimeOutput(proj, (set id | id in ids), sources[i].src, sources[i].slot)
    ensures forall id, slot :: RuntimeOutput(proj, (set x | x in ids), id, slot) ==> Link(id, slot) in sources
  {
    sources := [];
    ghost var all := set id | id in ids;
    for i := 0 to |ids|
      invariant forall k :: 0 <= k < |sources| ==>
                  sources[k].Link? && RuntimeOutput(proj, all, sources[k].src, sources[k].slot)
      invariant forall k, slot :: 0 <= k < i && RuntimeOutput(proj, all, ids[k], slot) ==> Link(ids[k], slot) in sources
    {
      if ids[i] in proj.nodes {
        var outputs := proj.nodes[ids[i]].outputs;
        ghost var before := sources;
        for j := 0 to |outputs|
          invariant before <= sources
          invariant forall k :: 0 <= k < |sources| ==>
                      sources[k].Link? && RuntimeOutput(proj, all, sources[k].src, sources[k].slot)
          invariant forall slot :: 0 <= slot < j && RuntimeOutput(proj, all, ids[i], slot) ==>
                      Link(ids[i], slot) in sources
        {
          if !CanCross(outputs[j]) { sources := sources + [Link(ids[i], j)]; }
        }
      }
    }
  }

  /** Selects the eligible nodes and adds a node that asks for their unsendable outputs. */
  method PreloadWorkflow(proj: Projection, w: Prompt, relocated: set<string>, group: nat)
    returns (preload: Prompt)
    ensures exists eligible :: IsLeastFixpoint(w, relocated, eligible) && IsPreload(proj, w, eligible, group, preload)
  {
    var ids := SelectEligible(w, relocated);
    assert ids <= w.nodes.Keys by {
      forall id <- ids ensures id in w.nodes { assert Supported(w, relocated, ids, id); }
    }
    var order := Enumerate(ids);
    assert (set id | id in order) == ids;
    preload := Prompt(order, map id | id in ids :: w.nodes[id]);
    var sources := RuntimeSources(proj, order);
    if sources != [] {
      assert RuntimeOutput(proj, ids, sources[0].src, sources[0].slot);
      var out := UniqueId(preload.nodes.Keys, PreloadName(group));
      preload := preload.Put(out, Node(ModelPreload, ValueInputs(sources)));
      assert AsksFor(proj, w, ids, group, preload, out, sources);
    } else {
      forall id, slot ensures !RuntimeOutput(proj, ids, id, slot) {
        assert Link(id, slot) !in sources;
      }
    }
  }

  lemma PreloadSources(proj: Projection, w: Prompt, ids: set<string>, group: nat, preload: Prompt, id: string,
                       name: InputName)
    requires IsPreload(proj, w, ids, group, preload)
    requires id in preload.nodes && name in preload.nodes[id].inputs && preload.nodes[id].inputs[name].Link?
    ensures id in ids ==> preload.nodes[id] == w.nodes[id]
    ensures id !in ids ==> preload.nodes[id].inputs[name].src in ids
    ensures ids <= preload.nodes.Keys
  {
  }

  lemma PreloadKeeps(proj: Projection, w: Prompt, ids: set<string>, group: nat, preload: Prompt)
    requires IsPreload(proj, w, ids, group, preload)
    ensures ids <= preload.nodes.Keys && ids <= w.nodes.Keys && forall id <- ids :: preload.nodes[id] == w.nodes[id]
  {
  }

  /** The preload workflow has no dangling link and no cycle, whatever workflow it was selected from. */
  lemma PreloadIsRunnable(proj: Projection, w: Prompt, relocated: set<string>, ids: set<string>, group: nat,
                          preload: Prompt)
    requires IsLeastFixpoint(w, relocated, ids) && IsPreload(proj, w, ids, group, preload)
    ensures LinkClosed(preload) && Acyclic(preload)
  {
    var rank := SelectionIsFounded(w, relocated, ids);
    PreloadIsRanked(proj, w, ids, group, preload, rank);
  }

  lemma PreloadIsRanked(proj: Projection, w: Prompt, ids: set<string>, group: nat, preload: Prompt,
                        rank: map<string, nat>)
    requires Founded(w, ids, rank) && IsPreload(proj, w, ids, group, preload)
    ensures LinkClosed(preload) && Acyclic(preload)
  {
    var top := RankBound(rank);
    var prank: map<string, nat> := map id | id in preload.nodes :: if id in ids then rank[id] else top;
    PreloadKeeps(proj, w, ids, group, preload);
    hide IsPreload;
    forall id, name | id in preload.nodes && name in preload.nodes[id].inputs && preload.nodes[id].inputs[name].Link?
      ensures preload.nodes[id].inputs[name].src in preload.nodes
      ensures prank[preload.nodes[id].inputs[name].src] < prank[id]
    {
      PreloadSources(proj, w, ids, group, preload, id, name);
      if id in ids { assert Names(w, id, preload.nodes[id].inputs[name].src); }
    }
    assert Ranked(preload, prank);
  }

  /** What is preloaded is worth what the full workflow will ask for, by every valuation that solves the latter. */
  lemma {:induction false} PreloadValues(I: Interp, proj: Projection, w: Prompt, env: Env, val: Valuation,
                                         relocated: set<string>, ids: set<string>, group: nat, preload: Prompt,
                                         rank: map<string, nat>, id: string, slot: nat)
    requires IsLeastFixpoint(w, relocated, ids) && IsPreload(proj, w, ids, group, preload)
    requires Founded(w, ids, rank) && Solves(I, w, env, val) && id in ids
    ensures id in preload.nodes && Acyclic(preload) && ValueOf(I, preload, env, id, slot) == val(id, slot)
    decreases rank[id]
  {
    PreloadIsRunnable(proj, w, relocated, ids, group, preload);
    PreloadKeeps(proj, w, ids, group, preload);
    hide IsPreload, IsLeastFixpoint;
    var n := w.nodes[id];
    forall name | name in n.inputs
      ensures ArgOf(preload, n.inputs[name], Valued(I, preload, env)) == ArgOf(w, n.inputs[name], val)
    {
      if n.inputs[name].Link? {
        assert Names(w, id, n.inputs[name].src);
        PreloadValues(I, proj, w, env, val, relocated, ids, group, preload, rank, n.inputs[name].src,
                      n.inputs[name].slot);
      }
    }
    assert ArgsOf(preload, n, Valued(I, preload, env)) == ArgsOf(w, n, val);
    EvalUnfolds(I, preload, env, id, slot);
  }

  /** So every node is preloaded with its value in the full workflow. */
  lemma PreloadedValue(I: Interp, proj: Projection, w: Prompt, env: Env, val: Valuation, relocated: set<string>,
                       ids: set<string>, group: nat, preload: Prompt, id: string, slot: nat)
    requires IsLeastFixpoint(w, relocated, ids) && IsPreload(proj, w, ids, group, preload)
    requires Solves(I, w, env, val) && id in ids
    ensures id in preload.nodes && Acyclic(preload) && ValueOf(I, preload, env, id, slot) == val(id, slot)
  {
    var rank := SelectionIsFounded(w, relocated, ids);
    PreloadValues(I, proj, w, env, val, relocated, ids, group, preload, rank, id, slot);
  }
}
