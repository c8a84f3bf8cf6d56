/**
 * Which local producers must be rebuilt on the remote machine: those a group reads through
 * links whose values cannot be sent.
 */
module Relocation {
  import opened Wrappers
  import opened Prompts
  import opened BoundaryTypes
  import opened Editor

  /** One group's planning problem. `owners` names the group each grouped node belongs to. */
  datatype Plan = Plan(p: Prompt, proj: Projection, resolver: Resolver, owners: map<string, nat>, group: nat) {

    predicate Inside(id: string) { id in owners && owners[id] == group }

    predicate CanSend(src: string, slot: nat, id: string, name: InputName) {
      CanCross(SocketType(proj, src, slot, id, name))
    }

    /** The source that input `name` of `id` makes the planner visit. */
    function Wanted(id: string, name: InputName): Option<string>
      requires id in p.nodes && name in p.nodes[id].inputs
    {
      match p.nodes[id].inputs[name]
      case Lit(_) => None
      case Link(src, slot) =>
        if src in p.nodes && !Inside(src) && !CanSend(src, slot, id, name) then Some(src) else None
    }

    lemma WantedIsNeeded(id: string, src: string)
      ensures Needs(id, src) <==>
              id in p.nodes && exists name :: name in p.nodes[id].inputs && Wanted(id, name) == Some(src)
      ensures Needs(id, src) ==> src in p.nodes
    {
      hide CanSend;
      if Needs(id, src) {
        var name, slot :| HasLink(p, id, name, src, slot) && !CanSend(src, slot, id, name);
        assert Wanted(id, name) == Some(src);
      } else if id in p.nodes {
        forall name | name in p.nodes[id].inputs ensures Wanted(id, name) != Some(src) {
          if p.nodes[id].inputs[name].Link? && p.nodes[id].inputs[name].src in p.nodes {
            assert HasLink(p, id, name, p.nodes[id].inputs[name].src, p.nodes[id].inputs[name].slot);
          }
        }
      }
    }

    /** Node `id` reads `src` from outside the group through a link that cannot be sent. */
    ghost predicate Needs(id: string, src: string) {
      !Inside(src) && exists name, slot :: HasLink(p, id, name, src, slot) && !CanSend(src, slot, id, name)
    }

    ghost predicate IsChain(path: seq<string>) {
      forall i :: 0 <= i < |path| - 1 ==> Needs(path[i], path[i + 1])
    }

    ghost predicate ChainFrom(path: seq<string>, id: string) {
      |path| >= 2 && path[0] in p.nodes && Inside(path[0]) && path[|path| - 1] == id && IsChain(path)
    }

    /** `id` is reached backwards from the group through links that cannot be sent. */
    ghost predicate Reached(id: string) {
      exists path :: ChainFrom(path, id)
    }

    ghost predicate OnCycle(id: string) {
      exists path: seq<string> :: |path| >= 2 && path[0] == id && path[|path| - 1] == id && IsChain(path)
    }

    /** The reasons for which planning must be refused. */
    ghost predicate Blocked(id: string) {
      Reached(id) && (id in owners || OnCycle(id) || !Relocatable(p, id, resolver))
    }

    ghost predicate Closed(ids: set<string>) {
      forall id, src :: id in ids && Needs(id, src) ==> src in ids
    }

    ghost predicate RankedBy(ids: set<string>, rank: map<string, nat>) {
      && ids <= rank.Keys
      && forall id, src :: id in ids && src in ids && Needs(id, src) ==> rank[src] < rank[id]
    }

    ghost predicate Sound(ids: set<string>) {
      forall id <- ids :: Reached(id) && id !in owners && Relocatable(p, id, resolver)
    }
  }

  /** State of the search: what is done, and in which order it was done. */
  ghost predicate Searched(plan: Plan, done: set<string>, rank: map<string, nat>) {
    && plan.Sound(done)
    && plan.Closed(done)
    && plan.RankedBy(done, rank)
    && forall id <- done :: rank[id] < |done|
  }

  /**
   * The depth-first visit. `stack` is the chain from the group to the parent of `id`, and
   * `visiting` holds that chain without its first node, which lies in the group.
   */
  method Visit(plan: Plan, id: string, done: set<string>, visiting: set<string>,
               ghost rank: map<string, nat>, ghost stack: seq<string>)
    returns (r: Result<set<string>, string>, ghost rank': map<string, nat>)
    requires id in plan.p.nodes && plan.ChainFrom(stack + [id], id) && |stack| >= 1
    requires forall v :: v in visiting <==> v in stack[1..]
    requires Searched(plan, done, rank) && done !! visiting
    ensures r.Failure? ==> plan.Blocked(r.error)
    ensures r.Success? ==> done <= r.value && id in r.value && Searched(plan, r.value, rank') && r.value !! visiting
    decreases plan.p.nodes.Keys - visiting - done
  {
    hide Plan.Wanted, Plan.Needs, Relocatable;
    rank' := rank;
    assert plan.Reached(id);
    if id in plan.owners { return Failure(id), rank; }
    if id in done { return Success(done), rank; }
    if id in visiting {
      OnStackIsCycle(plan, stack, id);
      return Failure(id), rank;
    }
    if !Relocatable(plan.p, id, plan.resolver) { return Failure(id), rank; }
    var inputs := plan.p.nodes[id].inputs;
    var names := Enumerate(inputs.Keys);
    var found := done;
    for i := 0 to |names|
      invariant done <= found && Searched(plan, found, rank') && found !! visiting + {id}
      invariant forall k :: 0 <= k < i && plan.Wanted(id, names[k]).Some? ==> plan.Wanted(id, names[k]).value in found
    {
      var wanted := plan.Wanted(id, names[i]);
      if wanted.Some? {
        plan.WantedIsNeeded(id, wanted.value);
        ExtendChain(plan, stack, id, wanted.value);
        assert id in plan.p.nodes.Keys - visiting - done && id !in plan.p.nodes.Keys - (visiting + {id}) - found;
        var v, rk := Visit(plan, wanted.value, found, visiting + {id}, rank', stack + [id]);
        if v.Failure? { return v, rank'; }
        found, rank' := v.value, rk;
      }
    }
    forall src | plan.Needs(id, src) ensures src in found { plan.WantedIsNeeded(id, src); }
    FinishNode(plan, found, rank', id);
    rank' := rank'[id := |found|];
    r := Success(found + {id});
  }

  lemma OnStackIsCycle(plan: Plan, stack: seq<string>, id: string)
    requires plan.ChainFrom(stack + [id], id) && |stack| >= 1 && id in stack[1..]
    ensures plan.OnCycle(id)
  {
    var k :| 1 <= k < |stack| && stack[k] == id;
    var path := (stack + [id])[k..];
    forall i | 0 <= i < |path| - 1 ensures plan.Needs(path[i], path[i + 1]) {
      assert path[i] == (stack + [id])[k + i] && path[i + 1] == (stack + [id])[k + i + 1];
    }
    assert plan.IsChain(path);
  }

  lemma ExtendChain(plan: Plan, stack: seq<string>, id: string, src: string)
    requires plan.ChainFrom(stack + [id], id) && plan.Needs(id, src) && |stack| >= 1
    ensures plan.ChainFrom(stack + [id] + [src], src)
    ensures (stack + [id])[1..] == stack[1..] + [id]
  {
    var path := stack + [id] + [src];
    forall i | 0 <= i < |path| - 1 ensures plan.Needs(path[i], path[i + 1]) {
      if i < |path| - 2 { assert path[i] == (stack + [id])[i] && path[i + 1] == (stack + [id])[i + 1]; }
    }
  }

  lemma FinishNode(plan: Plan, found: set<string>, rank: map<string, nat>, id: string)
    requires Searched(plan, found, rank) && id !in found
    requires plan.Reached(id) && id !in plan.owners && Relocatable(plan.p, id, plan.resolver)
    requires forall src :: plan.Needs(id, src) ==> src in found
    ensures Searched(plan, found + {id}, rank[id := |found|])
  {
    hide Plan.Wanted, Plan.Needs, Relocatable;
    var now, rk := found + {id}, rank[id := |found|];
    forall a, b | a in now && b in now && plan.Needs(a, b) ensures rk[b] < rk[a] {
      assert b in found;
    }
  }

  lemma ChainPrefix(plan: Plan, path: seq<string>)
    requires plan.IsChain(path) && path != []
    ensures plan.IsChain(path[..|path| - 1])
  {
    var shorter := path[..|path| - 1];
    forall i | 0 <= i < |shorter| - 1 ensures plan.Needs(shorter[i], shorter[i + 1]) {
      assert shorter[i] == path[i] && shorter[i + 1] == path[i + 1];
    }
  }

  /** Everything reached from the group lies in a set that holds the first nodes and is closed. */
  lemma {:induction false} ReachedStaysIn(plan: Plan, ids: set<string>, path: seq<string>)
    requires plan.Closed(ids) && |path| >= 2 && plan.IsChain(path)
    requires path[1] in ids
    ensures path[|path| - 1] in ids
    decreases |path|
  {
    assert plan.Needs(path[|path| - 2], path[|path| - 1]);
    if |path| > 2 {
      var shorter := path[..|path| - 1];
      ChainPrefix(plan, path);
      ReachedStaysIn(plan, ids, shorter);
    }
  }

  /** Ranks fall along a chain inside a closed set, so no chain returns to its start. */
  lemma {:induction false} RankFalls(plan: Plan, ids: set<string>, rank: map<string, nat>, path: seq<string>)
    requires plan.Closed(ids) && plan.RankedBy(ids, rank) && |path| >= 2 && plan.IsChain(path) && path[0] in ids
    ensures path[|path| - 1] in ids && rank[path[|path| - 1]] < rank[path[0]]
    decreases |path|
  {
    assert plan.Needs(path[|path| - 2], path[|path| - 1]);
    if |path| > 2 {
      var shorter := path[..|path| - 1];
      ChainPrefix(plan, path);
      RankFalls(plan, ids, rank, shorter);
    }
  }

  /** The nodes to relocate, said without a search. */
  ghost predicate IsRelocation(plan: Plan, ids: set<string>) {
    && (forall id :: id in ids <==> plan.Reached(id))
    && plan.Sound(ids)
    && exists rank :: plan.RankedBy(ids, rank)
  }

  /**
   * Planning succeeds exactly when no reached node belongs to another group, fails its checks
   * or needs itself; it then returns exactly the reached nodes.
   */
  method PlanGroupRelocation(plan: Plan) returns (r: Result<set<string>, string>)
    requires plan.p.Valid()
    ensures r.Success? ==> IsRelocation(plan, r.value)
    ensures r.Success? <==> forall id :: !plan.Blocked(id)
    ensures r.Failure? ==> plan.Blocked(r.error)
  {
    hide Plan.Wanted, Plan.Needs, Relocatable;
    var inside := set id | id in plan.p.nodes && plan.Inside(id);
    var roots := Enumerate(inside);
    var found: set<string> := {};
    ghost var rank: map<string, nat> := map[];
    for i := 0 to |roots|
      invariant Searched(plan, found, rank)
      invariant forall k, src :: 0 <= k < i && plan.Needs(roots[k], src) ==> src in found
    {
      var id := roots[i];
      assert id in inside;
      var inputs := plan.p.nodes[id].inputs;
      var names := Enumerate(inputs.Keys);
      for j := 0 to |names|
        invariant Searched(plan, found, rank)
        invariant forall k, src :: 0 <= k < i && plan.Needs(roots[k], src) ==> src in found
        invariant forall k :: 0 <= k < j && plan.Wanted(id, names[k]).Some? ==> plan.Wanted(id, names[k]).value in found
      {
        var wanted := plan.Wanted(id, names[j]);
        if wanted.Some? {
          plan.WantedIsNeeded(id, wanted.value);
          assert plan.ChainFrom([id] + [wanted.value], wanted.value);
          var v, rk := Visit(plan, wanted.value, found, {}, rank, [id]);
          if v.Failure? { return v; }
          found, rank := v.value, rk;
        }
      }
      forall src | plan.Needs(id, src) ensures src in found { plan.WantedIsNeeded(id, src); }
    }
    forall id, src | id in plan.p.nodes && plan.Inside(id) && plan.Needs(id, src) ensures src in found {
      assert id in roots;
    }
    SearchIsExact(plan, found, rank);
    r := Success(found);
  }

  lemma SearchIsExact(plan: Plan, found: set<string>, rank: map<string, nat>)
    requires Searched(plan, found, rank)
    requires forall id, src :: id in plan.p.nodes && plan.Inside(id) && plan.Needs(id, src) ==> src in found
    ensures IsRelocation(plan, found) && forall id :: !plan.Blocked(id)
  {
    forall id | plan.Reached(id) ensures id in found && !plan.OnCycle(id) {
      var path :| plan.ChainFrom(path, id);
      assert plan.Needs(path[0], path[1]);
      ReachedStaysIn(plan, found, path);
      if plan.OnCycle(id) {
        var loop: seq<string> :| |loop| >= 2 && loop[0] == id && loop[|loop| - 1] == id && plan.IsChain(loop);
        RankFalls(plan, found, rank, loop);
      }
    }
  }

  /** Once the relocated nodes join the group, every link entering from outside can be sent. */
  lemma EnteringLinksCanBeSent(plan: Plan, ids: set<string>, id: string, name: InputName, src: string, slot: nat)
    requires IsRelocation(plan, ids)
    requires id in plan.p.nodes && (plan.Inside(id) || id in ids)
    requires HasLink(plan.p, id, name, src, slot) && !plan.Inside(src) && src !in ids
    ensures plan.CanSend(src, slot, id, name)
  {
    if !plan.CanSend(src, slot, id, name) {
      assert plan.Needs(id, src);
      if plan.Inside(id) {
        assert plan.ChainFrom([id, src], src);
      } else {
        var path :| plan.ChainFrom(path, id);
        var longer := path + [src];
        forall i | 0 <= i < |longer| - 1 ensures plan.Needs(longer[i], longer[i + 1]) {
          if i < |path| - 1 { assert longer[i] == path[i] && longer[i + 1] == path[i + 1]; }
        }
        assert plan.ChainFrom(longer, src);
      }
    }
  }

  // ---- which producers move ----

  /** Every link that reads `src` has the socket type of a port type, such as IMAGE or LATENT. */
  ghost predicate OnlyPortTypes(plan: Plan, src: string) {
    forall id, name, slot :: HasLink(plan.p, id, name, src, slot) ==>
      exists port :: port in SUPPORTED && port in SOCKETS && SocketType(plan.proj, src, slot, id, name) == SOCKETS[port]
  }

  /** A producer that is read through such links alone stays where it is. */
  lemma PortTypesStay(plan: Plan, ids: set<string>, src: string)
    requires IsRelocation(plan, ids) && OnlyPortTypes(plan, src)
    ensures src !in ids && !plan.Blocked(src)
  {
    hide SUPPORTED, SOCKETS, SocketType, CanCross, Relocatable;
    if plan.Reached(src) {
      var path :| plan.ChainFrom(path, src);
      var id := path[|path| - 2];
      assert plan.Needs(id, src);
      var name, slot :| HasLink(plan.p, id, name, src, slot) && !plan.CanSend(src, slot, id, name);
      var port :| port in SUPPORTED && port in SOCKETS && SocketType(plan.proj, src, slot, id, name) == SOCKETS[port];
      SocketsNormalize(port);
    }
  }

  /** A producer of a model, text encoder or decoder that a grouped node reads is moved, or planning is refused. */
  lemma RuntimeObjectsMove(plan: Plan, id: string, name: InputName, src: string, slot: nat)
    requires plan.Inside(id) && !plan.Inside(src) && HasLink(plan.p, id, name, src, slot)
    requires SocketType(plan.proj, src, slot, id, name) in {"MODEL", "CLIP", "VAE"}
    ensures plan.Reached(src) && forall ids :: IsRelocation(plan, ids) ==> src in ids
  {
    RuntimeObjectsStay();
    hide SocketType, CanCross, Relocatable;
    assert !plan.CanSend(src, slot, id, name) && plan.Needs(id, src);
    assert plan.ChainFrom([id, src], src);
  }

  /** What moves is defined alike on both machines, can be run again there, puts out nothing, and has known inputs. */
  lemma MovedCanBeRebuilt(plan: Plan, ids: set<string>, id: string)
    requires IsRelocation(plan, ids) && id in ids
    ensures id in plan.p.nodes && id !in plan.owners && plan.resolver.Some?
    ensures var node := plan.p.nodes[id];
            && node.kind in plan.resolver.value && (node.kind.Class? ==> !AllSpace(node.kind.name))
            && var (local, remote) := plan.resolver.value[node.kind];
               && local.ok && remote.ok && local.signature == remote.signature
               && !local.outputNode && !remote.outputNode && !local.notIdempotent && !remote.notIdempotent
               && forall name <- node.inputs :: name in local.inputNames
  {
    var kind := plan.p.nodes[id].kind;
    assert Relocatable(plan.p, id, plan.resolver);
    if kind.Class? { BlankExactly(kind.name); }
  }

  /** A reached producer blocks the plan if any of that fails, if it is grouped elsewhere, or if it needs itself. */
  lemma BlockedExactly(plan: Plan, id: string)
    requires plan.Reached(id) && id in plan.p.nodes
    requires plan.resolver.Some? && plan.p.nodes[id].kind in plan.resolver.value
    requires plan.p.nodes[id].kind.Class? ==> !AllSpace(plan.p.nodes[id].kind.name)
    ensures var (local, remote) := plan.resolver.value[plan.p.nodes[id].kind];
            plan.Blocked(id) <==>
              || id in plan.owners || plan.OnCycle(id)
              || local.outputNode || remote.outputNode || local.notIdempotent || remote.notIdempotent
              || !local.ok || !remote.ok || local.signature != remote.signature
              || exists name :: name in plan.p.nodes[id].inputs && name !in local.inputNames
  {
    var kind := plan.p.nodes[id].kind;
    if kind.Class? { BlankExactly(kind.name); }
    hide Plan.OnCycle, Plan.Reached;
  }
}
