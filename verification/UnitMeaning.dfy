/** Compiling one group keeps every value. */
module UnitMeaning {
  import opened Wrappers
  import opened Prompts
  import opened BoundaryTypes
  import opened Contract
  import opened Editor
  import opened Semantics
  import opened GroupCode
  import opened Agreement

  ghost function Encoded(I: Interp, ptype: string, v: Value): Value {
    I.op(ToBlob(ptype), map[Name(ptype) := Val(v), Compress := Const(Text("true"))], 0)
  }

  ghost function Decoded(I: Interp, ptype: string, blob: Value): Value {
    I.op(FromBlob(ptype), map[Blob := Val(blob), Device := Const(Text("auto"))], 0)
  }

  /** Decoding a blob returns the value it was made from. */
  ghost predicate FaithfulBlobs(I: Interp) {
    forall ptype, v :: ptype in BLOB_ADAPTED ==> Decoded(I, ptype, Encoded(I, ptype, v)) == v
  }

  /** Gives the nodes in `ids` the values that their inputs, valued by `val`, give them. */
  ghost function Extend(I: Interp, p: Prompt, env: Env, ids: set<string>, val: Valuation): Valuation {
    (id: string, slot: nat) =>
      if id in ids && id in p.nodes then NodeOut(I, p.nodes[id], ArgsOf(p, p.nodes[id], val), env, slot)
      else val(id, slot)
  }

  ghost predicate ReadsNoneOf(p: Prompt, n: Node, ids: set<string>) {
    forall name :: name in n.inputs && n.inputs[name].Link? && n.inputs[name].src in p.nodes ==>
      n.inputs[name].src !in ids
  }

  lemma ExtendKeepsArgs(I: Interp, p: Prompt, env: Env, ids: set<string>, val: Valuation, n: Node)
    requires ReadsNoneOf(p, n, ids)
    ensures ArgsOf(p, n, Extend(I, p, env, ids, val)) == ArgsOf(p, n, val)
  {
  }

  /** A node's value depends on its class, its literals and its evaluated inputs. */
  lemma SameNodeOut(I: Interp, m: Node, n: Node, args: map<InputName, Arg>, env: Env, slot: nat)
    requires m.kind == n.kind && forall name :: m.LiteralAt(name) == n.LiteralAt(name)
    ensures NodeOut(I, m, args, env, slot) == NodeOut(I, n, args, env, slot)
  {
  }

  /** The request environment matters only to nodes that declare input ports. */
  lemma EnvIrrelevant(I: Interp, n: Node, args: map<InputName, Arg>, env: Env, other: Env, slot: nat)
    requires NoBoundaryOfItsOwn(n)
    ensures NodeOut(I, n, args, env, slot) == NodeOut(I, n, args, other, slot)
  {
  }

  // ---- the remote workflow ----

  /** What is known of a group about to be compiled: the copies are acyclic among themselves. */
  ghost predicate Ready(p: Prompt, g: Group, rank: map<string, nat>) {
    g.Remote() <= p.nodes.Keys && RankedOn(p, g.Remote(), rank) && NoUserBoundary(p, g)
  }

  lemma CopyLinks(proj: Projection, p: Prompt, u: Unit, id: string, name: InputName)
    requires IsWorkflow(proj, p, u)
    requires id in u.group.Remote() && name in u.workflow.nodes[id].inputs && u.workflow.nodes[id].inputs[name].Link?
    ensures u.IsBoundary(u.workflow.nodes[id].inputs[name].src)
            || (Dangles(p, id, name) && u.workflow.nodes[id].inputs[name] == p.nodes[id].inputs[name])
            || (&& u.workflow.nodes[id].inputs[name].src in u.group.Remote()
                && HasLink(p, id, name, u.workflow.nodes[id].inputs[name].src, u.workflow.nodes[id].inputs[name].slot))
  {
    var was, now := p.nodes[id].inputs[name], u.workflow.nodes[id].inputs[name];
    assert InwardNode(proj, p, u.group, u.inbound, id, p.nodes[id], u.workflow.nodes[id]);
    assert InwardInput(proj, p, u.group, u.inbound, id, name, was, now);
    if was.Link? && was.src in p.nodes && was.src !in u.group.Remote() {
      var i :| 0 <= i < |u.inbound| && now == Link(u.inbound[i].boundary, 0);
      assert u.IsBoundary(now.src);
    }
  }

  /**
   * A dangling link of a node that is copied is copied as it is, and dangles in the workflow if nothing captures it.
   */
  lemma CopyDangles(proj: Projection, p: Prompt, u: Unit, id: string, name: InputName)
    requires IsWorkflow(proj, p, u) && id in u.group.Remote() && Dangles(p, id, name)
    ensures id in u.workflow.nodes && name in u.workflow.nodes[id].inputs
    ensures u.workflow.nodes[id].inputs[name] == p.nodes[id].inputs[name]
    ensures var src := p.nodes[id].inputs[name].src;
            Dangles(u.workflow, id, name) <==> !u.MakesRemotely(src)
  {
    assert InwardNode(proj, p, u.group, u.inbound, id, p.nodes[id], u.workflow.nodes[id]);
    assert InwardInput(proj, p, u.group, u.inbound, id, name, p.nodes[id].inputs[name],
                       u.workflow.nodes[id].inputs[name]);
    hide InwardNode, OutputNode, BoundaryNode, Unit.IsEncoder, Unit.IsBoundary;
  }

  lemma BoundariesReadNothing(proj: Projection, p: Prompt, u: Unit, id: string, name: InputName)
    requires IsWorkflow(proj, p, u) && u.IsBoundary(id) && name in u.workflow.nodes[id].inputs
    ensures u.workflow.nodes[id].inputs[name].Lit?
  {
  }

  lemma EncodersReadInside(proj: Projection, p: Prompt, u: Unit, id: string, name: InputName)
    requires IsWorkflow(proj, p, u) && GoodOutPorts(proj, p, u.group, u.outbound) && u.IsEncoder(id)
    requires id in u.workflow.nodes && name in u.workflow.nodes[id].inputs && u.workflow.nodes[id].inputs[name].Link?
    ensures u.workflow.nodes[id].inputs[name].src in u.group.inside
  {
    var i :| 0 <= i < |u.outbound| && u.outbound[i].Adapted() && u.outbound[i].encode == id;
    AdapterNodeFacts(u.outbound[i], "", 0);
    hide BLOB_ADAPTED, OutPort.EncodeNode, InwardNode, SUPPORTED;
    assert u.workflow.nodes[id] == u.outbound[i].EncodeNode();
  }

  lemma OutputReads(proj: Projection, p: Prompt, u: Unit, name: InputName)
    requires IsWorkflow(proj, p, u) && GoodOutPorts(proj, p, u.group, u.outbound)
    requires name in u.workflow.nodes[u.output].inputs && u.workflow.nodes[u.output].inputs[name].Link?
    ensures u.workflow.nodes[u.output].inputs[name].src in u.group.inside
            || u.IsEncoder(u.workflow.nodes[u.output].inputs[name].src)
  {
    assert u.workflow.nodes[u.output] == OutputNode(u.outbound);
    hide OutputNode, IsWorkflow, GoodOutPorts, OutPort.Adapted;
    OutputNodeFacts(u.outbound);
    var i :| 0 <= i < |u.outbound| && u.workflow.nodes[u.output].inputs[name] == u.outbound[i].RemoteSource();
    SourceIsInside(proj, p, u, i);
    RemoteSourceIs(u, i);
    hide Unit.IsEncoder, OutPort.RemoteSource;
  }

  lemma RemoteSourceIs(u: Unit, i: nat)
    requires i < |u.outbound|
    ensures u.outbound[i].RemoteSource().src == u.outbound[i].src || u.IsEncoder(u.outbound[i].RemoteSource().src)
  {
    hide BLOB_ADAPTED;
  }

  lemma SourceIsInside(proj: Projection, p: Prompt, u: Unit, i: nat)
    requires GoodOutPorts(proj, p, u.group, u.outbound) && i < |u.outbound|
    ensures u.outbound[i].src in u.group.inside
  {
    hide SUPPORTED, SocketType, Normalize;
    assert GoodOutPort(proj, p, u.group, u.outbound[i]);
  }

  /** The layers of a workflow: input boundaries, copies, encoders, the output boundary. */
  ghost function Layer(u: Unit, id: string): nat {
    if u.IsBoundary(id) then 0
    else if id in u.group.Remote() then 1
    else if u.IsEncoder(id) then 2
    else 3
  }

  lemma LayersAreApart(proj: Projection, p: Prompt, u: Unit, id: string)
    requires GoodNames(p, u) && GoodInPorts(proj, p, u.group, u.inbound) && u.group.Remote() <= p.nodes.Keys
    ensures id in u.group.Remote() ==> Layer(u, id) == 1
    ensures u.IsEncoder(id) ==> Layer(u, id) == 2
    ensures Layer(u, u.output) == 3
  {
    NamesDiffer(proj, p, u);
  }

  /** Links run from lower to higher layers, except between copies, where they are links of the prompt. */
  lemma LinksClimb(proj: Projection, p: Prompt, u: Unit, id: string, name: InputName, src: string, slot: nat)
    requires GoodNames(p, u) && GoodInPorts(proj, p, u.group, u.inbound) && GoodOutPorts(proj, p, u.group, u.outbound)
    requires IsWorkflow(proj, p, u) && NoCapture(p, u)
    requires HasLink(u.workflow, id, name, src, slot)
    ensures Layer(u, src) < Layer(u, id)
            || (Layer(u, id) == Layer(u, src) == 1 && {id, src} <= u.group.Remote() && HasLink(p, id, name, src, slot))
  {
    hide GoodNames, GoodInPorts, GoodOutPorts, NoCapture, OutputNode, BoundaryNode, InwardNode, BLOB_ADAPTED;
    LayersAreApart(proj, p, u, id);
    LayersAreApart(proj, p, u, src);
    if Layer(u, id) == 0 {
      BoundariesReadNothing(proj, p, u, id, name);
    } else if Layer(u, id) == 1 {
      CopyLinks(proj, p, u, id, name);
      if Dangles(p, id, name) { CopyStaysDangling(proj, p, u, id, name); }
    } else if Layer(u, id) == 2 {
      EncodersReadInside(proj, p, u, id, name);
    } else {
      OutputReads(proj, p, u, name);
    }
  }

  lemma CopyStaysDangling(proj: Projection, p: Prompt, u: Unit, id: string, name: InputName)
    requires IsWorkflow(proj, p, u) && NoCapture(p, u) && id in u.group.Remote() && Dangles(p, id, name)
    ensures Dangles(u.workflow, id, name) && u.workflow.nodes[id].inputs[name] == p.nodes[id].inputs[name]
  {
    hide IsWorkflow, Unit.IsEncoder, Unit.IsBoundary;
    CopyDangles(proj, p, u, id, name);
  }

  lemma WorkflowAcyclic(proj: Projection, p: Prompt, u: Unit, rank: map<string, nat>)
    requires GoodNames(p, u) && GoodInPorts(proj, p, u.group, u.inbound) && GoodOutPorts(proj, p, u.group, u.outbound)
    requires IsWorkflow(proj, p, u) && Ready(p, u.group, rank) && NoCapture(p, u)
    ensures Acyclic(u.workflow)
  {
    hide GoodNames, GoodInPorts, GoodOutPorts, IsWorkflow, NoUserBoundary, NoCapture;
    var w, top := u.workflow, RankBound(rank);
    var wrank: map<string, nat> := map id | id in w.nodes ::
      if Layer(u, id) == 1 then if id in rank then rank[id] + 1 else 0
      else if Layer(u, id) == 0 then 0
      else top + Layer(u, id);
    forall id, name, src, slot | HasLink(w, id, name, src, slot) ensures wrank[src] < wrank[id] {
      LinksClimb(proj, p, u, id, name, src, slot);
      CopiesAreRanked(u, p, rank, id);
      CopiesAreRanked(u, p, rank, src);
    }
    assert Ranked(w, wrank);
  }

  lemma CopiesAreRanked(u: Unit, p: Prompt, rank: map<string, nat>, id: string)
    requires RankedOn(p, u.group.Remote(), rank)
    ensures Layer(u, id) == 1 ==> id in rank && rank[id] < RankBound(rank)
  {
  }

  ghost function LayerSet(u: Unit, k: nat): set<string> {
    set id | id in u.workflow.nodes && Layer(u, id) == k
  }

  /** The values of the workflow's nodes, layer by layer; copies keep the values they have locally. */
  ghost function UpTo(I: Interp, u: Unit, renv: Env, val: Valuation, k: nat): Valuation {
    if k == 0 then Extend(I, u.workflow, renv, LayerSet(u, 0), val)
    else if k == 1 then UpTo(I, u, renv, val, 0)
    else Extend(I, u.workflow, renv, LayerSet(u, k), UpTo(I, u, renv, val, k - 1))
  }

  lemma {:induction false} LowerLayersAreSettled(I: Interp, u: Unit, renv: Env, val: Valuation, j: nat, k: nat,
                                                 id: string, slot: nat)
    requires j <= k && Layer(u, id) <= j
    ensures UpTo(I, u, renv, val, k)(id, slot) == UpTo(I, u, renv, val, j)(id, slot)
  {
    if j < k { LowerLayersAreSettled(I, u, renv, val, j, k - 1, id, slot); }
  }

  /** The request carries what each inbound port's source is worth. */
  ghost predicate RequestFor(u: Unit, val: Valuation, renv: Env) {
    forall i :: 0 <= i < |u.inbound| ==>
                  InPortName(i) in renv && renv[InPortName(i)] == val(u.inbound[i].src, u.inbound[i].slot)
  }

  lemma BoundaryValue(I: Interp, proj: Projection, p: Prompt, u: Unit, renv: Env, val: Valuation, i: nat)
    requires GoodInPorts(proj, p, u.group, u.inbound) && IsWorkflow(proj, p, u)
    requires RequestFor(u, val, renv) && i < |u.inbound|
    ensures UpTo(I, u, renv, val, 3)(u.inbound[i].boundary, 0) == val(u.inbound[i].src, u.inbound[i].slot)
  {
    var id := u.inbound[i].boundary;
    assert Layer(u, id) == 0;
    InPortsReadBack(proj, p, u);
    SinglePort(InPortList(u.inbound), i);
    BoundaryNodeAt(proj, p, u, i);
    hide GoodInPorts, IsWorkflow, PortsOf, NodeOut, Layer;
    LowerLayersAreSettled(I, u, renv, val, 0, 3, id, 0);
    assert id in LayerSet(u, 0);
    var n := u.workflow.nodes[id];
    assert UpTo(I, u, renv, val, 0)(id, 0) == NodeOut(I, n, ArgsOf(u.workflow, n, val), renv, 0);
    ReadOnePort(I, InPortList(u.inbound)[i], ArgsOf(u.workflow, n, val), renv);
  }

  lemma ReadOnePort(I: Interp, port: Port, args: map<InputName, Arg>, env: Env)
    requires PortsOf(Ports([port])) == Some([port]) && port.name in env
    ensures NodeOut(I, BoundaryNode([port]), args, env, 0) == env[port.name]
  {
    hide PortsOf;
    assert BoundaryNode([port]).LiteralAt(PortsJson) == Ports([port]);
  }

  lemma BoundaryNodeAt(proj: Projection, p: Prompt, u: Unit, i: nat)
    requires IsWorkflow(proj, p, u) && i < |u.inbound|
    ensures u.inbound[i].boundary in u.workflow.nodes
    ensures u.workflow.nodes[u.inbound[i].boundary] == BoundaryNode([InPortList(u.inbound)[i]])
  {
  }

  lemma CopyValueKept(I: Interp, u: Unit, renv: Env, val: Valuation, id: string, slot: nat)
    requires Layer(u, id) == 1
    ensures UpTo(I, u, renv, val, 3)(id, slot) == val(id, slot)
  {
    LowerLayersAreSettled(I, u, renv, val, 1, 3, id, slot);
  }

  lemma CopyArg(I: Interp, proj: Projection, p: Prompt, u: Unit, renv: Env, val: Valuation, id: string, name: InputName)
    requires GoodNames(p, u) && GoodInPorts(proj, p, u.group, u.inbound) && IsWorkflow(proj, p, u) && NoCapture(p, u)
    requires RequestFor(u, val, renv) && id in u.group.Remote() && id in p.nodes && id in u.workflow.nodes
    requires name in p.nodes[id].inputs && name in u.workflow.nodes[id].inputs
    requires InwardInput(proj, p, u.group, u.inbound, id, name, p.nodes[id].inputs[name],
                         u.workflow.nodes[id].inputs[name])
    ensures ArgOf(u.workflow, u.workflow.nodes[id].inputs[name], UpTo(I, u, renv, val, 3)) ==
            ArgOf(p, p.nodes[id].inputs[name], val)
  {
    hide GoodNames, GoodInPorts, RequestFor, UpTo, Layer, SocketType, Normalize, NoCapture;
    var was, now := p.nodes[id].inputs[name], u.workflow.nodes[id].inputs[name];
    if was.Link? {
      if was.src !in p.nodes {
        assert Dangles(p, id, name);
        CopyStaysDangling(proj, p, u, id, name);
      } else if was.src in u.group.Remote() {
        LayersAreApart(proj, p, u, was.src);
        CopyValueKept(I, u, renv, val, was.src, was.slot);
        CopiesAreThere(proj, p, u, was.src);
      } else {
        hide IsWorkflow;
        var i :| 0 <= i < |u.inbound| && now == Link(u.inbound[i].boundary, 0)
                 && u.inbound[i].src == was.src && u.inbound[i].slot == was.slot;
        BoundaryValue(I, proj, p, u, renv, val, i);
        BoundaryNodeAt(proj, p, u, i);
      }
    }
  }

  lemma CopiesAreThere(proj: Projection, p: Prompt, u: Unit, id: string)
    requires IsWorkflow(proj, p, u) && id in u.group.Remote()
    ensures id in u.workflow.nodes && id in p.nodes
            && InwardNode(proj, p, u.group, u.inbound, id, p.nodes[id], u.workflow.nodes[id])
  {
    hide InwardNode;
  }

  /** A copy's inputs are worth on the remote machine what the original's are worth locally. */
  lemma CopyArgs(I: Interp, proj: Projection, p: Prompt, u: Unit, renv: Env, val: Valuation, id: string)
    requires GoodNames(p, u) && GoodInPorts(proj, p, u.group, u.inbound) && IsWorkflow(proj, p, u) && NoCapture(p, u)
    requires RequestFor(u, val, renv) && id in u.group.Remote()
    ensures ArgsOf(u.workflow, u.workflow.nodes[id], UpTo(I, u, renv, val, 3)) == ArgsOf(p, p.nodes[id], val)
  {
    CopiesAreThere(proj, p, u, id);
    hide GoodNames, GoodInPorts, RequestFor, UpTo, ArgOf, InwardInput, IsWorkflow, NoCapture;
    forall name | name in p.nodes[id].inputs
      ensures ArgOf(u.workflow, u.workflow.nodes[id].inputs[name], UpTo(I, u, renv, val, 3)) ==
              ArgOf(p, p.nodes[id].inputs[name], val)
    {
      CopyArg(I, proj, p, u, renv, val, id, name);
    }
  }

  /** Nodes outside the copies read only from lower layers, so extending layer by layer values them. */
  lemma GeneratedArgs(I: Interp, proj: Projection, p: Prompt, u: Unit, renv: Env, val: Valuation, id: string, slot: nat)
    requires GoodNames(p, u) && GoodInPorts(proj, p, u.group, u.inbound) && GoodOutPorts(proj, p, u.group, u.outbound)
    requires IsWorkflow(proj, p, u) && NoCapture(p, u)
    requires id in u.workflow.nodes && Layer(u, id) != 1
    ensures UpTo(I, u, renv, val, 3)(id, slot)
            == NodeOut(I, u.workflow.nodes[id], ArgsOf(u.workflow, u.workflow.nodes[id], UpTo(I, u, renv, val, 3)),
                       renv, slot)
  {
    hide GoodNames, GoodInPorts, GoodOutPorts, IsWorkflow, NoCapture, NodeOut;
    var n, k, wval := u.workflow.nodes[id], Layer(u, id), UpTo(I, u, renv, val, 3);
    var below := if k == 0 then val else UpTo(I, u, renv, val, k - 1);
    LowerLayersAreSettled(I, u, renv, val, k, 3, id, slot);
    assert id in LayerSet(u, k);
    forall name | name in n.inputs
      ensures ArgOf(u.workflow, n.inputs[name], wval) == ArgOf(u.workflow, n.inputs[name], below)
    {
      if n.inputs[name].Link? && n.inputs[name].src in u.workflow.nodes {
        var src, s := n.inputs[name].src, n.inputs[name].slot;
        assert HasLink(u.workflow, id, name, src, s);
        LinksClimb(proj, p, u, id, name, src, s);
        LowerLayersAreSettled(I, u, renv, val, k - 1, 3, src, s);
      }
    }
    assert ArgsOf(u.workflow, n, wval) == ArgsOf(u.workflow, n, below);
  }

  lemma CopyValue(I: Interp, proj: Projection, p: Prompt, env: Env, u: Unit, renv: Env, val: Valuation, id: string,
                  slot: nat)
    requires GoodNames(p, u) && GoodInPorts(proj, p, u.group, u.inbound) && IsWorkflow(proj, p, u)
    requires NoCapture(p, u) && NoUserBoundary(p, u.group) && Solves(I, p, env, val)
    requires RequestFor(u, val, renv) && id in u.group.Remote()
    ensures UpTo(I, u, renv, val, 3)(id, slot) == val(id, slot)
    ensures val(id, slot)
            == NodeOut(I, u.workflow.nodes[id], ArgsOf(u.workflow, u.workflow.nodes[id], UpTo(I, u, renv, val, 3)),
                       renv, slot)
  {
    var was, now := p.nodes[id], u.workflow.nodes[id];
    CopyArgs(I, proj, p, u, renv, val, id);
    assert InwardNode(proj, p, u.group, u.inbound, id, was, now);
    forall name ensures now.LiteralAt(name) == was.LiteralAt(name) {
      InwardKeepsLiterals(proj, p, u.group, u.inbound, id, was, now, name);
    }
    SameNodeOut(I, now, was, ArgsOf(p, was, val), renv, slot);
    EnvIrrelevant(I, was, ArgsOf(p, was, val), env, renv, slot);
    LayersAreApart(proj, p, u, id);
    LowerLayersAreSettled(I, u, renv, val, 1, 3, id, slot);
  }

  /** On the remote machine, every copy computes its original's value. */
  lemma WorkflowComputes(I: Interp, proj: Projection, p: Prompt, env: Env, u: Unit, renv: Env, val: Valuation,
                         rank: map<string, nat>)
    requires GoodNames(p, u) && GoodInPorts(proj, p, u.group, u.inbound) && GoodOutPorts(proj, p, u.group, u.outbound)
    requires IsWorkflow(proj, p, u) && NoCapture(p, u) && Ready(p, u.group, rank)
    requires Solves(I, p, env, val) && RequestFor(u, val, renv)
    ensures Acyclic(u.workflow) && Solves(I, u.workflow, renv, UpTo(I, u, renv, val, 3))
    ensures forall id, slot :: id in u.group.Remote() ==>
              id in u.workflow.nodes && ValueOf(I, u.workflow, renv, id, slot) == val(id, slot)
  {
    WorkflowAcyclic(proj, p, u, rank);
    var w, wval := u.workflow, UpTo(I, u, renv, val, 3);
    assert forall id <- u.group.Remote() :: id in w.nodes;
    hide GoodNames, GoodInPorts, GoodOutPorts, IsWorkflow, NodeOut, UpTo, NoCapture;
    forall id, slot | id in w.nodes
      ensures wval(id, slot) == NodeOut(I, w.nodes[id], ArgsOf(w, w.nodes[id], wval), renv, slot)
    {
      if Layer(u, id) == 1 {
        CopyValue(I, proj, p, env, u, renv, val, id, slot);
      } else {
        GeneratedArgs(I, proj, p, u, renv, val, id, slot);
      }
    }
    forall id, slot | id in u.group.Remote() ensures ValueOf(I, w, renv, id, slot) == val(id, slot) {
      CopyValue(I, proj, p, env, u, renv, val, id, slot);
      SolutionIsValue(I, w, renv, wval, id, slot);
    }
  }
}
