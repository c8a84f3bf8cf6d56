/** Compiling one remote group: cutting it out, building its workflow, rewiring what is left. */
module GroupCompiler {
  import opened Wrappers
  import opened Ids
  import opened Prompts
  import opened BoundaryTypes
  import opened Contract
  import opened Editor
  import opened Semantics
  import opened GroupCode
  import opened Agreement
  import opened Preload
  import opened Prune
  import opened Capacity

  datatype CompileError = UnsupportedBoundary(id: string) | TooManyPorts

  /** The values that the ports found so far carry. */
  ghost predicate CarryIn(proj: Projection, p: Prompt, g: Group, inbound: seq<InPort>) {
    forall i :: 0 <= i < |inbound| ==> EntersAs(proj, p, g, (inbound[i].src, inbound[i].slot, inbound[i].ptype))
  }

  lemma TooManyIn(proj: Projection, p: Prompt, g: Group, inbound: seq<InPort>, v: InValue)
    requires GoodInPorts(proj, p, g, inbound) && CarryIn(proj, p, g, inbound) && EntersAs(proj, p, g, v)
    requires forall k :: 0 <= k < |inbound| ==> (inbound[k].src, inbound[k].slot, inbound[k].ptype) != v
    requires |inbound| + 1 > MAX_PORTS
    ensures !CanCompile(proj, p, g)
  {
    hide EntersAs, GoodInPort, AtMostMax;
    var values: seq<InValue> :=
      seq(|inbound|, k requires 0 <= k < |inbound| => (inbound[k].src, inbound[k].slot, inbound[k].ptype)) + [v];
    TooMany(InValues(proj, p, g), values);
  }

  lemma TooManyOut(proj: Projection, p: Prompt, g: Group, outbound: seq<OutPort>, v: OutValue)
    requires GoodOutPorts(proj, p, g, outbound) && LeavesAs(p, g, v)
    requires forall k :: 0 <= k < |outbound| ==> (outbound[k].src, outbound[k].slot) != v
    requires |outbound| + 1 > MAX_PORTS
    ensures !CanCompile(proj, p, g)
  {
    hide Normalize, SocketType, SUPPORTED, AtMostMax;
    var values: seq<OutValue> :=
      seq(|outbound|, k requires 0 <= k < |outbound| => (outbound[k].src, outbound[k].slot)) + [v];
    forall i | 0 <= i < |values| ensures LeavesAs(p, g, values[i]) {
      if i < |outbound| {
        assert GoodOutPort(proj, p, g, outbound[i]);
        var id, name :| id !in g.inside && HasLink(p, id, name, outbound[i].src, outbound[i].slot);
        assert Leaves(p, g, id, name, outbound[i].src, outbound[i].slot);
      }
    }
    TooMany(OutValues(p, g), values);
  }

  /** Every link of node `id` out of the group is allowed. */
  ghost predicate LeavesAllowed(proj: Projection, p: Prompt, g: Group, id: string) {
    forall name, src, slot :: Leaves(p, g, id, name, src, slot) ==> BoundaryType(proj, src, slot, id, name, false).Some?
  }

  lemma CompiledCopies(proj: Projection, p: Prompt, u: Unit, c: Prompt, id: string)
    requires Compiled(proj, p, u, c) && id in u.group.Remote()
    ensures id in p.nodes && id in u.workflow.nodes
            && InwardNode(proj, p, u.group, u.inbound, id, p.nodes[id], u.workflow.nodes[id])
    ensures GoodInPorts(proj, p, u.group, u.inbound)
  {
    hide GoodNames, IsRemainder, GoodInPorts, GoodOutPorts, OutputNode, BoundaryNode, InwardNode, OutPort.Adapted;
  }

  lemma EnteringPort(proj: Projection, p: Prompt, u: Unit, c: Prompt, id: string, name: InputName, src: string,
                     slot: nat)
    returns (i: nat)
    requires Compiled(proj, p, u, c) && Enters(p, u.group, id, name, src, slot)
    ensures i < |u.inbound| && u.inbound[i].src == src && u.inbound[i].slot == slot
    ensures u.inbound[i].ptype == Normalize(SocketType(proj, src, slot, id, name))
    ensures BoundaryType(proj, src, slot, id, name, true).Some?
  {
    hide Compiled, GoodInPorts, GoodInPort, Normalize, SocketType, SUPPORTED, INBOUND_DISALLOWED;
    CompiledCopies(proj, p, u, c, id);
    assert InwardInput(proj, p, u.group, u.inbound, id, name, p.nodes[id].inputs[name],
                       u.workflow.nodes[id].inputs[name]);
    i :| 0 <= i < |u.inbound| && u.inbound[i].src == src && u.inbound[i].slot == slot
         && u.inbound[i].ptype == Normalize(SocketType(proj, src, slot, id, name));
    PortTypeAllowed(proj, p, u, i);
  }

  lemma PortTypeAllowed(proj: Projection, p: Prompt, u: Unit, i: nat)
    requires GoodInPorts(proj, p, u.group, u.inbound) && i < |u.inbound|
    ensures u.inbound[i].ptype in SUPPORTED && u.inbound[i].ptype !in INBOUND_DISALLOWED
  {
    hide SUPPORTED, INBOUND_DISALLOWED;
    assert GoodInPort(p, u.group, i, u.inbound[i]);
  }

  lemma LeavingPort(proj: Projection, p: Prompt, u: Unit, c: Prompt, id: string, name: InputName, src: string,
                    slot: nat)
    returns (i: nat)
    requires Compiled(proj, p, u, c) && Leaves(p, u.group, id, name, src, slot)
    ensures i < |u.outbound| && u.outbound[i].src == src && u.outbound[i].slot == slot
  {
    assert OutwardNode(p, u, p.nodes[id], c.nodes[id]);
    hide Compiled;
    assert OutwardInput(p, u, p.nodes[id].inputs[name], c.nodes[id].inputs[name]);
    i :| 0 <= i < |u.outbound| && u.outbound[i].src == src && u.outbound[i].slot == slot;
  }

  lemma PortCounts(proj: Projection, p: Prompt, u: Unit, c: Prompt)
    requires Compiled(proj, p, u, c)
    ensures |u.inbound| <= MAX_PORTS && |u.outbound| <= MAX_PORTS
  {
    hide GoodInPort, GoodOutPort, GoodNames, IsWorkflow, IsWorkflowOrder, IsRemainder;
  }

  /** A compiled group had only allowed links, and no more values than ports. */
  lemma CompiledFits(proj: Projection, p: Prompt, u: Unit, c: Prompt)
    requires Compiled(proj, p, u, c) && forall id :: LeavesAllowed(proj, p, u.group, id)
    ensures CanCompile(proj, p, u.group)
  {
    hide Compiled, Normalize, SocketType, BoundaryType, AtMostMax, Enters, Leaves, MAX_PORTS;
    var g := u.group;
    PortCounts(proj, p, u, c);
    var ins: seq<InValue> :=
      seq(|u.inbound|, k requires 0 <= k < |u.inbound| => (u.inbound[k].src, u.inbound[k].slot, u.inbound[k].ptype));
    var outs: seq<OutValue> :=
      seq(|u.outbound|, k requires 0 <= k < |u.outbound| => (u.outbound[k].src, u.outbound[k].slot));
    forall id, name, src, slot: nat | Enters(p, g, id, name, src, slot)
      ensures BoundaryType(proj, src, slot, id, name, true).Some?
      ensures (src, slot, Normalize(SocketType(proj, src, slot, id, name))) in ins
    {
      var i := EnteringPort(proj, p, u, c, id, name, src, slot);
      assert ins[i] == (src, slot, Normalize(SocketType(proj, src, slot, id, name)));
    }
    forall v: OutValue | LeavesAs(p, g, v) ensures v in outs {
      var id, name :| Leaves(p, g, id, name, v.0, v.1);
      var i := LeavingPort(proj, p, u, c, id, name, v.0, v.1);
      assert outs[i] == v;
    }
    forall id, name, src, slot: nat | Leaves(p, g, id, name, src, slot)
      ensures BoundaryType(proj, src, slot, id, name, false).Some?
    {
      assert LeavesAllowed(proj, p, g, id);
    }
    FitsWithin(InValues(proj, p, g), ins);
    FitsWithin(OutValues(p, g), outs);
  }

  method FindInPort(inbound: seq<InPort>, src: string, slot: nat, ptype: string) returns (i: nat)
    ensures i <= |inbound|
    ensures i < |inbound| ==> inbound[i].src == src && inbound[i].slot == slot && inbound[i].ptype == ptype
    ensures i == |inbound| ==>
              forall k :: 0 <= k < |inbound| ==>
                (inbound[k].src, inbound[k].slot, inbound[k].ptype) != (src, slot, ptype)
  {
    i := 0;
    while i < |inbound| && !(inbound[i].src == src && inbound[i].slot == slot && inbound[i].ptype == ptype)
      invariant i <= |inbound|
      invariant forall k :: 0 <= k < i ==> (inbound[k].src, inbound[k].slot, inbound[k].ptype) != (src, slot, ptype)
    {
      i := i + 1;
    }
  }

  lemma InwardGrows(proj: Projection, p: Prompt, g: Group, few: seq<InPort>, many: seq<InPort>,
                    id: string, name: InputName, was: Input, now: Input)
    requires few <= many && InwardInput(proj, p, g, few, id, name, was, now)
    ensures InwardInput(proj, p, g, many, id, name, was, now)
  {
    if was.Link? && was.src in p.nodes && was.src !in g.Remote() {
      var i :| 0 <= i < |few| && now == Link(few[i].boundary, 0)
               && few[i].src == was.src && few[i].slot == was.slot
               && few[i].ptype == Normalize(SocketType(proj, was.src, was.slot, id, name));
      assert many[i] == few[i];
    }
  }

  /** The inbound port for one boundary link, made if no earlier link needed the same one. */
  method InPortFor(proj: Projection, p: Prompt, g: Group, inbound: seq<InPort>, id: string, name: InputName,
                   src: string, slot: nat)
    returns (r: Result<(seq<InPort>, nat), CompileError>)
    requires GoodInPorts(proj, p, g, inbound) && CarryIn(proj, p, g, inbound) && Enters(p, g, id, name, src, slot)
    ensures r.Failure? ==> !CanCompile(proj, p, g)
    ensures r.Success? ==> CarryIn(proj, p, g, r.value.0)
    ensures r.Success? ==>
              && GoodInPorts(proj, p, g, r.value.0) && inbound <= r.value.0 && r.value.1 < |r.value.0|
              && r.value.0[r.value.1].src == src && r.value.0[r.value.1].slot == slot
              && r.value.0[r.value.1].ptype == Normalize(SocketType(proj, src, slot, id, name))
  {
    hide Normalize, SocketType, SUPPORTED, INBOUND_DISALLOWED, IsCandidate, GoodInPorts, ValuesFit;
    var ptype := BoundaryType(proj, src, slot, id, name, true);
    if ptype.None? { return Failure(UnsupportedBoundary(id)); }
    var i := FindInPort(inbound, src, slot, ptype.value);
    if i < |inbound| { return Success((inbound, i)); }
    assert EntersAs(proj, p, g, (src, slot, ptype.value));
    if |inbound| + 1 > MAX_PORTS {
      TooManyIn(proj, p, g, inbound, (src, slot, ptype.value));
      return Failure(TooManyPorts);
    }
    var boundary := UniqueId(p.nodes.Keys, BoundaryName(g.index, i));
    AddInPort(proj, p, g, inbound, InPort(ptype.value, src, slot, boundary), id, name);
    r := Success((inbound + [InPort(ptype.value, src, slot, boundary)], i));
  }

  lemma AddInPort(proj: Projection, p: Prompt, g: Group, inbound: seq<InPort>, port: InPort, id: string,
                  name: InputName)
    requires GoodInPorts(proj, p, g, inbound) && |inbound| + 1 <= MAX_PORTS
    requires id in g.Remote() && HasLink(p, id, name, port.src, port.slot) && port.src !in g.Remote()
    requires port.ptype in SUPPORTED && port.ptype !in INBOUND_DISALLOWED
    requires IsCandidate(port.boundary, BoundaryName(g.index, |inbound|)) && port.boundary !in p.nodes
    requires forall k :: 0 <= k < |inbound| ==>
               (inbound[k].src, inbound[k].slot, inbound[k].ptype) != (port.src, port.slot, port.ptype)
    ensures GoodInPorts(proj, p, g, inbound + [port])
  {
    assert GoodInPort(p, g, |inbound|, port);
    hide GoodInPort;
  }

  /** Redirects one copy's outside links to input boundaries. */
  method RewireCopy(proj: Projection, p: Prompt, g: Group, id: string, inbound: seq<InPort>)
    returns (r: Result<(Node, seq<InPort>), CompileError>)
    requires id in g.Remote() && id in p.nodes && GoodInPorts(proj, p, g, inbound) && CarryIn(proj, p, g, inbound)
    ensures r.Failure? ==> !CanCompile(proj, p, g)
    ensures r.Success? ==> CarryIn(proj, p, g, r.value.1)
    ensures r.Success? ==>
              && GoodInPorts(proj, p, g, r.value.1) && inbound <= r.value.1
              && InwardNode(proj, p, g, r.value.1, id, p.nodes[id], r.value.0)
  {
    hide GoodInPorts, CarryIn, CanCompile, Normalize, SocketType;
    var was, ports := p.nodes[id].inputs, inbound;
    var inputs := was;
    var names := Enumerate(was.Keys);
    for i := 0 to |names|
      invariant GoodInPorts(proj, p, g, ports) && CarryIn(proj, p, g, ports) && inbound <= ports
                && inputs.Keys == was.Keys
      invariant forall k :: 0 <= k < i ==> InwardInput(proj, p, g, ports, id, names[k], was[names[k]], inputs[names[k]])
      invariant forall k :: i <= k < |names| ==> inputs[names[k]] == was[names[k]]
    {
      var value := was[names[i]];
      if value.Link? && value.src in p.nodes && value.src !in g.Remote() {
        assert Enters(p, g, id, names[i], value.src, value.slot);
        var port := InPortFor(proj, p, g, ports, id, names[i], value.src, value.slot);
        if port.Failure? { return Failure(port.error); }
        forall k | 0 <= k < i
          ensures InwardInput(proj, p, g, port.value.0, id, names[k], was[names[k]], inputs[names[k]])
        {
          InwardGrows(proj, p, g, ports, port.value.0, id, names[k], was[names[k]], inputs[names[k]]);
        }
        ports := port.value.0;
        inputs := inputs[names[i] := Link(ports[port.value.1].boundary, 0)];
      }
    }
    forall name | name in was ensures InwardInput(proj, p, g, ports, id, name, was[name], inputs[name]) {
      assert name in names;
    }
    r := Success((Node(p.nodes[id].kind, inputs), ports));
  }

  lemma InwardNodeGrows(proj: Projection, p: Prompt, g: Group, few: seq<InPort>, many: seq<InPort>, id: string,
                        was: Node, now: Node)
    requires few <= many && InwardNode(proj, p, g, few, id, was, now)
    ensures InwardNode(proj, p, g, many, id, was, now)
  {
    forall name | name in was.inputs
      ensures InwardInput(proj, p, g, many, id, name, was.inputs[name], now.inputs[name])
    {
      InwardGrows(proj, p, g, few, many, id, name, was.inputs[name], now.inputs[name]);
    }
  }

  ghost predicate AreCopiesFor(proj: Projection, p: Prompt, g: Group, inbound: seq<InPort>, copies: Prompt) {
    && g.Remote() <= p.nodes.Keys && copies.Valid() && copies.nodes.Keys == g.Remote()
    && Enumerates(copies.order, g.Remote())
    && forall id <- g.Remote() :: InwardNode(proj, p, g, inbound, id, p.nodes[id], copies.nodes[id])
  }

  /** Copies the inside and relocated nodes, with their outside links cut at input boundaries. */
  method RewireCopies(proj: Projection, p: Prompt, g: Group)
    returns (r: Result<(Prompt, seq<InPort>), CompileError>)
    requires g.Remote() <= p.nodes.Keys
    ensures r.Failure? ==> !CanCompile(proj, p, g)
    ensures r.Success? ==>
              && GoodInPorts(proj, p, g, r.value.1)
              && AreCopiesFor(proj, p, g, r.value.1, r.value.0)
  {
    hide InwardNode;
    var order := Enumerate(g.Remote());
    var nodes: map<string, Node> := map[];
    var ports: seq<InPort> := [];
    assert GoodInPorts(proj, p, g, ports) && CarryIn(proj, p, g, ports);
    hide GoodInPorts, CarryIn, CanCompile;
    for i := 0 to |order|
      invariant GoodInPorts(proj, p, g, ports) && CarryIn(proj, p, g, ports)
      invariant forall id :: id in nodes <==> id in order[..i]
      invariant forall id <- nodes :: id in p.nodes && InwardNode(proj, p, g, ports, id, p.nodes[id], nodes[id])
    {
      var id := order[i];
      assert id in order && order[..i + 1] == order[..i] + [id];
      var copy := RewireCopy(proj, p, g, id, ports);
      if copy.Failure? { return Failure(copy.error); }
      forall k <- nodes ensures InwardNode(proj, p, g, copy.value.1, k, p.nodes[k], nodes[k]) {
        InwardNodeGrows(proj, p, g, ports, copy.value.1, k, p.nodes[k], nodes[k]);
      }
      nodes, ports := nodes[id := copy.value.0], copy.value.1;
    }
    assert order[..|order|] == order;
    assert nodes.Keys == g.Remote();
    r := Success((Prompt(order, nodes), ports));
  }

  // ---- outbound ports ----

  /** Which outbound port serves each consuming input, the inverse of the ports' consumer lists. */
  type Consumers = map<(string, InputName), nat>

  ghost predicate ConsumersServed(p: Prompt, g: Group, outbound: seq<OutPort>, portOf: Consumers) {
    forall key <- portOf ::
      && portOf[key] < |outbound| && key.0 !in g.inside
      && HasLink(p, key.0, key.1, outbound[portOf[key]].src, outbound[portOf[key]].slot)
  }

  /** Input `name` of `id` reads a grouped node from outside the group. */
  ghost predicate Consumes(p: Prompt, g: Group, id: string, name: InputName) {
    && id !in g.inside && id in p.nodes && name in p.nodes[id].inputs && p.nodes[id].inputs[name].Link?
    && p.nodes[id].inputs[name].src in p.nodes && p.nodes[id].inputs[name].src in g.inside
  }

  method FindOutPort(outbound: seq<OutPort>, src: string, slot: nat) returns (i: nat)
    ensures i <= |outbound|
    ensures i < |outbound| ==> outbound[i].src == src && outbound[i].slot == slot
    ensures i == |outbound| ==> forall k :: 0 <= k < |outbound| ==> (outbound[k].src, outbound[k].slot) != (src, slot)
  {
    i := 0;
    while i < |outbound| && !(outbound[i].src == src && outbound[i].slot == slot)
      invariant i <= |outbound|
      invariant forall k :: 0 <= k < i ==> (outbound[k].src, outbound[k].slot) != (src, slot)
    {
      i := i + 1;
    }
  }

  lemma AddOutPort(proj: Projection, p: Prompt, g: Group, outbound: seq<OutPort>, port: OutPort, id: string,
                   name: InputName)
    requires GoodOutPorts(proj, p, g, outbound) && |outbound| + 1 <= MAX_PORTS
    requires id !in g.inside && HasLink(p, id, name, port.src, port.slot) && port.src in g.inside
    requires port.ptype in SUPPORTED && port.ptype != "cutlery_lora_chain"
    requires port.ptype == Normalize(SocketType(proj, port.src, port.slot, id, name))
    requires forall k :: 0 <= k < |outbound| ==> (outbound[k].src, outbound[k].slot) != (port.src, port.slot)
    ensures GoodOutPorts(proj, p, g, outbound + [port])
  {
    assert GoodOutPort(proj, p, g, port);
    hide GoodOutPort;
  }

  /** The outbound port of a grouped node's slot; its first consumer settles the type. */
  method OutPortFor(proj: Projection, p: Prompt, g: Group, outbound: seq<OutPort>, id: string, name: InputName,
                    src: string, slot: nat)
    returns (r: Result<(seq<OutPort>, nat), CompileError>)
    requires GoodOutPorts(proj, p, g, outbound) && Leaves(p, g, id, name, src, slot)
    ensures r.Failure? ==> !CanCompile(proj, p, g)
    ensures r.Success? ==> BoundaryType(proj, src, slot, id, name, false).Some?
    ensures r.Success? ==>
              && GoodOutPorts(proj, p, g, r.value.0) && outbound <= r.value.0 && r.value.1 < |r.value.0|
              && r.value.0[r.value.1].src == src && r.value.0[r.value.1].slot == slot
  {
    hide Normalize, SocketType, SUPPORTED, GoodOutPorts, ValuesFit;
    var ptype := BoundaryType(proj, src, slot, id, name, false);
    if ptype.None? { return Failure(UnsupportedBoundary(id)); }
    var i := FindOutPort(outbound, src, slot);
    if i < |outbound| { return Success((outbound, i)); }
    if |outbound| + 1 > MAX_PORTS {
      assert LeavesAs(p, g, (src, slot));
      TooManyOut(proj, p, g, outbound, (src, slot));
      return Failure(TooManyPorts);
    }
    AddOutPort(proj, p, g, outbound, OutPort(ptype.value, src, slot, "", ""), id, name);
    r := Success((outbound + [OutPort(ptype.value, src, slot, "", "")], i));
  }

  ghost predicate InputAllowed(proj: Projection, p: Prompt, g: Group, id: string, name: InputName) {
    forall src, slot :: Leaves(p, g, id, name, src, slot) ==> BoundaryType(proj, src, slot, id, name, false).Some?
  }

  lemma AllInputsAllowed(proj: Projection, p: Prompt, g: Group, id: string)
    requires id in p.nodes && forall name <- p.nodes[id].inputs :: InputAllowed(proj, p, g, id, name)
    ensures LeavesAllowed(proj, p, g, id)
  {
  }

  method ConsumersOf(proj: Projection, p: Prompt, g: Group, id: string, outbound: seq<OutPort>, portOf: Consumers)
    returns (r: Result<(seq<OutPort>, Consumers), CompileError>)
    requires GoodOutPorts(proj, p, g, outbound) && ConsumersServed(p, g, outbound, portOf) && id in p.nodes
             && id !in g.inside
    ensures r.Failure? ==> !CanCompile(proj, p, g)
    ensures r.Success? ==> LeavesAllowed(proj, p, g, id)
    ensures r.Success? ==>
              && GoodOutPorts(proj, p, g, r.value.0) && ConsumersServed(p, g, r.value.0, r.value.1)
              && portOf.Keys <= r.value.1.Keys && forall name :: Consumes(p, g, id, name) ==> (id, name) in r.value.1
  {
    hide GoodOutPorts, GoodOutPort, CanCompile, BoundaryType, LeavesAllowed;
    var ports, served := outbound, portOf;
    var inputs := p.nodes[id].inputs;
    var names := Enumerate(inputs.Keys);
    for i := 0 to |names|
      invariant GoodOutPorts(proj, p, g, ports) && ConsumersServed(p, g, ports, served) && portOf.Keys <= served.Keys
      invariant forall k :: 0 <= k < i && Consumes(p, g, id, names[k]) ==> (id, names[k]) in served
      invariant forall k :: 0 <= k < i ==> InputAllowed(proj, p, g, id, names[k])
    {
      var value := inputs[names[i]];
      if value.Link? && value.src in p.nodes && value.src in g.inside {
        assert Leaves(p, g, id, names[i], value.src, value.slot);
        var port := OutPortFor(proj, p, g, ports, id, names[i], value.src, value.slot);
        if port.Failure? { return Failure(port.error); }
        ports, served := port.value.0, served[(id, names[i]) := port.value.1];
      }
    }
    forall name | name in inputs ensures InputAllowed(proj, p, g, id, name) { assert name in names; }
    AllInputsAllowed(proj, p, g, id);
    forall name | Consumes(p, g, id, name) ensures (id, name) in served { assert name in names; }
    r := Success((ports, served));
  }

  lemma NothingLeaves(proj: Projection, p: Prompt, g: Group, id: string)
    requires id !in p.nodes || id in g.inside
    ensures LeavesAllowed(proj, p, g, id)
  {
  }

  /** Walks the prompt for links that leave the group. */
  method CollectOutbound(proj: Projection, p: Prompt, g: Group)
    returns (r: Result<(seq<OutPort>, Consumers), CompileError>)
    requires p.Valid()
    ensures r.Failure? ==> !CanCompile(proj, p, g)
    ensures r.Success? ==> forall id :: LeavesAllowed(proj, p, g, id)
    ensures r.Success? ==>
              && GoodOutPorts(proj, p, g, r.value.0) && ConsumersServed(p, g, r.value.0, r.value.1)
              && forall id, name :: Consumes(p, g, id, name) ==> (id, name) in r.value.1
  {
    var ports: seq<OutPort> := [];
    var served: Consumers := map[];
    assert GoodOutPorts(proj, p, g, ports) && ConsumersServed(p, g, ports, served)
           && WalkedOver(proj, p, g, p.order[..0], served);
    hide GoodOutPorts, CanCompile, BoundaryType, ConsumersServed, LeavesAllowed, WalkedOver;
    for i := 0 to |p.order|
      invariant GoodOutPorts(proj, p, g, ports) && ConsumersServed(p, g, ports, served)
      invariant WalkedOver(proj, p, g, p.order[..i], served)
    {
      var id := p.order[i];
      ghost var before := served;
      if id !in g.inside {
        var more := ConsumersOf(proj, p, g, id, ports, served);
        if more.Failure? { return Failure(more.error); }
        ports, served := more.value.0, more.value.1;
      } else {
        NothingLeaves(proj, p, g, id);
      }
      WalkedOn(proj, p, g, p.order[..i], before, id, served);
      assert p.order[..i + 1] == p.order[..i] + [id];
    }
    assert p.order[..|p.order|] == p.order;
    WalkedAll(proj, p, g, served);
    r := Success((ports, served));
  }

  /** What leaves the group towards these nodes is allowed and served. */
  ghost predicate WalkedOver(proj: Projection, p: Prompt, g: Group, ids: seq<string>, served: Consumers) {
    && (forall id <- ids :: LeavesAllowed(proj, p, g, id))
    && forall id, name :: id in ids && Consumes(p, g, id, name) ==> (id, name) in served
  }

  lemma WalkedOn(proj: Projection, p: Prompt, g: Group, ids: seq<string>, before: Consumers, id: string,
                 served: Consumers)
    requires WalkedOver(proj, p, g, ids, before) && before.Keys <= served.Keys && LeavesAllowed(proj, p, g, id)
    requires forall name :: Consumes(p, g, id, name) ==> (id, name) in served
    ensures WalkedOver(proj, p, g, ids + [id], served)
  {
    hide LeavesAllowed, Consumes;
  }

  lemma WalkedAll(proj: Projection, p: Prompt, g: Group, served: Consumers)
    requires p.Valid() && WalkedOver(proj, p, g, p.order, served)
    ensures forall id :: LeavesAllowed(proj, p, g, id)
    ensures forall id, name :: Consumes(p, g, id, name) ==> (id, name) in served
  {
    hide LeavesAllowed;
    forall id ensures LeavesAllowed(proj, p, g, id) {
      if id !in p.nodes { NothingLeaves(proj, p, g, id); }
    }
  }

  ghost predicate SameSources(outbound: seq<OutPort>, named: seq<OutPort>) {
    |named| == |outbound| && forall i :: 0 <= i < |named| ==>
      named[i].src == outbound[i].src && named[i].slot == outbound[i].slot && named[i].ptype == outbound[i].ptype
  }

  ghost predicate AdaptersNamed(p: Prompt, g: Group, named: seq<OutPort>) {
    forall i :: 0 <= i < |named| && named[i].Adapted() ==>
      && IsCandidate(named[i].encode, EncodeName(g.index, i)) && named[i].encode !in p.nodes
      && IsCandidate(named[i].decode, DecodeName(g.index, i)) && named[i].decode !in p.nodes
  }

  /** Names the adapter nodes; each decoder's name is taken before the next is chosen. */
  method NameAdapters(proj: Projection, p: Prompt, g: Group, outbound: seq<OutPort>)
    returns (named: seq<OutPort>, used: set<string>)
    requires GoodOutPorts(proj, p, g, outbound)
    ensures GoodOutPorts(proj, p, g, named) && |named| == |outbound| && p.nodes.Keys <= used
    ensures forall i :: 0 <= i < |named| && named[i].Adapted() ==> named[i].decode in used
    ensures SameSources(outbound, named) && AdaptersNamed(p, g, named)
  {
    hide IsCandidate, EncodeName, DecodeName, BLOB_ADAPTED, GoodOutPorts;
    used := p.nodes.Keys;
    named := [];
    for i := 0 to |outbound|
      invariant |named| == i && p.nodes.Keys <= used
      invariant forall k :: 0 <= k < i && named[k].Adapted() ==> named[k].decode in used
      invariant forall k :: 0 <= k < i ==>
                  named[k].src == outbound[k].src && named[k].slot == outbound[k].slot
                    && named[k].ptype == outbound[k].ptype
      invariant forall k :: 0 <= k < i && named[k].Adapted() ==>
                  && IsCandidate(named[k].encode, EncodeName(g.index, k)) && named[k].encode !in p.nodes
                  && IsCandidate(named[k].decode, DecodeName(g.index, k)) && named[k].decode !in p.nodes
    {
      var port := outbound[i];
      if port.Adapted() {
        var encode := UniqueId(used, EncodeName(g.index, i));
        var decode := UniqueId(used, DecodeName(g.index, i));
        used := used + {decode};
        port := port.(encode := encode, decode := decode);
      }
      named := named + [port];
    }
    SamePorts(proj, p, g, outbound, named);
  }

  lemma SamePorts(proj: Projection, p: Prompt, g: Group, outbound: seq<OutPort>, named: seq<OutPort>)
    requires GoodOutPorts(proj, p, g, outbound) && SameSources(outbound, named)
    ensures GoodOutPorts(proj, p, g, named)
  {
    hide Normalize, SocketType, SUPPORTED;
    forall i | 0 <= i < |named| ensures GoodOutPort(proj, p, g, named[i]) {
      assert GoodOutPort(proj, p, g, outbound[i]);
    }
  }

  // ---- the workflow ----

  ghost predicate AreAdapted(u: Unit, which: seq<nat>) {
    && (forall i :: 0 <= i < |which| ==> which[i] < |u.outbound| && u.outbound[which[i]].Adapted())
    && (forall i, j :: 0 <= i < j < |which| ==> which[i] < which[j])
    && forall k: nat :: k < |u.outbound| && u.outbound[k].Adapted() ==> k in which
  }

  /** The outbound ports that need an adapter, in order. */
  method AdaptedPorts(u: Unit) returns (which: seq<nat>)
    ensures AreAdapted(u, which)
  {
    hide BLOB_ADAPTED;
    which := [];
    for k := 0 to |u.outbound|
      invariant forall i :: 0 <= i < |which| ==> which[i] < k && u.outbound[which[i]].Adapted()
      invariant forall i, j :: 0 <= i < j < |which| ==> which[i] < which[j]
      invariant forall j: nat :: j < k && u.outbound[j].Adapted() ==> j in which
    {
      if u.outbound[k].Adapted() { which := which + [k]; }
    }
  }

  function EncodeIds(u: Unit, which: seq<nat>): (ids: seq<string>)
    requires AreAdapted(u, which)
    ensures |ids| == |which| && forall i :: 0 <= i < |ids| ==> ids[i] == u.outbound[which[i]].encode
  {
    seq(|which|, i requires 0 <= i < |which| && which[i] < |u.outbound| => u.outbound[which[i]].encode)
  }

  function EncodeNodes(u: Unit, which: seq<nat>): (nodes: seq<Node>)
    requires AreAdapted(u, which)
    ensures |nodes| == |which| && forall i :: 0 <= i < |nodes| ==> nodes[i] == u.outbound[which[i]].EncodeNode()
  {
    seq(|which|, i requires 0 <= i < |which| && which[i] < |u.outbound| && u.outbound[which[i]].Adapted() =>
      u.outbound[which[i]].EncodeNode())
  }

  function DecodeIds(u: Unit, which: seq<nat>): (ids: seq<string>)
    requires AreAdapted(u, which)
    ensures |ids| == |which| && forall i :: 0 <= i < |ids| ==> ids[i] == u.outbound[which[i]].decode
  {
    seq(|which|, i requires 0 <= i < |which| && which[i] < |u.outbound| => u.outbound[which[i]].decode)
  }

  function DecodeNodes(u: Unit, which: seq<nat>): (nodes: seq<Node>)
    requires AreAdapted(u, which)
    ensures |nodes| == |which| && forall i :: 0 <= i < |nodes| ==>
                                    nodes[i] == u.outbound[which[i]].DecodeNode(u.wrapper, which[i])
  {
    seq(|which|, i requires 0 <= i < |which| && which[i] < |u.outbound| && u.outbound[which[i]].Adapted() =>
      u.outbound[which[i]].DecodeNode(u.wrapper, which[i]))
  }

  function BoundaryNodes(u: Unit): (nodes: seq<Node>)
    ensures |nodes| == |BoundaryIds(u)|
    ensures u.inbound == [] ==> nodes == [BoundaryNode([])]
    ensures u.inbound != [] ==>
              forall i :: 0 <= i < |nodes| ==> nodes[i] == BoundaryNode([Port(InPortName(i), u.inbound[i].ptype)])
  {
    if u.inbound == [] then [BoundaryNode([])]
    else seq(|u.inbound|, i requires 0 <= i < |u.inbound| => BoundaryNode([Port(InPortName(i), u.inbound[i].ptype)]))
  }

  lemma EncodersDistinct(p: Prompt, u: Unit, which: seq<nat>)
    requires GoodNames(p, u) && AreAdapted(u, which)
    ensures forall i, j :: 0 <= i < j < |which| ==> EncodeIds(u, which)[i] != EncodeIds(u, which)[j]
    ensures forall i, j :: 0 <= i < j < |which| ==> DecodeIds(u, which)[i] != DecodeIds(u, which)[j]
    ensures forall i :: 0 <= i < |which| ==> EncodeIds(u, which)[i] !in p.nodes && u.IsEncoder(EncodeIds(u, which)[i])
    ensures forall i :: 0 <= i < |which| ==> DecodeIds(u, which)[i] !in p.nodes && u.IsDecoder(DecodeIds(u, which)[i])
  {
    hide IsCandidate, BLOB_ADAPTED;
    forall i, j | 0 <= i < j < |which|
      ensures EncodeIds(u, which)[i] != EncodeIds(u, which)[j] && DecodeIds(u, which)[i] != DecodeIds(u, which)[j]
    {
      AdapterNamesDiffer(p, u, which[i], which[j]);
    }
  }

  lemma BoundariesDistinct(proj: Projection, p: Prompt, u: Unit)
    requires GoodNames(p, u) && GoodInPorts(proj, p, u.group, u.inbound)
    ensures forall i, j :: 0 <= i < j < |BoundaryIds(u)| ==> BoundaryIds(u)[i] != BoundaryIds(u)[j]
    ensures forall i :: 0 <= i < |BoundaryIds(u)| ==> BoundaryIds(u)[i] !in p.nodes && u.IsBoundary(BoundaryIds(u)[i])
    ensures forall id :: u.IsBoundary(id) ==> id in BoundaryIds(u)
  {
    hide IsCandidate, SUPPORTED;
    forall i, j | 0 <= i < j < |BoundaryIds(u)| ensures BoundaryIds(u)[i] != BoundaryIds(u)[j] {
      BoundariesDiffer(proj, p, u, i, j);
    }
    forall i | 0 <= i < |u.inbound| ensures u.inbound[i].boundary !in p.nodes {
      assert GoodInPort(p, u.group, i, u.inbound[i]);
    }
    forall id | u.IsBoundary(id) ensures id in BoundaryIds(u) {
      if u.inbound != [] {
        var i :| 0 <= i < |u.inbound| && u.inbound[i].boundary == id;
        assert BoundaryIds(u)[i] == id;
      }
    }
  }

  /** Puts encoders, input boundaries and the output boundary after the copies. */
  method BuildWorkflow(proj: Projection, p: Prompt, u: Unit, copies: Prompt, which: seq<nat>) returns (w: Prompt)
    requires GoodNames(p, u) && GoodInPorts(proj, p, u.group, u.inbound) && AreAdapted(u, which)
    requires AreCopies(proj, p, u, copies)
    ensures IsWorkflow(proj, p, u.(workflow := w))
    ensures IsWorkflowOrder(u.(workflow := w), copies.order, EncodeIds(u, which))
  {
    hide GoodNames, GoodInPorts, AreAdapted, BoundaryIds, BoundaryNodes, OutputNode, EncodeIds, EncodeNodes;
    EncodersDistinct(p, u, which);
    BoundariesDistinct(proj, p, u);
    EncodersAndBoundariesApart(proj, p, u, which);
    CopiesAreOld(proj, p, u, copies);
    var encoded := PutAll(copies, EncodeIds(u, which), EncodeNodes(u, which));
    var bounded := PutAll(encoded, BoundaryIds(u), BoundaryNodes(u));
    w := bounded.Put(u.output, OutputNode(u.outbound));
    Layered(copies, EncodeIds(u, which), EncodeNodes(u, which), encoded, BoundaryIds(u), BoundaryNodes(u), bounded,
      u.output, OutputNode(u.outbound));
    WorkflowLaidOut(proj, p, u, copies, which, w);
  }

  ghost predicate AreCopies(proj: Projection, p: Prompt, u: Unit, copies: Prompt) {
    AreCopiesFor(proj, p, u.group, u.inbound, copies)
  }

  lemma CopiesAreOld(proj: Projection, p: Prompt, u: Unit, copies: Prompt)
    requires AreCopies(proj, p, u, copies)
    ensures copies.Valid() && forall id :: id in copies.nodes ==> id in p.nodes
  {
  }

  lemma EncodersAndBoundariesApart(proj: Projection, p: Prompt, u: Unit, which: seq<nat>)
    requires GoodNames(p, u) && GoodInPorts(proj, p, u.group, u.inbound) && AreAdapted(u, which)
    ensures forall id <- BoundaryIds(u) :: id !in EncodeIds(u, which)
    ensures u.output !in BoundaryIds(u) && u.output !in EncodeIds(u, which) && u.output !in p.nodes
    ensures forall id :: id in EncodeIds(u, which) <==> u.IsEncoder(id)
    ensures forall id :: id in BoundaryIds(u) <==> u.IsBoundary(id)
  {
    EncodersDistinct(p, u, which);
    BoundariesDistinct(proj, p, u);
    NamesDiffer(proj, p, u);
    assert u.output !in p.nodes;
    hide GoodNames, GoodInPorts, BoundaryIds, BLOB_ADAPTED, Unit.IsBoundary, OutPort.Adapted;
    forall id | u.IsEncoder(id) ensures id in EncodeIds(u, which) {
      var k: nat :| k < |u.outbound| && u.outbound[k].Adapted() && u.outbound[k].encode == id;
      var i :| 0 <= i < |which| && which[i] == k;
      assert EncodeIds(u, which)[i] == id;
    }
  }

  lemma EncoderAt(u: Unit, which: seq<nat>, k: nat) returns (i: nat)
    requires AreAdapted(u, which) && k < |u.outbound| && u.outbound[k].Adapted()
    ensures i < |which| && EncodeIds(u, which)[i] == u.outbound[k].encode
    ensures EncodeNodes(u, which)[i] == u.outbound[k].EncodeNode()
    ensures DecodeIds(u, which)[i] == u.outbound[k].decode
    ensures DecodeNodes(u, which)[i] == u.outbound[k].DecodeNode(u.wrapper, k)
  {
    i :| 0 <= i < |which| && which[i] == k;
  }

  lemma BoundaryAt(u: Unit, i: nat)
    requires i < |u.inbound|
    ensures i < |BoundaryIds(u)| && BoundaryIds(u)[i] == u.inbound[i].boundary
    ensures BoundaryNodes(u)[i] == BoundaryNode([Port(InPortName(i), u.inbound[i].ptype)])
  {
  }

  lemma EmptyBoundaryAt(u: Unit)
    requires u.inbound == []
    ensures BoundaryIds(u) == [u.emptyInput] && BoundaryNodes(u) == [BoundaryNode([])]
  {
  }

  /** A prompt made of copies, two lots of new nodes, and a last node. */
  ghost predicate IsLayered(copies: Prompt, ids: seq<string>, nodes: seq<Node>, more: seq<string>, others: seq<Node>,
                            last: string, node: Node, w: Prompt)
  {
    && w.Valid() && |nodes| == |ids| && |others| == |more|
    && w.order == copies.order + ids + more + [last]
    && (forall id :: id in w.nodes <==> id in copies.nodes || id in ids || id in more || id == last)
    && (forall id :: id in copies.nodes ==> id in w.nodes && w.nodes[id] == copies.nodes[id])
    && (forall i :: 0 <= i < |ids| ==> ids[i] in w.nodes && w.nodes[ids[i]] == nodes[i])
    && (forall i :: 0 <= i < |more| ==> more[i] in w.nodes && w.nodes[more[i]] == others[i])
    && last in w.nodes && w.nodes[last] == node
  }

  lemma Layered(copies: Prompt, ids: seq<string>, nodes: seq<Node>, encoded: Prompt, more: seq<string>,
                others: seq<Node>, bounded: Prompt, last: string, node: Node)
    requires IsExtension(copies, ids, nodes, encoded) && IsExtension(encoded, more, others, bounded)
    requires last !in copies.nodes && last !in ids && last !in more
    ensures IsLayered(copies, ids, nodes, more, others, last, node, bounded.Put(last, node))
  {
  }

  lemma WorkflowLaidOut(proj: Projection, p: Prompt, u: Unit, copies: Prompt, which: seq<nat>, w: Prompt)
    requires GoodNames(p, u) && GoodInPorts(proj, p, u.group, u.inbound) && AreAdapted(u, which)
    requires AreCopies(proj, p, u, copies)
    requires IsLayered(copies, EncodeIds(u, which), EncodeNodes(u, which), BoundaryIds(u), BoundaryNodes(u),
                       u.output, OutputNode(u.outbound), w)
    ensures IsWorkflow(proj, p, u.(workflow := w))
    ensures IsWorkflowOrder(u.(workflow := w), copies.order, EncodeIds(u, which))
  {
    hide GoodNames, GoodInPorts, InwardNode, BoundaryNode, OutputNode, BoundaryIds, BoundaryNodes, EncodeNodes,
      EncodeIds, DecodeIds, DecodeNodes, OutPort.EncodeNode, OutPort.DecodeNode, OutPort.Adapted, Unit.IsEncoder,
      Unit.IsBoundary, InPortName, AreAdapted;
    EncodersAndBoundariesApart(proj, p, u, which);
    SameParts(u, w);
    forall k: nat | k < |u.outbound| && u.outbound[k].Adapted()
      ensures u.outbound[k].encode in w.nodes && w.nodes[u.outbound[k].encode] == u.outbound[k].EncodeNode()
    {
      var i := EncoderAt(u, which, k);
    }
    forall i: nat | i < |u.inbound|
      ensures u.inbound[i].boundary in w.nodes
      ensures w.nodes[u.inbound[i].boundary] == BoundaryNode([Port(InPortName(i), u.inbound[i].ptype)])
    {
      BoundaryAt(u, i);
    }
    if u.inbound == [] { EmptyBoundaryAt(u); assert BoundaryIds(u)[0] == u.emptyInput; }
    forall id <- u.group.Remote()
      ensures id in w.nodes && InwardNode(proj, p, u.group, u.inbound, id, p.nodes[id], w.nodes[id])
    {
      assert id in copies.nodes;
    }
  }

  /** Filling in the workflow changes no other part of a unit. */
  lemma SameParts(u: Unit, w: Prompt)
    ensures BoundaryIds(u.(workflow := w)) == BoundaryIds(u)
    ensures forall id :: u.(workflow := w).IsEncoder(id) <==> u.IsEncoder(id)
    ensures forall id :: u.(workflow := w).IsBoundary(id) <==> u.IsBoundary(id)
  {
    hide OutPort.Adapted;
  }

  // ---- the wrapper's class and cache policy ----

  predicate Blank(kind: Kind) { kind.Class? && Strip(kind.name) == "" }

  /** A grouped node is an output node both here and on the remote machine. */
  predicate OutputBothWays(p: Prompt, id: string, resolver: Resolver) {
    && id in p.nodes && !Blank(p.nodes[id].kind) && HasDefinitions(resolver, p.nodes[id].kind)
    && resolver.value[p.nodes[id].kind].0.outputNode && resolver.value[p.nodes[id].kind].1.outputNode
  }

  method ExecutorClass(p: Prompt, g: Group, outbound: seq<OutPort>, resolver: Resolver, partial: set<string>)
    returns (kind: Kind)
    ensures IsExecutor(kind)
    ensures kind == GroupExecutor <==>
              || g.inside * partial != {} || outbound == []
              || exists id :: id in g.inside && OutputBothWays(p, id, resolver)
  {
    hide HasDefinitions, Blank;
    if g.inside * partial != {} || outbound == [] { return GroupExecutor; }
    if resolver.None? {
      assert forall id :: !OutputBothWays(p, id, resolver) by { NoDefinitions(p); }
      return GroupValueExecutor;
    }
    var ids := Enumerate(g.inside);
    for i := 0 to |ids|
      invariant forall k :: 0 <= k < i ==> !OutputBothWays(p, ids[k], resolver)
    {
      if OutputBothWays(p, ids[i], resolver) {
        assert ids[i] in ids;
        return GroupExecutor;
      }
    }
    forall id | id in g.inside ensures !OutputBothWays(p, id, resolver) { assert id in ids; }
    kind := GroupValueExecutor;
  }

  lemma NoDefinitions(p: Prompt)
    ensures forall id :: !OutputBothWays(p, id, None) && !CachedByInputs(p, id, None)
  {
  }

  /** A node whose results may be cached under its declared inputs alone, here and remotely. */
  predicate CachedByInputs(p: Prompt, id: string, resolver: Resolver) {
    && id in p.nodes && !Blank(p.nodes[id].kind) && HasDefinitions(resolver, p.nodes[id].kind)
    && resolver.value[p.nodes[id].kind].0.declaredInputsOnly && resolver.value[p.nodes[id].kind].1.declaredInputsOnly
  }

  /** A node with definitions on both sides is an output node both ways, or cached by its inputs, if both say so. */
  lemma BothSidesDecide(p: Prompt, id: string, here: Definition, there: Definition,
                        definitions: map<Kind, (Definition, Definition)>)
    requires id in p.nodes && p.nodes[id].kind in definitions && definitions[p.nodes[id].kind] == (here, there)
    requires p.nodes[id].kind.Class? ==> !AllSpace(p.nodes[id].kind.name)
    ensures OutputBothWays(p, id, Some(definitions)) <==> here.outputNode && there.outputNode
    ensures CachedByInputs(p, id, Some(definitions)) <==> here.declaredInputsOnly && there.declaredInputsOnly
  {
    if p.nodes[id].kind.Class? { BlankExactly(p.nodes[id].kind.name); }
  }

  lemma UndefinedIsNeither(p: Prompt, id: string, resolver: Resolver)
    requires id in p.nodes ==>
               || resolver.None? || p.nodes[id].kind !in resolver.value
               || (p.nodes[id].kind.Class? && AllSpace(p.nodes[id].kind.name))
    ensures !OutputBothWays(p, id, resolver) && !CachedByInputs(p, id, resolver)
  {
    if id in p.nodes && p.nodes[id].kind.Class? { BlankExactly(p.nodes[id].kind.name); }
  }

  /** The sender may cache only when every remote node can be cached by its inputs. */
  method GroupCachePolicy(kind: Kind, p: Prompt, g: Group, resolver: Resolver) returns (policy: string)
    ensures policy == "sender-v1" <==>
              kind == GroupValueExecutor && resolver.Some? && forall id <- g.Remote() :: CachedByInputs(p, id, resolver)
    ensures policy == "sender-v1" || policy == "remote"
  {
    hide HasDefinitions, Blank;
    if kind != GroupValueExecutor || resolver.None? { return "remote"; }
    var ids := Enumerate(g.Remote());
    for i := 0 to |ids|
      invariant forall k :: 0 <= k < i ==> CachedByInputs(p, ids[k], resolver)
    {
      if !CachedByInputs(p, ids[i], resolver) {
        assert ids[i] in ids;
        return "remote";
      }
    }
    forall id <- g.Remote() ensures CachedByInputs(p, id, resolver) { assert id in ids; }
    policy := "sender-v1";
  }

  // ---- what is left of the prompt ----

  /** Redirects one consumer's links into the group to the ports that serve them. */
  method RewireConsumer(p: Prompt, u: Unit, served: Consumers, id: string) returns (node: Node)
    requires id in p.nodes && id !in u.group.inside && ConsumersServed(p, u.group, u.outbound, served)
    requires forall name :: Consumes(p, u.group, id, name) ==> (id, name) in served
    ensures OutwardNode(p, u, p.nodes[id], node)
  {
    hide Unit.LocalSource;
    var was := p.nodes[id].inputs;
    var inputs := was;
    var names := Enumerate(was.Keys);
    for i := 0 to |names|
      invariant inputs.Keys == was.Keys
      invariant forall k :: 0 <= k < i ==> OutwardInput(p, u, was[names[k]], inputs[names[k]])
      invariant forall k :: i <= k < |names| ==> inputs[names[k]] == was[names[k]]
    {
      var value := was[names[i]];
      if value.Link? && value.src in p.nodes && value.src in u.group.inside {
        assert Consumes(p, u.group, id, names[i]);
        var port := served[(id, names[i])];
        assert HasLink(p, id, names[i], u.outbound[port].src, u.outbound[port].slot);
        inputs := inputs[names[i] := u.LocalSource(port)];
      }
    }
    forall name | name in was ensures OutwardInput(p, u, was[name], inputs[name]) { assert name in names; }
    node := Node(p.nodes[id].kind, inputs);
  }

  ghost predicate Rewired(p: Prompt, u: Unit, id: string, c: Prompt) {
    id in p.nodes && id in c.nodes && OutwardNode(p, u, p.nodes[id], c.nodes[id])
  }

  /** Redirects every consumer; `d` is `p` with the decoders put in. */
  method RewireConsumers(p: Prompt, u: Unit, served: Consumers, d: Prompt) returns (c: Prompt)
    requires p.Valid() && d.Valid() && p.nodes.Keys <= d.nodes.Keys && ConsumersServed(p, u.group, u.outbound, served)
    requires forall id, name :: Consumes(p, u.group, id, name) ==> (id, name) in served
    ensures c.Valid() && c.nodes.Keys == d.nodes.Keys
    ensures forall id :: id in p.nodes && id !in u.group.inside ==> Rewired(p, u, id, c)
    ensures forall id :: id in d.nodes && id !in p.nodes ==> c.nodes[id] == d.nodes[id]
  {
    assert RewiredSoFar(p, u, d, [], d);
    hide Prompt.Put, RewiredSoFar, OutwardNode;
    c := d;
    for i := 0 to |p.order|
      invariant c.Valid() && RewiredSoFar(p, u, d, p.order[..i], c)
    {
      var id := p.order[i];
      assert p.order[..i + 1] == p.order[..i] + [id];
      if id !in u.group.inside {
        var node := RewireConsumer(p, u, served, id);
        RewireOne(p, u, d, p.order[..i], c, id, node);
        c := c.Put(id, node);
      } else {
        RewireNone(p, u, d, p.order[..i], c, id);
      }
    }
    assert p.order[..|p.order|] == p.order;
    AllRewired(p, u, d, c);
  }

  ghost predicate RewiredSoFar(p: Prompt, u: Unit, d: Prompt, done: seq<string>, c: Prompt) {
    && c.nodes.Keys == d.nodes.Keys
    && (forall id <- done :: id !in u.group.inside ==> Rewired(p, u, id, c))
    && forall id :: id in d.nodes && id !in p.nodes ==> c.nodes[id] == d.nodes[id]
  }

  lemma RewireOne(p: Prompt, u: Unit, d: Prompt, done: seq<string>, c: Prompt, id: string, node: Node)
    requires RewiredSoFar(p, u, d, done, c) && c.Valid() && id in p.nodes && p.nodes.Keys <= d.nodes.Keys
    requires OutwardNode(p, u, p.nodes[id], node)
    ensures RewiredSoFar(p, u, d, done + [id], c.Put(id, node))
  {
    hide OutwardNode;
  }

  lemma RewireNone(p: Prompt, u: Unit, d: Prompt, done: seq<string>, c: Prompt, id: string)
    requires RewiredSoFar(p, u, d, done, c) && id in u.group.inside
    ensures RewiredSoFar(p, u, d, done + [id], c)
  {
    hide OutwardNode;
  }

  lemma AllRewired(p: Prompt, u: Unit, d: Prompt, c: Prompt)
    requires p.Valid() && RewiredSoFar(p, u, d, p.order, c)
    ensures c.nodes.Keys == d.nodes.Keys
    ensures forall id :: id in p.nodes && id !in u.group.inside ==> Rewired(p, u, id, c)
    ensures forall id :: id in d.nodes && id !in p.nodes ==> c.nodes[id] == d.nodes[id]
  {
    hide OutwardNode;
    forall id | id in p.nodes && id !in u.group.inside ensures Rewired(p, u, id, c) { assert id in p.order; }
  }

  /** Puts in decoders, rewires consumers, takes out the group, and puts in preparation and wrapper. */
  method BuildRemainder(proj: Projection, p: Prompt, u: Unit, which: seq<nat>, served: Consumers) returns (c: Prompt)
    requires p.Valid() && GoodNames(p, u) && GoodInPorts(proj, p, u.group, u.inbound) && AreAdapted(u, which)
    requires IsExecutor(u.wrapperKind) && ConsumersServed(p, u.group, u.outbound, served)
    requires forall id, name :: Consumes(p, u.group, id, name) ==> (id, name) in served
    requires u.group.inside <= p.nodes.Keys
    ensures IsRemainder(p, u, c)
  {
    hide GoodNames, GoodInPorts, AreAdapted, DecodeIds, DecodeNodes, ConsumersServed, Consumes, OutwardNode, IsExecutor;
    EncodersDistinct(p, u, which);
    var decoded := PutAll(p, DecodeIds(u, which), DecodeNodes(u, which));
    var rewired := RewireConsumers(p, u, served, decoded);
    var cut := RemoveAll(rewired, u.group.inside);
    c := cut.Put(u.prepare, PrepareNode(u)).Put(u.wrapper, WrapperNode(u));
    RemainderLaidOut(proj, p, u, which, decoded, rewired, cut, c);
  }

  lemma DecodersHere(p: Prompt, u: Unit, which: seq<nat>)
    requires GoodNames(p, u) && AreAdapted(u, which)
    ensures forall id :: id in DecodeIds(u, which) <==> u.IsDecoder(id)
    ensures forall id :: u.IsDecoder(id) ==> id !in p.nodes
    ensures u.wrapper !in p.nodes && (u.prepare in p.nodes ==> u.prepare in u.group.inside)
  {
    EncodersDistinct(p, u, which);
    assert u.wrapper !in p.nodes && (u.prepare in p.nodes ==> u.prepare in u.group.inside);
    hide GoodNames, BLOB_ADAPTED;
    forall id | u.IsDecoder(id) ensures id in DecodeIds(u, which) {
      var k: nat :| k < |u.outbound| && u.outbound[k].Adapted() && u.outbound[k].decode == id;
      var i := EncoderAt(u, which, k);
    }
  }

  lemma RemainderLaidOut(proj: Projection, p: Prompt, u: Unit, which: seq<nat>, decoded: Prompt, rewired: Prompt,
                         cut: Prompt, c: Prompt)
    requires GoodNames(p, u) && GoodInPorts(proj, p, u.group, u.inbound) && AreAdapted(u, which)
             && IsExecutor(u.wrapperKind)
    requires u.group.inside <= p.nodes.Keys
    requires IsExtension(p, DecodeIds(u, which), DecodeNodes(u, which), decoded)
    requires rewired.nodes.Keys == decoded.nodes.Keys
    requires forall id :: id in p.nodes && id !in u.group.inside ==> Rewired(p, u, id, rewired)
    requires forall id :: id in decoded.nodes && id !in p.nodes ==> rewired.nodes[id] == decoded.nodes[id]
    requires cut.nodes == rewired.nodes - u.group.inside
    requires c.Valid() && c.nodes == cut.nodes[u.prepare := PrepareNode(u)][u.wrapper := WrapperNode(u)]
    ensures IsRemainder(p, u, c)
  {
    hide GoodNames, GoodInPorts, AreAdapted, DecodeIds, DecodeNodes, OutwardNode, IsExecutor, PrepareNode, WrapperNode,
      Unit.IsDecoder, OutPort.DecodeNode, OutPort.Adapted, Prompt.Valid;
    NamesDiffer(proj, p, u);
    DecodersHere(p, u, which);
    forall k: nat | k < |u.outbound| && u.outbound[k].Adapted()
      ensures u.outbound[k].decode in c.nodes && c.nodes[u.outbound[k].decode] == u.outbound[k].DecodeNode(u.wrapper, k)
    {
      var i := EncoderAt(u, which, k);
    }
  }

  // ---- one group ----

  /** What the compiler knows of a group once it has been compiled. */
  ghost predicate IsGroupCompilation(proj: Projection, p: Prompt, resolver: Resolver, partial: set<string>, u: Unit,
                                     c: Prompt) {
    && Compiled(proj, p, u, c)
    && (exists eligible :: IsLeastFixpoint(u.workflow, u.group.relocated, eligible)
                           && IsPreload(proj, u.workflow, eligible, u.group.index, u.preload))
    && (u.wrapperKind == GroupExecutor <==>
          || u.group.inside * partial != {} || u.outbound == []
          || exists id :: id in u.group.inside && OutputBothWays(p, id, resolver))
    && (u.cachePolicy == "sender-v1" <==>
          && u.wrapperKind == GroupValueExecutor && resolver.Some?
          && forall id <- u.group.Remote() :: CachedByInputs(p, id, resolver))
  }

  /** The preload workflow that node `prep` is given is the one selected from the workflow it is given. */
  ghost predicate GivenPreload(proj: Projection, g: Group, prep: Node) {
    && prep.LiteralAt(RemoteWorkflowJson).Workflow? && prep.LiteralAt(PreloadWorkflowJson).Workflow?
    && var w := prep.LiteralAt(RemoteWorkflowJson).prompt;
       exists eligible :: IsLeastFixpoint(w, g.relocated, eligible)
                          && IsPreload(proj, w, eligible, g.index, prep.LiteralAt(PreloadWorkflowJson).prompt)
  }

  /**
   * The node that a wrapper waits for prepares what the wrapper will run: it is given the same workflow for the same
   * machine, the group's, under the same cache policy and time limit; and it preloads what can be run of that workflow
   * without a request.
   */
  lemma PreparationAgrees(proj: Projection, p: Prompt, resolver: Resolver, partial: set<string>, u: Unit, c: Prompt)
    requires IsGroupCompilation(proj, p, resolver, partial, u, c)
    ensures u.wrapper in c.nodes && IsExecutor(c.nodes[u.wrapper].kind) && Preparation in c.nodes[u.wrapper].inputs
    ensures var wrapper := c.nodes[u.wrapper]; var link := wrapper.inputs[Preparation];
            && link.Link? && link.slot == 0 && link.src in c.nodes
            && var prep := c.nodes[link.src];
               && prep.kind == GroupPreparation && GivenPreload(proj, u.group, prep)
               && (forall name <- {RemoteWorkflowJson, RemoteBaseUrl, TimeoutSeconds, CachePolicy} ::
                     name in prep.inputs && name in wrapper.inputs
                     && wrapper.inputs[name].Lit? && prep.inputs[name] == wrapper.inputs[name])
               && wrapper.LiteralAt(RemoteBaseUrl) == Text(u.group.target)
               && wrapper.LiteralAt(RemoteWorkflowJson) == Workflow(u.workflow)
               && wrapper.LiteralAt(TimeoutSeconds) == Text("300")
               && (wrapper.LiteralAt(CachePolicy) == Text("sender-v1") <==>
                     && wrapper.kind == GroupValueExecutor && resolver.Some?
                     && forall id <- u.group.Remote() :: CachedByInputs(p, id, resolver))
  {
    hide GoodInPorts, GoodOutPorts, GoodNames, IsWorkflow, OutwardNode, OutPort.Adapted, OutPort.DecodeNode,
      CachedByInputs, OutputBothWays, IsLeastFixpoint, IsPreload, ValueInputs, InPortList, OutPortList, Prompt.Valid,
      Unit.IsDecoder, HasDefinitions;
    SettingsGiven(u);
    hide WrapperNode, PrepareNode;
  }

  lemma SettingsGiven(u: Unit)
    ensures var wrapper, prep := WrapperNode(u), PrepareNode(u);
            && wrapper.kind == u.wrapperKind && prep.kind == GroupPreparation
            && Preparation in wrapper.inputs && wrapper.inputs[Preparation] == Link(u.prepare, 0)
            && (forall name <- {RemoteWorkflowJson, RemoteBaseUrl, TimeoutSeconds, CachePolicy} ::
                  name in prep.inputs && name in wrapper.inputs
                  && wrapper.inputs[name].Lit? && prep.inputs[name] == wrapper.inputs[name])
            && wrapper.LiteralAt(RemoteBaseUrl) == Text(u.group.target)
            && wrapper.LiteralAt(RemoteWorkflowJson) == Workflow(u.workflow)
            && wrapper.LiteralAt(TimeoutSeconds) == Text("300") && wrapper.LiteralAt(CachePolicy) == Text(u.cachePolicy)
            && prep.LiteralAt(PreloadWorkflowJson) == Workflow(u.preload)
  {
    hide ValueInputs, InPortList, OutPortList;
  }

  lemma NamesAreGood(p: Prompt, u: Unit, used: set<string>)
    requires p.nodes.Keys <= used
    requires IsCandidate(u.wrapper, WrapperName(u.group.index)) && u.wrapper !in p.nodes
    requires IsCandidate(u.output, OutputName(u.group.index)) && u.output !in p.nodes
    requires IsCandidate(u.emptyInput, EmptyBoundaryName(u.group.index)) && u.emptyInput !in used
    requires IsCandidate(u.prepare, PrepareName(u.group.index)) && u.prepare !in used - u.group.inside
    requires AdaptersNamed(p, u.group, u.outbound)
    ensures GoodNames(p, u)
  {
    hide IsCandidate, WrapperName, OutputName, EmptyBoundaryName, PrepareName, EncodeName, DecodeName, OutPort.Adapted;
  }

  lemma StillServed(p: Prompt, g: Group, outbound: seq<OutPort>, named: seq<OutPort>, served: Consumers)
    requires ConsumersServed(p, g, outbound, served) && SameSources(outbound, named)
    ensures ConsumersServed(p, g, named, served)
  {
    hide HasLink;
  }

  /** The preload workflow is no part of what is known of a unit's workflow. */
  lemma WorkflowFilled(proj: Projection, p: Prompt, u: Unit, preload: Prompt)
    requires IsWorkflow(proj, p, u)
    ensures IsWorkflow(proj, p, u.(preload := preload))
  {
    hide InwardNode, OutputNode, BoundaryNode, OutPort.EncodeNode, OutPort.Adapted, Unit.IsEncoder, Unit.IsBoundary,
      InPortName, Prompt.Valid;
    SamePreload(u, preload);
  }

  lemma OrderFilled(u: Unit, preload: Prompt, copies: seq<string>, encoders: seq<string>)
    requires IsWorkflowOrder(u, copies, encoders)
    ensures IsWorkflowOrder(u.(preload := preload), copies, encoders)
  {
    hide BoundaryIds, Unit.IsEncoder;
    SamePreload(u, preload);
  }

  lemma NamesFilled(p: Prompt, u: Unit, w: Prompt, preload: Prompt)
    requires GoodNames(p, u)
    ensures GoodNames(p, u.(workflow := w, preload := preload))
  {
    hide IsCandidate, OutPort.Adapted;
  }

  lemma SamePreload(u: Unit, preload: Prompt)
    ensures BoundaryIds(u.(preload := preload)) == BoundaryIds(u)
    ensures forall id :: u.(preload := preload).IsEncoder(id) <==> u.IsEncoder(id)
    ensures forall id :: u.(preload := preload).IsBoundary(id) <==> u.IsBoundary(id)
  {
    hide OutPort.Adapted;
  }

  lemma StillAdapted(u: Unit, v: Unit, which: seq<nat>)
    requires AreAdapted(u, which) && u.outbound == v.outbound
    ensures AreAdapted(v, which)
  {
    hide OutPort.Adapted;
  }

  lemma CopiesFit(proj: Projection, p: Prompt, u: Unit, copies: Prompt)
    requires AreCopiesFor(proj, p, u.group, u.inbound, copies)
    ensures AreCopies(proj, p, u, copies)
  {
    hide InwardNode;
  }

  method CompileGroup(proj: Projection, p: Prompt, g: Group, resolver: Resolver, partial: set<string>)
    returns (r: Result<(Unit, Prompt), CompileError>)
    requires p.Valid() && g.Remote() <= p.nodes.Keys
    ensures r.Success? <==> CanCompile(proj, p, g)
    ensures r.Success? ==>
              r.value.0.group == g && IsGroupCompilation(proj, p, resolver, partial, r.value.0, r.value.1)
  {
    hide IsCandidate, WrapperName, OutputName, EmptyBoundaryName, PrepareName, GoodOutPorts, GoodInPorts, GoodNames,
      AreCopies, CanCompile, LeavesAllowed, AdaptersNamed, SameSources, ConsumersServed, Consumes, IsExecutor,
      OutputBothWays, CachedByInputs, IsWorkflow, IsWorkflowOrder, IsRemainder, IsLeastFixpoint, IsPreload,
      AreAdapted, EncodeIds, IsExtension, InwardNode;
    var wrapper := UniqueId(p.nodes.Keys, WrapperName(g.index));
    var output := UniqueId(p.nodes.Keys, OutputName(g.index));
    var copied := RewireCopies(proj, p, g);
    if copied.Failure? { return Failure(copied.error); }
    var copies, inbound := copied.value.0, copied.value.1;
    var collected := CollectOutbound(proj, p, g);
    if collected.Failure? { return Failure(collected.error); }
    var outbound, used := NameAdapters(proj, p, g, collected.value.0);
    var emptyInput := UniqueId(used, EmptyBoundaryName(g.index));
    var prepare := UniqueId(used - g.inside, PrepareName(g.index));
    var kind := ExecutorClass(p, g, outbound, resolver, partial);
    var policy := GroupCachePolicy(kind, p, g, resolver);
    var nothing := Prompt([], map[]);
    var u := Unit(g, inbound, outbound, wrapper, prepare, output, emptyInput, kind, policy, nothing, nothing);
    NamesAreGood(p, u, used);
    CopiesFit(proj, p, u, copies);
    StillServed(p, g, collected.value.0, outbound, collected.value.1);
    var which := AdaptedPorts(u);
    var w := BuildWorkflow(proj, p, u, copies, which);
    var preload := PreloadWorkflow(proj, w, g.relocated, g.index);
    WorkflowFilled(proj, p, u.(workflow := w), preload);
    OrderFilled(u.(workflow := w), preload, copies.order, EncodeIds(u, which));
    NamesFilled(p, u, w, preload);
    StillAdapted(u, u.(workflow := w, preload := preload), which);
    u := u.(workflow := w, preload := preload);
    var c := BuildRemainder(proj, p, u, which, collected.value.1);
    CompiledFits(proj, p, u, c);
    r := Success((u, c));
  }
}
