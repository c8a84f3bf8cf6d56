/** Compiler and executor agree on every compiled wrapper's ports. */
module Agreement {
  import opened Wrappers
  import opened Ids
  import opened Prompts
  import opened BoundaryTypes
  import opened Contract
  import opened Editor
  import opened Semantics
  import opened GroupCode

  /** Generated names of different kinds differ in their sixteenth letter. */
  lemma NamesDiffer(proj: Projection, p: Prompt, u: Unit)
    requires GoodNames(p, u) && GoodInPorts(proj, p, u.group, u.inbound)
    ensures u.wrapper != u.prepare && !u.IsDecoder(u.wrapper) && !u.IsDecoder(u.prepare)
    ensures !u.IsEncoder(u.output) && !u.IsBoundary(u.output)
    ensures forall id :: !(u.IsEncoder(id) && u.IsBoundary(id))
  {
    KindLetter(u.wrapper, WrapperName(u.group.index));
    KindLetter(u.prepare, PrepareName(u.group.index));
    KindLetter(u.output, OutputName(u.group.index));
    KindLetter(u.emptyInput, EmptyBoundaryName(u.group.index));
    forall i | 0 <= i < |u.inbound| ensures |u.inbound[i].boundary| > 16 && u.inbound[i].boundary[15] == 'i' {
      KindLetter(u.inbound[i].boundary, BoundaryName(u.group.index, i));
    }
    forall i | 0 <= i < |u.outbound| && u.outbound[i].Adapted()
      ensures |u.outbound[i].encode| > 16 && u.outbound[i].encode[15] == 'e'
      ensures |u.outbound[i].decode| > 16 && u.outbound[i].decode[15] == 'd'
    {
      KindLetter(u.outbound[i].encode, EncodeName(u.group.index, i));
      KindLetter(u.outbound[i].decode, DecodeName(u.group.index, i));
    }
  }

  lemma BoundariesDiffer(proj: Projection, p: Prompt, u: Unit, i: nat, j: nat)
    requires GoodInPorts(proj, p, u.group, u.inbound) && i < j < |u.inbound|
    ensures u.inbound[i].boundary != u.inbound[j].boundary
  {
    NumberedCandidatesDiffer("cutlery_remote_input_" + Decimal(u.group.index + 1) + "_", i + 1, j + 1,
                             u.inbound[i].boundary, u.inbound[j].boundary);
  }

  lemma AdapterNamesDiffer(p: Prompt, u: Unit, i: nat, j: nat)
    requires GoodNames(p, u) && i < j < |u.outbound| && u.outbound[i].Adapted() && u.outbound[j].Adapted()
    ensures u.outbound[i].encode != u.outbound[j].encode && u.outbound[i].decode != u.outbound[j].decode
  {
    NumberedCandidatesDiffer("cutlery_remote_encode_" + Decimal(u.group.index + 1) + "_", i + 1, j + 1,
                             u.outbound[i].encode, u.outbound[j].encode);
    NumberedCandidatesDiffer("cutlery_remote_decode_" + Decimal(u.group.index + 1) + "_", i + 1, j + 1,
                             u.outbound[i].decode, u.outbound[j].decode);
  }

  // ---- the port lists the compiler writes are ones the executor reads back unchanged ----

  lemma {:induction false} DecimalLength(n: nat)
    requires n <= 64
    ensures |Decimal(n)| <= 2
  {
  }

  lemma NumberedPortName(prefix: string, n: nat)
    requires prefix == "input_" || prefix == "output_"
    requires n <= 64
    ensures IsPortName(prefix + Decimal(n)) && Strip(prefix + Decimal(n)) == prefix + Decimal(n)
  {
    var name := prefix + Decimal(n);
    DecimalLength(n);
    forall i | 0 <= i < |name| ensures IsLetter(name[i]) || '0' <= name[i] <= '9' {
      if i >= |prefix| {
        assert name[i] == Decimal(n)[i - |prefix|];
        assert name[i] in DIGITS;
      }
    }
    assert !IsSpace(name[0]) && !IsSpace(name[|name| - 1]);
  }

  lemma GeneratedPort(prefix: string, port: Port, n: nat)
    requires prefix == "input_" || prefix == "output_"
    requires n <= MAX_PORTS && port.name == prefix + Decimal(n) && port.ptype in SUPPORTED
    ensures WellFormedPort(port) && CleanPort(port) == port
  {
    NumberedPortName(prefix, n);
    NormalizeSupported(port.ptype);
  }

  lemma GeneratedPorts(prefix: string, ports: seq<Port>)
    requires prefix == "input_" || prefix == "output_"
    requires |ports| <= MAX_PORTS
    requires forall i :: 0 <= i < |ports| ==> ports[i].name == prefix + Decimal(i + 1) && ports[i].ptype in SUPPORTED
    ensures PortsOf(Ports(ports)) == Some(ports) && DistinctNames(ports)
  {
    hide WellFormedPort, CleanPort, SUPPORTED, Decimal;
    forall i | 0 <= i < |ports| ensures WellFormedPort(ports[i]) && CleanPort(ports[i]) == ports[i] {
      GeneratedPort(prefix, ports[i], i + 1);
    }
    assert CleanPorts(ports) == ports;
    forall i, j | 0 <= i < j < |ports| ensures ports[i].name != ports[j].name {
      if ports[i].name == ports[j].name {
        assert ports[i].name[|prefix|..] == Decimal(i + 1) && ports[j].name[|prefix|..] == Decimal(j + 1);
        DecimalInjective(i + 1, j + 1);
      }
    }
  }

  lemma InPortsReadBack(proj: Projection, p: Prompt, u: Unit)
    requires GoodInPorts(proj, p, u.group, u.inbound)
    ensures PortsOf(Ports(InPortList(u.inbound))) == Some(InPortList(u.inbound))
    ensures DistinctNames(InPortList(u.inbound))
  {
    GeneratedPorts("input_", InPortList(u.inbound));
  }

  lemma OutboundAllowed(t: string)
    requires t in SUPPORTED && t != "cutlery_lora_chain"
    ensures OutboundWireType(t) in SUPPORTED && OutboundWireType(t) !in OUTBOUND_DISALLOWED
  {
  }

  lemma OutPortsReadBack(proj: Projection, p: Prompt, u: Unit)
    requires GoodOutPorts(proj, p, u.group, u.outbound)
    ensures PortsOf(Ports(OutPortList(u.outbound))) == Some(OutPortList(u.outbound))
    ensures DistinctNames(OutPortList(u.outbound))
  {
    forall i | 0 <= i < |u.outbound| ensures OutPortList(u.outbound)[i].ptype in SUPPORTED {
      OutboundAllowed(u.outbound[i].ptype);
    }
    GeneratedPorts("output_", OutPortList(u.outbound));
  }

  /**
   * An outbound port declares what it sends: the type of the value, or json if an encoder and a decoder stand at its
   * two ends. They do exactly for masks, latents and conditioning.
   */
  lemma DeclaredTypesFit(u: Unit, i: nat)
    requires i < |u.outbound|
    ensures var port, declared := u.outbound[i], OutPortList(u.outbound)[i].ptype;
            && (port.ptype in {"mask", "latent", "conditioning"} <==> declared != port.ptype)
            && (declared != port.ptype ==> declared == "json" && port.RemoteSource() == Link(port.encode, 0)
                                           && u.LocalSource(i) == Link(port.decode, 0))
            && (declared == port.ptype ==> port.RemoteSource() == Link(port.src, port.slot)
                                           && u.LocalSource(i) == Link(u.wrapper, i))
  {
  }

  lemma DirectionsHold(proj: Projection, p: Prompt, u: Unit)
    requires GoodInPorts(proj, p, u.group, u.inbound) && GoodOutPorts(proj, p, u.group, u.outbound)
    ensures DirectionsAllowed(InPortList(u.inbound), OutPortList(u.outbound))
  {
    forall i | 0 <= i < |u.outbound| ensures OutPortList(u.outbound)[i].ptype !in OUTBOUND_DISALLOWED {
      OutboundAllowed(u.outbound[i].ptype);
    }
    hide SUPPORTED, OUTBOUND_DISALLOWED, INBOUND_DISALLOWED, OutboundWireType;
    forall port <- InPortList(u.inbound) ensures port.ptype !in INBOUND_DISALLOWED {
      var i :| 0 <= i < |u.inbound| && InPortList(u.inbound)[i] == port;
    }
    forall port <- OutPortList(u.outbound) ensures port.ptype !in OUTBOUND_DISALLOWED {
      var i :| 0 <= i < |u.outbound| && OutPortList(u.outbound)[i] == port;
    }
  }

  // ---- the boundary nodes of the compiled workflow ----

  /** A user-placed boundary node that the executor would count among the compiled ones. */
  ghost predicate NoBoundaryOfItsOwn(n: Node) {
    && n.kind != WorkflowOutput
    && (n.kind == WorkflowInput ==> PortsOf(n.LiteralAt(PortsJson)) == Some([]))
  }

  ghost predicate NoUserBoundary(p: Prompt, g: Group)
    requires g.Remote() <= p.nodes.Keys
  {
    forall id <- g.Remote() :: NoBoundaryOfItsOwn(p.nodes[id])
  }

  lemma InwardKeepsLiterals(proj: Projection, p: Prompt, g: Group, inbound: seq<InPort>, id: string, was: Node,
                            now: Node, name: InputName)
    requires InwardNode(proj, p, g, inbound, id, was, now)
    ensures now.LiteralAt(name) == was.LiteralAt(name)
  {
    if name in was.inputs {
      assert InwardInput(proj, p, g, inbound, id, name, was.inputs[name], now.inputs[name]);
    }
  }

  lemma {:induction false} DeclaredNothing(w: Prompt, ids: seq<string>)
    requires forall id <- ids :: id in w.nodes
    ensures Declared(w, ids) == Some([]) <==>
            forall id <- ids :: PortsOf(w.nodes[id].LiteralAt(PortsJson)) == Some([])
  {
    hide PortsOf;
    if ids != [] {
      assert ids == [ids[0]] + ids[1..];
      DeclaredNothing(w, ids[1..]);
      if Declared(w, ids) == Some([]) {
        assert |Declared(w, ids).value| == |PortsOf(w.nodes[ids[0]].LiteralAt(PortsJson)).value|
                                           + |Declared(w, ids[1..]).value|;
      }
    }
  }

  /** One boundary node per inbound port: together they declare the ports in order. */
  lemma {:induction false} BoundariesDeclare(w: Prompt, ids: seq<string>, ports: seq<Port>)
    requires |ids| == |ports| && forall i :: 0 <= i < |ids| ==> ids[i] in w.nodes
    requires forall i :: 0 <= i < |ids| ==> PortsOf(w.nodes[ids[i]].LiteralAt(PortsJson)) == Some([ports[i]])
    ensures forall id <- ids :: id in w.nodes
    ensures Declared(w, ids) == Some(ports)
  {
    hide PortsOf;
    assert forall id <- ids :: id in w.nodes;
    if ids != [] {
      assert ports == [ports[0]] + ports[1..];
      BoundariesDeclare(w, ids[1..], ports[1..]);
    }
  }

  /** Only the copies and one of the two kinds of boundary can be of the kind asked for. */
  lemma OfKindLayout(w: Prompt, copies: seq<string>, encoders: seq<string>, ins: seq<string>, outs: seq<string>,
                     kind: Kind)
    requires forall id <- encoders :: id in w.nodes && w.nodes[id].kind != kind
    requires || (forall id <- ins :: id in w.nodes && w.nodes[id].kind == kind)
             || (forall id <- ins :: id in w.nodes && w.nodes[id].kind != kind)
    requires || (forall id <- outs :: id in w.nodes && w.nodes[id].kind == kind)
             || (forall id <- outs :: id in w.nodes && w.nodes[id].kind != kind)
    ensures OfKind(w, copies + encoders + ins + outs, kind)
            == OfKind(w, copies, kind) + (if forall id <- ins :: w.nodes[id].kind == kind then ins else [])
               + (if forall id <- outs :: w.nodes[id].kind == kind then outs else [])
  {
    hide OfKind;
    OfKindAppend(w, copies + encoders + ins, outs, kind);
    OfKindAppend(w, copies + encoders, ins, kind);
    OfKindAppend(w, copies, encoders, kind);
    OfKindMembers(w, encoders, kind);
    OfKindAllOrNone(w, ins, kind);
    OfKindAllOrNone(w, outs, kind);
  }

  lemma OfKindAllOrNone(w: Prompt, ids: seq<string>, kind: Kind)
    requires || (forall id <- ids :: id in w.nodes && w.nodes[id].kind == kind)
             || (forall id <- ids :: id in w.nodes && w.nodes[id].kind != kind)
    ensures OfKind(w, ids, kind) == if forall id <- ids :: w.nodes[id].kind == kind then ids else []
  {
    OfKindMembers(w, ids, kind);
    hide OfKind;
  }

  lemma GeneratedKinds(proj: Projection, p: Prompt, u: Unit)
    requires IsWorkflow(proj, p, u)
    ensures forall id :: u.IsEncoder(id) ==>
              u.workflow.nodes[id].kind != WorkflowInput && u.workflow.nodes[id].kind != WorkflowOutput
    ensures forall id <- BoundaryIds(u) :: id in u.workflow.nodes && u.workflow.nodes[id].kind == WorkflowInput
    ensures u.workflow.nodes[u.output].kind == WorkflowOutput
  {
    forall id | u.IsEncoder(id)
      ensures u.workflow.nodes[id].kind != WorkflowInput && u.workflow.nodes[id].kind != WorkflowOutput
    {
      var i :| 0 <= i < |u.outbound| && u.outbound[i].Adapted() && u.outbound[i].encode == id;
      AdapterKinds(u.outbound[i]);
    }
  }

  lemma AdapterKinds(port: OutPort)
    requires port.Adapted()
    ensures port.EncodeNode().kind != WorkflowInput && port.EncodeNode().kind != WorkflowOutput
    ensures port.DecodeNode("", 0).kind != WorkflowInput && !IsExecutor(port.DecodeNode("", 0).kind)
    ensures !IsExecutor(port.EncodeNode().kind)
  {
  }

  lemma BoundaryLiterals(proj: Projection, p: Prompt, u: Unit)
    requires IsWorkflow(proj, p, u)
    ensures BoundaryIds(u) != [] && forall i :: 0 <= i < |BoundaryIds(u)| ==> BoundaryIds(u)[i] in u.workflow.nodes
    ensures u.inbound == [] ==>
              BoundaryIds(u) == [u.emptyInput] && u.workflow.nodes[u.emptyInput].LiteralAt(PortsJson) == Ports([])
    ensures u.inbound != [] ==>
              && |BoundaryIds(u)| == |u.inbound|
              && forall i :: 0 <= i < |u.inbound| ==>
                   u.workflow.nodes[BoundaryIds(u)[i]].LiteralAt(PortsJson) == Ports([InPortList(u.inbound)[i]])
  {
    hide InwardNode, OutputNode;
  }

  lemma InputsDeclared(proj: Projection, p: Prompt, u: Unit)
    requires GoodInPorts(proj, p, u.group, u.inbound) && IsWorkflow(proj, p, u)
    ensures BoundaryIds(u) != [] && forall id <- BoundaryIds(u) :: id in u.workflow.nodes
    ensures Declared(u.workflow, BoundaryIds(u)) == Some(InPortList(u.inbound))
  {
    InPortsReadBack(proj, p, u);
    BoundaryLiterals(proj, p, u);
    hide GoodInPorts, PortsOf, IsWorkflow;
    var ports := InPortList(u.inbound);
    if u.inbound == [] {
      DeclaredOne(u.workflow, u.emptyInput);
      assert ports == [];
    } else {
      hide BoundaryIds, InPortList;
      forall i | 0 <= i < |u.inbound|
        ensures PortsOf(u.workflow.nodes[BoundaryIds(u)[i]].LiteralAt(PortsJson)) == Some([ports[i]])
      {
        SinglePort(ports, i);
      }
      BoundariesDeclare(u.workflow, BoundaryIds(u), ports);
    }
  }

  lemma SinglePort(ports: seq<Port>, i: nat)
    requires PortsOf(Ports(ports)) == Some(ports) && i < |ports|
    ensures PortsOf(Ports([ports[i]])) == Some([ports[i]])
  {
    hide WellFormedPort, CleanPort;
    assert CleanPorts(ports)[i] == CleanPort(ports[i]);
    assert CleanPorts([ports[i]]) == [ports[i]];
  }

  /** The contract of a workflow laid out as copies, encoders, input boundaries, output boundary. */
  lemma ContractOfLayout(w: Prompt, copies: seq<string>, encoders: seq<string>, boundaries: seq<string>, output: string,
                         ins: seq<Port>, outs: seq<Port>)
    requires w.order == copies + encoders + boundaries + [output] && forall id <- w.order :: id in w.nodes
    requires forall id <- encoders :: w.nodes[id].kind != WorkflowInput && w.nodes[id].kind != WorkflowOutput
    requires boundaries != [] && forall id <- boundaries :: w.nodes[id].kind == WorkflowInput
    requires w.nodes[output].kind == WorkflowOutput
    requires Declared(w, boundaries) == Some(ins) && Declared(w, [output]) == Some(outs)
    requires DistinctNames(ins) && DistinctNames(outs) && DirectionsAllowed(ins, outs)
    ensures ContractAccepts(w, ins, outs) <==> forall id <- copies :: NoBoundaryOfItsOwn(w.nodes[id])
  {
    InputsOfLayout(w, copies, encoders, boundaries, output, ins);
    OutputsOfLayout(w, copies, encoders, boundaries, output, outs);
    hide PortsOf, DistinctNames, DirectionsAllowed, BoundaryPortsOf;
  }

  lemma InputsOfLayout(w: Prompt, copies: seq<string>, encoders: seq<string>, boundaries: seq<string>, output: string,
                       ins: seq<Port>)
    requires w.order == copies + encoders + boundaries + [output] && forall id <- w.order :: id in w.nodes
    requires forall id <- encoders :: w.nodes[id].kind != WorkflowInput
    requires boundaries != [] && forall id <- boundaries :: w.nodes[id].kind == WorkflowInput
    requires w.nodes[output].kind == WorkflowOutput
    requires Declared(w, boundaries) == Some(ins) && DistinctNames(ins)
    ensures BoundaryPortsOf(w, WorkflowInput, true) == Declares(ins) <==>
            forall id <- copies :: w.nodes[id].kind == WorkflowInput ==>
              PortsOf(w.nodes[id].LiteralAt(PortsJson)) == Some([])
  {
    hide PortsOf, DistinctNames;
    assert boundaries[0] in boundaries;
    OfKindLayout(w, copies, encoders, boundaries, [output], WorkflowInput);
    OfKindMembers(w, copies, WorkflowInput);
    var userIns := OfKind(w, copies, WorkflowInput);
    assert OfKind(w, w.order, WorkflowInput) == userIns + boundaries;
    UserInputsDeclare(w, userIns, boundaries, ins);
  }

  lemma OutputsOfLayout(w: Prompt, copies: seq<string>, encoders: seq<string>, boundaries: seq<string>, output: string,
                        outs: seq<Port>)
    requires w.order == copies + encoders + boundaries + [output] && forall id <- w.order :: id in w.nodes
    requires forall id <- encoders :: w.nodes[id].kind != WorkflowOutput
    requires boundaries != [] && forall id <- boundaries :: w.nodes[id].kind == WorkflowInput
    requires w.nodes[output].kind == WorkflowOutput
    requires Declared(w, [output]) == Some(outs) && DistinctNames(outs)
    ensures BoundaryPortsOf(w, WorkflowOutput, false) == Declares(outs) <==>
            forall id <- copies :: w.nodes[id].kind != WorkflowOutput
    ensures !BoundaryPortsOf(w, WorkflowOutput, false).Absent?
    ensures (forall id <- copies :: w.nodes[id].kind != WorkflowOutput) ==>
            OfKind(w, w.order, WorkflowOutput) == [output]
  {
    hide PortsOf, DistinctNames;
    assert boundaries[0] in boundaries;
    OfKindLayout(w, copies, encoders, boundaries, [output], WorkflowOutput);
    OfKindMembers(w, copies, WorkflowOutput);
    var userOuts := OfKind(w, copies, WorkflowOutput);
    assert OfKind(w, w.order, WorkflowOutput) == userOuts + [output];
    if id :| id in copies && w.nodes[id].kind == WorkflowOutput {
      assert id in userOuts;
    } else {
      assert userOuts + [output] == [output];
    }
  }

  lemma UserInputsDeclare(w: Prompt, userIns: seq<string>, boundaries: seq<string>, ins: seq<Port>)
    requires forall id <- userIns + boundaries :: id in w.nodes
    requires (forall id <- boundaries :: id in w.nodes) && Declared(w, boundaries) == Some(ins)
    ensures Declared(w, userIns + boundaries) == Some(ins) <==>
            forall id <- userIns :: id in w.nodes && PortsOf(w.nodes[id].LiteralAt(PortsJson)) == Some([])
  {
    hide PortsOf;
    DeclaredAppend(w, userIns, boundaries);
    DeclaredNothing(w, userIns);
    if Declared(w, userIns).Some? {
      var user := Declared(w, userIns).value;
      assert |user + ins| == |user| + |ins|;
      assert [] + ins == ins;
    }
  }

  lemma OutputDeclares(proj: Projection, p: Prompt, u: Unit)
    requires GoodOutPorts(proj, p, u.group, u.outbound) && IsWorkflow(proj, p, u)
    ensures u.output in u.workflow.nodes
    ensures Declared(u.workflow, [u.output]) == Some(OutPortList(u.outbound))
  {
    OutPortsReadBack(proj, p, u);
    OutputNodeFacts(u.outbound);
    DeclaredOne(u.workflow, u.output);
    hide GoodOutPorts, PortsOf, OutputNode, BoundaryNode, InPortList, OutPortList;
  }

  /**
   * The executor accepts a compiled wrapper exactly when no remote copy is itself a boundary
   * node that declares ports. The compiler does not look for such nodes.
   */
  lemma ExecutorAgrees(proj: Projection, p: Prompt, u: Unit, c: Prompt)
    requires Compiled(proj, p, u, c)
    ensures ExecutorAccepts(u.workflow, Ports(InPortList(u.inbound)), Ports(OutPortList(u.outbound)))
            <==> NoUserBoundary(p, u.group)
  {
    var copies, encoders :| IsWorkflowOrder(u, copies, encoders);
    InPortsReadBack(proj, p, u);
    OutPortsReadBack(proj, p, u);
    DirectionsHold(proj, p, u);
    GeneratedKinds(proj, p, u);
    InputsDeclared(proj, p, u);
    OutputDeclares(proj, p, u);
    UserBoundaries(proj, p, u, copies);
    hide GoodInPorts, GoodOutPorts, GoodNames, IsRemainder, PortsOf, DirectionsAllowed, Declared, ContractAccepts,
      NoUserBoundary, InPortList, OutPortList, BoundaryIds, DistinctNames, NoBoundaryOfItsOwn;
    ContractOfLayout(u.workflow, copies, encoders, BoundaryIds(u), u.output, InPortList(u.inbound),
                     OutPortList(u.outbound));
  }

  lemma UserBoundaries(proj: Projection, p: Prompt, u: Unit, copies: seq<string>)
    requires IsWorkflow(proj, p, u) && Enumerates(copies, u.group.Remote())
    ensures forall id <- copies :: id in u.workflow.nodes
    ensures NoUserBoundary(p, u.group) <==> forall id <- copies :: NoBoundaryOfItsOwn(u.workflow.nodes[id])
  {
    hide PortsOf;
    forall id <- u.group.Remote()
      ensures id in u.workflow.nodes
      ensures NoBoundaryOfItsOwn(u.workflow.nodes[id]) <==> NoBoundaryOfItsOwn(p.nodes[id])
    {
      InwardKeepsLiterals(proj, p, u.group, u.inbound, id, p.nodes[id], u.workflow.nodes[id], PortsJson);
    }
  }
}
