/** What compiling one group produces, said without saying how. */
module GroupCode {
  import opened Ids
  import opened Prompts
  import opened BoundaryTypes
  import opened Contract
  import opened Editor
  import opened Semantics

  /** A group of the prompt, with the producers that will be rebuilt remotely. */
  datatype Group = Group(index: nat, target: string, inside: set<string>, relocated: set<string>) {
    function Remote(): set<string> { inside + relocated }
  }

  datatype InPort = InPort(ptype: string, src: string, slot: nat, boundary: string)

  /** `encode` and `decode` name the adapter nodes, when the type needs them. */
  datatype OutPort = OutPort(ptype: string, src: string, slot: nat, encode: string, decode: string) {
    /** Masks, latents and conditioning cross as blobs. */
    predicate Adapted() { ptype in BLOB_ADAPTED }
    function RemoteSource(): Input { if Adapted() then Link(encode, 0) else Link(src, slot) }
    function EncodeNode(): Node
      requires Adapted()
    {
      Node(ToBlob(ptype), map[Name(ptype) := Link(src, slot), Compress := Lit(Text("true"))])
    }
    function DecodeNode(wrapper: string, index: nat): Node
      requires Adapted()
    {
      Node(FromBlob(ptype), map[Blob := Link(wrapper, index), Device := Lit(Text("auto"))])
    }
  }

  datatype Unit = Unit(group: Group, inbound: seq<InPort>, outbound: seq<OutPort>,
                       wrapper: string, prepare: string, output: string, emptyInput: string,
                       wrapperKind: Kind, cachePolicy: string, workflow: Prompt, preload: Prompt)
  {
    /** What consumers of outbound port i read instead. */
    function LocalSource(i: nat): Input
      requires i < |outbound|
    {
      if outbound[i].Adapted() then Link(outbound[i].decode, 0) else Link(wrapper, i)
    }

    ghost predicate IsDecoder(id: string) {
      exists i :: 0 <= i < |outbound| && outbound[i].Adapted() && outbound[i].decode == id
    }

    ghost predicate IsEncoder(id: string) {
      exists i :: 0 <= i < |outbound| && outbound[i].Adapted() && outbound[i].encode == id
    }

    ghost predicate IsBoundary(id: string) {
      (exists i :: 0 <= i < |inbound| && inbound[i].boundary == id) || (inbound == [] && id == emptyInput)
    }

    /** The new nodes of the prompt that is left, and those of the workflow. */
    ghost predicate MakesLocally(id: string) { id == wrapper || id == prepare || IsDecoder(id) }

    ghost predicate MakesRemotely(id: string) { id == output || IsEncoder(id) || IsBoundary(id) }
  }

  function InPortName(i: nat): string { "input_" + Decimal(i + 1) }
  function OutPortName(i: nat): string { "output_" + Decimal(i + 1) }

  function InPortList(inbound: seq<InPort>): (ports: seq<Port>)
    ensures |ports| == |inbound|
    ensures forall i :: 0 <= i < |ports| ==> ports[i] == Port(InPortName(i), inbound[i].ptype)
  {
    seq(|inbound|, i requires 0 <= i < |inbound| => Port(InPortName(i), inbound[i].ptype))
  }

  function OutPortList(outbound: seq<OutPort>): (ports: seq<Port>)
    ensures |ports| == |outbound|
    ensures forall i :: 0 <= i < |ports| ==> ports[i] == Port(OutPortName(i), OutboundWireType(outbound[i].ptype))
  {
    seq(|outbound|, i requires 0 <= i < |outbound| => Port(OutPortName(i), OutboundWireType(outbound[i].ptype)))
  }

  /** The inputs `value_1`, `value_2`, ... */
  function ValueInputs(sources: seq<Input>): map<InputName, Input> {
    map i: nat | i < |sources| :: InputName.Value(i) := sources[i]
  }

  function BoundaryNode(ports: seq<Port>): Node { Node(WorkflowInput, map[PortsJson := Lit(Ports(ports))]) }

  function OutputNode(outbound: seq<OutPort>): Node {
    Node(WorkflowOutput,
         ValueInputs(seq(|outbound|, i requires 0 <= i < |outbound| => outbound[i].RemoteSource()))
         + map[PortsJson := Lit(Ports(OutPortList(outbound)))])
  }

  function WrapperSources(u: Unit): seq<Input> {
    seq(|u.inbound|, i requires 0 <= i < |u.inbound| => Link(u.inbound[i].src, u.inbound[i].slot))
  }

  function WrapperSettings(u: Unit): map<InputName, Input> {
    map[RemoteBaseUrl := Lit(Text(u.group.target)),
        RemoteWorkflowJson := Lit(Workflow(u.workflow)),
        InputPortsJson := Lit(Ports(InPortList(u.inbound))),
        OutputPortsJson := Lit(Ports(OutPortList(u.outbound))),
        TimeoutSeconds := Lit(Text("300")),
        CachePolicy := Lit(Text(u.cachePolicy)),
        Preparation := Link(u.prepare, 0)]
  }

  function WrapperNode(u: Unit): Node {
    Node(u.wrapperKind, ValueInputs(WrapperSources(u)) + WrapperSettings(u))
  }

  function PrepareNode(u: Unit): Node {
    Node(GroupPreparation,
         map[RemoteBaseUrl := Lit(Text(u.group.target)),
             RemoteWorkflowJson := Lit(Workflow(u.workflow)),
             PreloadWorkflowJson := Lit(Workflow(u.preload)),
             TimeoutSeconds := Lit(Text("300")),
             CachePolicy := Lit(Text(u.cachePolicy))])
  }

  lemma OutputNodeFacts(outbound: seq<OutPort>)
    ensures OutputNode(outbound).kind == WorkflowOutput
    ensures OutputNode(outbound).LiteralAt(PortsJson) == Ports(OutPortList(outbound))
    ensures forall i :: 0 <= i < |outbound| ==>
              InputName.Value(i) in OutputNode(outbound).inputs
              && OutputNode(outbound).inputs[InputName.Value(i)] == outbound[i].RemoteSource()
    ensures forall name <- OutputNode(outbound).inputs :: OutputNode(outbound).inputs[name].Link? ==>
              exists i :: 0 <= i < |outbound| && OutputNode(outbound).inputs[name] == outbound[i].RemoteSource()
  {
  }

  lemma WrapperSettingsFacts(u: Unit)
    ensures forall i :: InputName.Value(i) !in WrapperSettings(u)
    ensures forall name <- WrapperSettings(u) ::
              WrapperSettings(u)[name].Link? ==> WrapperSettings(u)[name] == Link(u.prepare, 0)
    ensures RemoteWorkflowJson in WrapperSettings(u)
            && WrapperSettings(u)[RemoteWorkflowJson] == Lit(Workflow(u.workflow))
    ensures InputPortsJson in WrapperSettings(u)
            && WrapperSettings(u)[InputPortsJson] == Lit(Ports(InPortList(u.inbound)))
    ensures OutputPortsJson in WrapperSettings(u)
            && WrapperSettings(u)[OutputPortsJson] == Lit(Ports(OutPortList(u.outbound)))
  {
  }

  lemma WrapperNodeFacts(u: Unit)
    ensures WrapperNode(u).LiteralAt(RemoteWorkflowJson) == Workflow(u.workflow)
    ensures WrapperNode(u).LiteralAt(InputPortsJson) == Ports(InPortList(u.inbound))
    ensures WrapperNode(u).LiteralAt(OutputPortsJson) == Ports(OutPortList(u.outbound))
    ensures forall i :: 0 <= i < |u.inbound| ==>
              InputName.Value(i) in WrapperNode(u).inputs
              && WrapperNode(u).inputs[InputName.Value(i)] == Link(u.inbound[i].src, u.inbound[i].slot)
    ensures forall name <- WrapperNode(u).inputs :: WrapperNode(u).inputs[name].Link? ==>
              || WrapperNode(u).inputs[name] == Link(u.prepare, 0)
              || exists i :: 0 <= i < |u.inbound|
                             && WrapperNode(u).inputs[name] == Link(u.inbound[i].src, u.inbound[i].slot)
  {
    WrapperSettingsFacts(u);
    hide WrapperSettings, InPortList, OutPortList;
    forall name <- WrapperNode(u).inputs | WrapperNode(u).inputs[name].Link? && name !in WrapperSettings(u)
      ensures exists i :: 0 <= i < |u.inbound|
                          && WrapperNode(u).inputs[name] == Link(u.inbound[i].src, u.inbound[i].slot)
    {
      var i :| 0 <= i < |u.inbound| && name == InputName.Value(i);
      assert WrapperNode(u).inputs[name] == Link(u.inbound[i].src, u.inbound[i].slot);
    }
  }

  lemma PrepareNodeFacts(u: Unit)
    ensures forall name <- PrepareNode(u).inputs :: PrepareNode(u).inputs[name].Lit?
  {
  }

  lemma AdapterNodeFacts(port: OutPort, wrapper: string, i: nat)
    requires port.Adapted()
    ensures forall name <- port.EncodeNode().inputs ::
              port.EncodeNode().inputs[name].Link? ==> port.EncodeNode().inputs[name] == Link(port.src, port.slot)
    ensures forall name <- port.DecodeNode(wrapper, i).inputs ::
              port.DecodeNode(wrapper, i).inputs[name].Link? ==>
                port.DecodeNode(wrapper, i).inputs[name] == Link(wrapper, i)
  {
  }

  // ---- rewriting of inputs ----

  /** A remote copy reads outside values from an input boundary. */
  ghost predicate InwardInput(proj: Projection, p: Prompt, g: Group, inbound: seq<InPort>,
                              id: string, name: InputName, was: Input, now: Input)
  {
    if was.Link? && was.src in p.nodes && was.src !in g.Remote() then
      exists i :: 0 <= i < |inbound| && now == Link(inbound[i].boundary, 0)
                  && inbound[i].src == was.src && inbound[i].slot == was.slot
                  && inbound[i].ptype == Normalize(SocketType(proj, was.src, was.slot, id, name))
    else now == was
  }

  ghost predicate InwardNode(proj: Projection, p: Prompt, g: Group, inbound: seq<InPort>,
                             id: string, was: Node, now: Node)
  {
    && now.kind == was.kind && now.inputs.Keys == was.inputs.Keys
    && forall name :: name in was.inputs ==>
                        InwardInput(proj, p, g, inbound, id, name, was.inputs[name], now.inputs[name])
  }

  /** A local consumer of a grouped node reads the group's outbound port. */
  ghost predicate OutwardInput(p: Prompt, u: Unit, was: Input, now: Input) {
    if was.Link? && was.src in p.nodes && was.src in u.group.inside then
      exists i :: 0 <= i < |u.outbound| && now == u.LocalSource(i)
                  && u.outbound[i].src == was.src && u.outbound[i].slot == was.slot
    else now == was
  }

  ghost predicate OutwardNode(p: Prompt, u: Unit, was: Node, now: Node) {
    && now.kind == was.kind && now.inputs.Keys == was.inputs.Keys
    && forall name :: name in was.inputs ==> OutwardInput(p, u, was.inputs[name], now.inputs[name])
  }

  // ---- the parts of a compiled group ----

  /** An inbound port of an allowed type, used by some copy's link from outside. */
  ghost predicate GoodInPort(p: Prompt, g: Group, i: nat, port: InPort) {
    && port.src in p.nodes && port.src !in g.Remote()
    && port.ptype in SUPPORTED && port.ptype !in INBOUND_DISALLOWED
    && IsCandidate(port.boundary, BoundaryName(g.index, i)) && port.boundary !in p.nodes
    && exists id, name :: id in g.Remote() && HasLink(p, id, name, port.src, port.slot)
  }

  /** Each port carries one distinct boundary value. */
  ghost predicate GoodInPorts(proj: Projection, p: Prompt, g: Group, inbound: seq<InPort>) {
    && |inbound| <= MAX_PORTS
    && (forall i :: 0 <= i < |inbound| ==> GoodInPort(p, g, i, inbound[i]))
    && forall i, j :: 0 <= i < j < |inbound| ==>
         (inbound[i].src, inbound[i].slot, inbound[i].ptype) != (inbound[j].src, inbound[j].slot, inbound[j].ptype)
  }

  /** An outbound port whose type is that of some consumer's link, and may leave the group. */
  ghost predicate GoodOutPort(proj: Projection, p: Prompt, g: Group, port: OutPort) {
    && port.src in p.nodes && port.src in g.inside
    && port.ptype in SUPPORTED && port.ptype != "cutlery_lora_chain"
    && exists id, name :: id !in g.inside && HasLink(p, id, name, port.src, port.slot)
                          && port.ptype == Normalize(SocketType(proj, port.src, port.slot, id, name))
  }

  ghost predicate GoodOutPorts(proj: Projection, p: Prompt, g: Group, outbound: seq<OutPort>) {
    && |outbound| <= MAX_PORTS
    && (forall i :: 0 <= i < |outbound| ==> GoodOutPort(proj, p, g, outbound[i]))
    && forall i, j :: 0 <= i < j < |outbound| ==>
         (outbound[i].src, outbound[i].slot) != (outbound[j].src, outbound[j].slot)
  }

  /**
   * The generated ids are new to the prompt they go into. The preparation node is named
   * after the grouped nodes have been taken out, so it may reuse one of their ids.
   */
  ghost predicate GoodNames(p: Prompt, u: Unit) {
    && IsCandidate(u.wrapper, WrapperName(u.group.index)) && u.wrapper !in p.nodes
    && IsCandidate(u.prepare, PrepareName(u.group.index)) && (u.prepare in p.nodes ==> u.prepare in u.group.inside)
    && IsCandidate(u.output, OutputName(u.group.index)) && u.output !in p.nodes
    && IsCandidate(u.emptyInput, EmptyBoundaryName(u.group.index)) && u.emptyInput !in p.nodes
    && forall i :: 0 <= i < |u.outbound| && u.outbound[i].Adapted() ==>
         && IsCandidate(u.outbound[i].encode, EncodeName(u.group.index, i)) && u.outbound[i].encode !in p.nodes
         && IsCandidate(u.outbound[i].decode, DecodeName(u.group.index, i)) && u.outbound[i].decode !in p.nodes
  }

  /** The workflow sent to the remote machine. */
  ghost predicate IsWorkflow(proj: Projection, p: Prompt, u: Unit) {
    var w := u.workflow;
    && w.Valid() && u.group.Remote() <= p.nodes.Keys
    && (forall id :: id in w.nodes <==>
          id in u.group.Remote() || u.IsEncoder(id) || u.IsBoundary(id) || id == u.output)
    && (forall id <- u.group.Remote() ::
          InwardNode(proj, p, u.group, u.inbound, id, p.nodes[id], w.nodes[id]))
    && (forall i :: 0 <= i < |u.outbound| && u.outbound[i].Adapted() ==>
          w.nodes[u.outbound[i].encode] == u.outbound[i].EncodeNode())
    && (forall i :: 0 <= i < |u.inbound| ==>
          w.nodes[u.inbound[i].boundary] == BoundaryNode([Port(InPortName(i), u.inbound[i].ptype)]))
    && (u.inbound == [] ==> w.nodes[u.emptyInput] == BoundaryNode([]))
    && w.nodes[u.output] == OutputNode(u.outbound)
  }

  /** Insertion order of the workflow: copies, encoders, input boundaries in port order, output boundary. */
  ghost predicate IsWorkflowOrder(u: Unit, copies: seq<string>, encoders: seq<string>) {
    && Enumerates(copies, u.group.Remote())
    && (forall id <- encoders :: u.IsEncoder(id))
    && u.workflow.order == copies + encoders + BoundaryIds(u) + [u.output]
  }

  function BoundaryIds(u: Unit): seq<string> {
    if u.inbound == [] then [u.emptyInput]
    else seq(|u.inbound|, i requires 0 <= i < |u.inbound| => u.inbound[i].boundary)
  }

  /** The prompt that is left. */
  ghost predicate IsRemainder(p: Prompt, u: Unit, c: Prompt) {
    && c.Valid()
    && (forall id :: id in c.nodes <==>
          (id in p.nodes && id !in u.group.inside) || u.IsDecoder(id) || id == u.wrapper || id == u.prepare)
    && (forall id :: id in p.nodes && id !in u.group.inside ==> OutwardNode(p, u, p.nodes[id], c.nodes[id]))
    && (forall i :: 0 <= i < |u.outbound| && u.outbound[i].Adapted() ==>
          c.nodes[u.outbound[i].decode] == u.outbound[i].DecodeNode(u.wrapper, i))
    && c.nodes[u.prepare] == PrepareNode(u)
    && c.nodes[u.wrapper] == WrapperNode(u)
    && IsExecutor(u.wrapperKind)
  }

  ghost predicate Compiled(proj: Projection, p: Prompt, u: Unit, c: Prompt) {
    && GoodInPorts(proj, p, u.group, u.inbound)
    && GoodOutPorts(proj, p, u.group, u.outbound)
    && GoodNames(p, u)
    && IsWorkflow(proj, p, u)
    && (exists copies, encoders :: IsWorkflowOrder(u, copies, encoders))
    && IsRemainder(p, u, c)
  }

  // ---- dangling links ----

  /**
   * A node that stays reads a new node of the remaining prompt, or a copy one of the workflow, if it links to `src`.
   */
  ghost predicate Captured(u: Unit, id: string, src: string) {
    (id !in u.group.inside && u.MakesLocally(src)) || (id in u.group.Remote() && u.MakesRemotely(src))
  }

  /** No dangling link names an id that is generated where it ends up. */
  ghost predicate NoCapture(p: Prompt, u: Unit) {
    forall id, name :: Dangles(p, id, name) ==> !Captured(u, id, p.nodes[id].inputs[name].src)
  }

  /** Names that may be generated for some group and port. */
  ghost predicate MayBeGenerated(id: string, index: nat, i: nat) {
    || IsCandidate(id, WrapperName(index)) || IsCandidate(id, PrepareName(index)) || IsCandidate(id, OutputName(index))
    || IsCandidate(id, EmptyBoundaryName(index)) || IsCandidate(id, BoundaryName(index, i))
    || IsCandidate(id, EncodeName(index, i)) || IsCandidate(id, DecodeName(index, i))
  }

  /** No dangling link has a name that may be generated: what can be checked before compiling. */
  ghost predicate LinksClear(p: Prompt) {
    forall id, name, index, i :: Dangles(p, id, name) ==> !MayBeGenerated(p.nodes[id].inputs[name].src, index, i)
  }

  lemma ClearIsEnough(proj: Projection, p: Prompt, u: Unit)
    requires GoodNames(p, u) && GoodInPorts(proj, p, u.group, u.inbound) && LinksClear(p)
    ensures NoCapture(p, u)
  {
    hide IsCandidate, Dangles, OutPort.Adapted;
    forall id, src | Captured(u, id, src) ensures exists i: nat :: MayBeGenerated(src, u.group.index, i) {
      CapturedMayBeGenerated(proj, p, u, id, src);
    }
  }

  lemma CapturedMayBeGenerated(proj: Projection, p: Prompt, u: Unit, id: string, src: string)
    requires GoodNames(p, u) && GoodInPorts(proj, p, u.group, u.inbound) && Captured(u, id, src)
    ensures exists i: nat :: MayBeGenerated(src, u.group.index, i)
  {
    hide IsCandidate, OutPort.Adapted;
    var index, i := u.group.index, 0;
    if u.IsDecoder(src) {
      i :| 0 <= i < |u.outbound| && u.outbound[i].Adapted() && u.outbound[i].decode == src;
    } else if u.IsEncoder(src) {
      i :| 0 <= i < |u.outbound| && u.outbound[i].Adapted() && u.outbound[i].encode == src;
    } else if exists k :: 0 <= k < |u.inbound| && u.inbound[k].boundary == src {
      i :| 0 <= i < |u.inbound| && u.inbound[i].boundary == src;
      assert GoodInPort(p, u.group, i, u.inbound[i]);
    }
    assert MayBeGenerated(src, index, i);
  }
}
