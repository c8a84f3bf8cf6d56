/** The prompt left after compiling one group computes what the prompt before computed. */
module StepMeaning {
  import opened Wrappers
  import opened Ids
  import opened Prompts
  import opened BoundaryTypes
  import opened Contract
  import opened Editor
  import opened Semantics
  import opened GroupCode
  import opened Agreement
  import opened UnitMeaning

  /** The value that crosses the wire for outbound port i. */
  ghost function Wire(I: Interp, u: Unit, val: Valuation, i: nat): Value
    requires i < |u.outbound|
  {
    var port := u.outbound[i];
    if port.Adapted() then Encoded(I, port.ptype, val(port.src, port.slot)) else val(port.src, port.slot)
  }

  /** Everything a step needs: the group is compiled and the values before are known. */
  ghost predicate Step(I: Interp, proj: Projection, p: Prompt, env: Env, val: Valuation, rank: map<string, nat>,
                       u: Unit, c: Prompt)
  {
    && Compiled(proj, p, u, c) && NoCapture(p, u) && Ready(p, u.group, rank) && Solves(I, p, env, val)
  }

  lemma StepIsCompiled(I: Interp, proj: Projection, p: Prompt, env: Env, val: Valuation, rank: map<string, nat>,
                       u: Unit, c: Prompt)
    requires Step(I, proj, p, env, val, rank, u, c)
    ensures Compiled(proj, p, u, c) && NoCapture(p, u) && Ready(p, u.group, rank) && Solves(I, p, env, val)
    ensures GoodNames(p, u) && GoodInPorts(proj, p, u.group, u.inbound) && GoodOutPorts(proj, p, u.group, u.outbound)
    ensures IsWorkflow(proj, p, u)
  {
  }

  lemma OutPortFacts(proj: Projection, p: Prompt, u: Unit, i: nat)
    requires GoodOutPorts(proj, p, u.group, u.outbound) && GoodNames(p, u) && IsWorkflow(proj, p, u) && i < |u.outbound|
    ensures u.outbound[i].src in u.group.Remote() && u.outbound[i].src in u.workflow.nodes
    ensures u.outbound[i].Adapted() ==>
              && u.outbound[i].encode in u.workflow.nodes
              && u.workflow.nodes[u.outbound[i].encode] == u.outbound[i].EncodeNode()
              && u.outbound[i].encode !in p.nodes
  {
    assert u.outbound[i].Adapted() ==> u.IsEncoder(u.outbound[i].encode);
  }

  lemma EncodeNodeOut(I: Interp, port: OutPort, w: Prompt, val: Valuation, env: Env)
    requires port.Adapted() && port.src in w.nodes
    ensures NodeOut(I, port.EncodeNode(), ArgsOf(w, port.EncodeNode(), val), env, 0)
            == Encoded(I, port.ptype, val(port.src, port.slot))
  {
    assert ArgsOf(w, port.EncodeNode(), val)
        == map[Name(port.ptype) := Val(val(port.src, port.slot)), Compress := Const(Text("true"))];
  }

  lemma DecodeNodeOut(I: Interp, port: OutPort, c: Prompt, val: Valuation, env: Env, wrapper: string, i: nat)
    requires port.Adapted() && wrapper in c.nodes
    ensures NodeOut(I, port.DecodeNode(wrapper, i), ArgsOf(c, port.DecodeNode(wrapper, i), val), env, 0)
            == Decoded(I, port.ptype, val(wrapper, i))
  {
    assert ArgsOf(c, port.DecodeNode(wrapper, i), val)
        == map[Blob := Val(val(wrapper, i)), Device := Const(Text("auto"))];
  }

  lemma SourceIsThere(I: Interp, proj: Projection, p: Prompt, env: Env, val: Valuation, rank: map<string, nat>,
                      u: Unit, c: Prompt, renv: Env, i: nat)
    requires Step(I, proj, p, env, val, rank, u, c) && RequestFor(u, val, renv) && i < |u.outbound|
    ensures Acyclic(u.workflow) && Solves(I, u.workflow, renv, UpTo(I, u, renv, val, 3))
    ensures var port, w := u.outbound[i], u.workflow;
            && port.src in w.nodes && ValueOf(I, w, renv, port.src, port.slot) == val(port.src, port.slot)
            && (port.Adapted() ==> port.encode in w.nodes && w.nodes[port.encode] == port.EncodeNode())
  {
    hide *;
    StepIsCompiled(I, proj, p, env, val, rank, u, c);
    WorkflowComputes(I, proj, p, env, u, renv, val, rank);
    OutPortFacts(proj, p, u, i);
  }

  /** What reaches the output boundary on port i. */
  lemma SourceValue(I: Interp, proj: Projection, p: Prompt, env: Env, val: Valuation, rank: map<string, nat>,
                    u: Unit, c: Prompt, renv: Env, i: nat)
    requires Step(I, proj, p, env, val, rank, u, c) && RequestFor(u, val, renv) && i < |u.outbound|
    ensures Acyclic(u.workflow) && u.outbound[i].RemoteSource().src in u.workflow.nodes
    ensures ValueOf(I, u.workflow, renv, u.outbound[i].RemoteSource().src, u.outbound[i].RemoteSource().slot)
            == Wire(I, u, val, i)
  {
    hide Step, RequestFor, NodeOut, UpTo, Acyclic, Solves, ValueOf, OutPort.RemoteSource, OutPort.Adapted,
      OutPort.EncodeNode, Encoded;
    SourceIsThere(I, proj, p, env, val, rank, u, c, renv, i);
    RemoteSourceValue(I, u.workflow, renv, UpTo(I, u, renv, val, 3), u.outbound[i]);
  }

  /** What an encoder puts out is the encoded value of its source. */
  lemma RemoteSourceValue(I: Interp, w: Prompt, renv: Env, wval: Valuation, port: OutPort)
    requires Acyclic(w) && Solves(I, w, renv, wval) && port.src in w.nodes
    requires port.Adapted() ==> port.encode in w.nodes && w.nodes[port.encode] == port.EncodeNode()
    ensures port.RemoteSource().src in w.nodes
    ensures var v := ValueOf(I, w, renv, port.src, port.slot);
            ValueOf(I, w, renv, port.RemoteSource().src, port.RemoteSource().slot)
            == if port.Adapted() then Encoded(I, port.ptype, v) else v
  {
    if port.Adapted() {
      SolutionIsValue(I, w, renv, wval, port.encode, 0);
      SolutionIsValue(I, w, renv, wval, port.src, port.slot);
      EncodeNodeOut(I, port, w, wval, renv);
    }
    hide NodeOut, ValueOf, Acyclic, Encoded;
  }

  /** The output boundary of an accepted workflow is the generated one. */
  lemma OneOutputBoundary(proj: Projection, p: Prompt, u: Unit, c: Prompt)
    requires Compiled(proj, p, u, c) && NoUserBoundary(p, u.group)
    ensures OfKind(u.workflow, u.workflow.order, WorkflowOutput) == [u.output]
  {
    var w := u.workflow;
    var copies, encoders :| IsWorkflowOrder(u, copies, encoders);
    GeneratedKinds(proj, p, u);
    UserBoundaries(proj, p, u, copies);
    BoundaryLiterals(proj, p, u);
    OutputDeclares(proj, p, u);
    OutPortsReadBack(proj, p, u);
    hide GoodInPorts, GoodOutPorts, GoodNames, IsRemainder, PortsOf, BoundaryIds, NoUserBoundary, OutPortList, Declared,
      DistinctNames, IsWorkflow;
    OutputsOfLayout(w, copies, encoders, BoundaryIds(u), u.output, OutPortList(u.outbound));
  }

  lemma EmitSourceAt(w: Prompt, output: string, outs: seq<Port>, i: nat)
    requires OfKind(w, w.order, WorkflowOutput) == [output] && output in w.nodes
    requires PortsOf(w.nodes[output].LiteralAt(PortsJson)) == Some(outs) && DistinctNames(outs)
    requires i < |outs| && InputName.Value(i) in w.nodes[output].inputs
    ensures EmitSource(w, outs[i].name) == Some(w.nodes[output].inputs[InputName.Value(i)])
  {
    hide PortsOf, OfKind;
    assert forall k :: 0 <= k < |outs| && outs[k].name == outs[i].name ==> k == i;
  }

  lemma EmittedPort(proj: Projection, p: Prompt, u: Unit, c: Prompt, i: nat)
    requires Compiled(proj, p, u, c) && NoUserBoundary(p, u.group) && i < |u.outbound|
    ensures EmitSource(u.workflow, OutPortName(i)) == Some(u.outbound[i].RemoteSource())
  {
    OneOutputBoundary(proj, p, u, c);
    OutPortsReadBack(proj, p, u);
    OutputNodeFacts(u.outbound);
    assert u.output in u.workflow.nodes && u.workflow.nodes[u.output] == OutputNode(u.outbound);
    assert OutPortList(u.outbound)[i].name == OutPortName(i);
    hide Compiled, PortsOf, OutputNode, OfKind, InPortList, DistinctNames, OutPortList;
    EmitSourceAt(u.workflow, u.output, OutPortList(u.outbound), i);
  }

  lemma RequestCarries(ins: seq<Port>, args: map<InputName, Arg>, k: nat)
    requires DistinctNames(ins) && k < |ins| && InputName.Value(k) in args && args[InputName.Value(k)].Val?
    ensures ins[k].name in RequestValues(ins, args)
    ensures RequestValues(ins, args)[ins[k].name] == args[InputName.Value(k)].value
  {
  }

  /** The wrapper's inputs `value_1`, ... carry the inbound sources. */
  ghost predicate CarriesSources(u: Unit, val: Valuation, args: map<InputName, Arg>) {
    forall k :: 0 <= k < |u.inbound| ==>
                  InputName.Value(k) in args
                  && args[InputName.Value(k)] == Val(val(u.inbound[k].src, u.inbound[k].slot))
  }

  ghost function RequestOf(u: Unit, args: map<InputName, Arg>): Env
    requires DistinctNames(InPortList(u.inbound))
  {
    RequestValues(InPortList(u.inbound), args)
  }

  lemma RequestIsRight(u: Unit, val: Valuation, args: map<InputName, Arg>)
    requires DistinctNames(InPortList(u.inbound)) && CarriesSources(u, val, args)
    ensures RequestFor(u, val, RequestOf(u, args))
  {
    forall i | 0 <= i < |u.inbound|
      ensures InPortName(i) in RequestOf(u, args)
      ensures RequestOf(u, args)[InPortName(i)] == val(u.inbound[i].src, u.inbound[i].slot)
    {
      RequestCarries(InPortList(u.inbound), args, i);
    }
  }

  lemma RunRemoteUnfolds(I: Interp, n: Node, w: Prompt, ins: seq<Port>, outs: seq<Port>, args: map<InputName, Arg>,
                         env: Env, i: nat, source: Input)
    requires IsExecutor(n.kind) && CanRun(n) && n.LiteralAt(RemoteWorkflowJson) == Workflow(w)
    requires PortsOf(n.LiteralAt(InputPortsJson)) == Some(ins) && PortsOf(n.LiteralAt(OutputPortsJson)) == Some(outs)
    requires i < |outs| && EmitSource(w, outs[i].name) == Some(source) && source.Link? && source.src in w.nodes
    ensures Acyclic(w) && DistinctNames(ins)
    ensures NodeOut(I, n, args, env, i) == ValueOf(I, w, RequestValues(ins, args), source.src, source.slot)
  {
    hide ExecutorAccepts, EmitSource;
    var renv := RequestValues(ins, args);
    assert NodeOut(I, n, args, env, i) == RunRemote(I, n, args, i);
    assert RunRemote(I, n, args, i) == Emitted(I, w, renv, outs[i].name);
    assert Emitted(I, w, renv, outs[i].name) == Eval(I, w, renv, SomeRank(w), source.src, source.slot);
  }

  lemma WrapperCanRun(I: Interp, proj: Projection, p: Prompt, env: Env, val: Valuation, rank: map<string, nat>,
                      u: Unit, c: Prompt)
    requires Step(I, proj, p, env, val, rank, u, c)
    ensures CanRun(WrapperNode(u)) && IsExecutor(WrapperNode(u).kind)
  {
    ExecutorAgrees(proj, p, u, c);
    WrapperNodeFacts(u);
    WorkflowAcyclic(proj, p, u, rank);
    assert IsExecutor(WrapperNode(u).kind);
    hide Compiled, NoCapture, Ready, Solves, ExecutorAccepts, WrapperNode, InPortList, OutPortList, Acyclic,
      NoUserBoundary;
  }

  /** The executor runs the wrapper and puts on slot i what the group sends out on port i. */
  lemma WrapperEmits(I: Interp, proj: Projection, p: Prompt, env: Env, val: Valuation, rank: map<string, nat>,
                     u: Unit, c: Prompt, args: map<InputName, Arg>, i: nat)
    requires Step(I, proj, p, env, val, rank, u, c) && CarriesSources(u, val, args) && i < |u.outbound|
    ensures NodeOut(I, WrapperNode(u), args, env, i) == Wire(I, u, val, i)
  {
    InPortsReadBack(proj, p, u);
    OutPortsReadBack(proj, p, u);
    WrapperNodeFacts(u);
    RequestIsRight(u, val, args);
    SourceValue(I, proj, p, env, val, rank, u, c, RequestOf(u, args), i);
    EmittedPort(proj, p, u, c, i);
    WrapperCanRun(I, proj, p, env, val, rank, u, c);
    assert OutPortList(u.outbound)[i].name == OutPortName(i);
    hide Step, PortsOf, CanRun, WrapperNode, InPortList, OutPortList, Acyclic, RequestFor, RequestValues,
      CarriesSources, EmitSource, DistinctNames, NodeOut;
    RunRemoteUnfolds(I, WrapperNode(u), u.workflow, InPortList(u.inbound), OutPortList(u.outbound), args, env, i,
                     u.outbound[i].RemoteSource());
  }

  // ---- the prompt that is left ----

  ghost function Decoders(u: Unit, c: Prompt): set<string> {
    set id | id in c.nodes && u.IsDecoder(id)
  }

  /** Survivors keep their values; the generated nodes get theirs from them. */
  ghost function After(I: Interp, env: Env, val: Valuation, u: Unit, c: Prompt): Valuation {
    var prepared := Extend(I, c, env, {u.prepare}, val);
    var wrapped := Extend(I, c, env, {u.wrapper}, prepared);
    Extend(I, c, env, Decoders(u, c), wrapped)
  }

  lemma SurvivorsKeepValues(I: Interp, env: Env, p: Prompt, val: Valuation, u: Unit, c: Prompt, id: string, slot: nat)
    requires GoodNames(p, u) && id in p.nodes && id !in u.group.inside
    ensures After(I, env, val, u, c)(id, slot) == val(id, slot)
  {
  }

  lemma InboundSurvive(proj: Projection, p: Prompt, u: Unit, c: Prompt, k: nat)
    requires Compiled(proj, p, u, c) && k < |u.inbound|
    ensures u.inbound[k].src in p.nodes && u.inbound[k].src !in u.group.inside && u.inbound[k].src in c.nodes
  {
    hide IsWorkflow, GoodOutPorts, GoodNames;
  }

  lemma WrapperIs(proj: Projection, p: Prompt, u: Unit, c: Prompt)
    requires Compiled(proj, p, u, c)
    ensures GoodNames(p, u) && GoodInPorts(proj, p, u.group, u.inbound) && u.wrapper in c.nodes
            && c.nodes[u.wrapper] == WrapperNode(u)
  {
    hide IsWorkflow, GoodInPorts, GoodOutPorts, GoodNames, WrapperNode, PrepareNode, OutwardNode;
  }

  lemma WrapperReads(I: Interp, proj: Projection, p: Prompt, env: Env, val: Valuation, u: Unit, c: Prompt)
    requires Compiled(proj, p, u, c)
    ensures u.wrapper in c.nodes && c.nodes[u.wrapper] == WrapperNode(u)
    ensures CarriesSources(u, val, ArgsOf(c, WrapperNode(u), After(I, env, val, u, c)))
  {
    hide Compiled, GoodNames, GoodInPorts, WrapperNode, After;
    WrapperIs(proj, p, u, c);
    WrapperNodeFacts(u);
    forall k | 0 <= k < |u.inbound|
      ensures u.inbound[k].src in c.nodes
      ensures After(I, env, val, u, c)(u.inbound[k].src, u.inbound[k].slot) == val(u.inbound[k].src, u.inbound[k].slot)
    {
      InboundSurvive(proj, p, u, c, k);
      SurvivorsKeepValues(I, env, p, val, u, c, u.inbound[k].src, u.inbound[k].slot);
    }
  }

  lemma GeneratedInRemainder(proj: Projection, p: Prompt, u: Unit, c: Prompt)
    requires Compiled(proj, p, u, c)
    ensures u.wrapper in c.nodes && c.nodes[u.wrapper] == WrapperNode(u)
    ensures u.prepare in c.nodes && c.nodes[u.prepare] == PrepareNode(u)
    ensures u.wrapper != u.prepare && !u.IsDecoder(u.wrapper) && !u.IsDecoder(u.prepare)
    ensures u.wrapper !in p.nodes && (u.prepare in p.nodes ==> u.prepare in u.group.inside)
    ensures forall id :: u.IsDecoder(id) ==> id !in p.nodes
    ensures forall i :: 0 <= i < |u.outbound| && u.outbound[i].Adapted() ==>
              u.outbound[i].decode in c.nodes && u.outbound[i].decode in Decoders(u, c)
              && c.nodes[u.outbound[i].decode] == u.outbound[i].DecodeNode(u.wrapper, i)
  {
    hide IsWorkflow, GoodInPorts, GoodOutPorts, IsWorkflowOrder, IsCandidate, BLOB_ADAPTED, PrepareNode, WrapperNode,
      OutPort.DecodeNode, OutwardNode, IsExecutor;
    NamesDiffer(proj, p, u);
    forall i | 0 <= i < |u.outbound| && u.outbound[i].Adapted()
      ensures u.outbound[i].decode in c.nodes && u.outbound[i].decode in Decoders(u, c)
    {
      assert u.IsDecoder(u.outbound[i].decode);
    }
  }

  /** A local consumer of outbound port i reads the value it read before. */
  lemma LocalSourceValue(I: Interp, proj: Projection, p: Prompt, env: Env, val: Valuation, rank: map<string, nat>,
                         u: Unit, c: Prompt, i: nat)
    requires Step(I, proj, p, env, val, rank, u, c) && FaithfulBlobs(I) && i < |u.outbound|
    ensures u.LocalSource(i).src in c.nodes
    ensures After(I, env, val, u, c)(u.LocalSource(i).src, u.LocalSource(i).slot) ==
            val(u.outbound[i].src, u.outbound[i].slot)
  {
    var after, port := After(I, env, val, u, c), u.outbound[i];
    GeneratedInRemainder(proj, p, u, c);
    WrapperValue(I, proj, p, env, val, rank, u, c, i);
    if port.Adapted() {
      DecoderValue(I, proj, p, env, val, u, c, i);
      assert Decoded(I, port.ptype, Encoded(I, port.ptype, val(port.src, port.slot))) == val(port.src, port.slot);
    }
    hide Step, After;
  }

  lemma WrapperValue(I: Interp, proj: Projection, p: Prompt, env: Env, val: Valuation, rank: map<string, nat>,
                     u: Unit, c: Prompt, i: nat)
    requires Step(I, proj, p, env, val, rank, u, c) && i < |u.outbound|
    ensures After(I, env, val, u, c)(u.wrapper, i) == Wire(I, u, val, i)
  {
    GeneratedValued(I, proj, p, env, val, u, c, u.wrapper, i);
    GeneratedInRemainder(proj, p, u, c);
    WrapperReads(I, proj, p, env, val, u, c);
    WrapperEmits(I, proj, p, env, val, rank, u, c, ArgsOf(c, WrapperNode(u), After(I, env, val, u, c)), i);
    hide Step, After, NodeOut;
  }

  lemma DecoderValue(I: Interp, proj: Projection, p: Prompt, env: Env, val: Valuation, u: Unit, c: Prompt, i: nat)
    requires Compiled(proj, p, u, c) && i < |u.outbound| && u.outbound[i].Adapted()
    ensures After(I, env, val, u, c)(u.outbound[i].decode, 0)
            == Decoded(I, u.outbound[i].ptype, After(I, env, val, u, c)(u.wrapper, i))
  {
    GeneratedInRemainder(proj, p, u, c);
    assert u.IsDecoder(u.outbound[i].decode);
    GeneratedValued(I, proj, p, env, val, u, c, u.outbound[i].decode, 0);
    DecodeNodeOut(I, u.outbound[i], c, After(I, env, val, u, c), env, u.wrapper, i);
    hide Compiled, After, NodeOut;
  }

  /** The generated nodes have the values their inputs give them. */
  lemma GeneratedValued(I: Interp, proj: Projection, p: Prompt, env: Env, val: Valuation, u: Unit, c: Prompt,
                        id: string, slot: nat)
    requires Compiled(proj, p, u, c) && (id == u.wrapper || id == u.prepare || u.IsDecoder(id))
    ensures id in c.nodes
    ensures After(I, env, val, u, c)(id, slot)
            == NodeOut(I, c.nodes[id], ArgsOf(c, c.nodes[id], After(I, env, val, u, c)), env, slot)
  {
    GeneratedInRemainder(proj, p, u, c);
    var prepared := Extend(I, c, env, {u.prepare}, val);
    var wrapped := Extend(I, c, env, {u.wrapper}, prepared);
    var decoders := Decoders(u, c);
    hide Compiled, NodeOut;
    if id == u.prepare {
      PrepareReads(proj, p, u, c, {u.prepare});
      PrepareReads(proj, p, u, c, {u.wrapper});
      PrepareReads(proj, p, u, c, decoders);
      ExtendKeepsArgs(I, c, env, {u.prepare}, val, c.nodes[id]);
      ExtendKeepsArgs(I, c, env, {u.wrapper}, prepared, c.nodes[id]);
      ExtendKeepsArgs(I, c, env, decoders, wrapped, c.nodes[id]);
    } else if id == u.wrapper {
      WrapperReadsOthers(proj, p, u, c);
      ExtendKeepsArgs(I, c, env, {u.wrapper}, prepared, c.nodes[id]);
      ExtendKeepsArgs(I, c, env, decoders, wrapped, c.nodes[id]);
    } else {
      DecodersRead(proj, p, u, c, id);
      ExtendKeepsArgs(I, c, env, decoders, wrapped, c.nodes[id]);
    }
  }

  lemma PrepareReads(proj: Projection, p: Prompt, u: Unit, c: Prompt, ids: set<string>)
    requires Compiled(proj, p, u, c)
    ensures u.prepare in c.nodes && ReadsNoneOf(c, c.nodes[u.prepare], ids)
  {
    GeneratedInRemainder(proj, p, u, c);
    PrepareNodeFacts(u);
    hide Compiled, PrepareNode;
  }

  lemma WrapperLinks(proj: Projection, p: Prompt, u: Unit, c: Prompt, name: InputName)
    requires Compiled(proj, p, u, c) && name in WrapperNode(u).inputs && WrapperNode(u).inputs[name].Link?
    ensures WrapperNode(u).inputs[name].src == u.prepare || WrapperNode(u).inputs[name].src in p.nodes
  {
    WrapperNodeFacts(u);
    hide WrapperNode;
    if WrapperNode(u).inputs[name] != Link(u.prepare, 0) {
      var i :| 0 <= i < |u.inbound| && WrapperNode(u).inputs[name] == Link(u.inbound[i].src, u.inbound[i].slot);
      InboundSurvive(proj, p, u, c, i);
    }
    hide Compiled;
  }

  lemma WrapperReadsOthers(proj: Projection, p: Prompt, u: Unit, c: Prompt)
    requires Compiled(proj, p, u, c)
    ensures u.wrapper in c.nodes && ReadsNoneOf(c, c.nodes[u.wrapper], {u.wrapper})
    ensures ReadsNoneOf(c, c.nodes[u.wrapper], Decoders(u, c))
  {
    hide Compiled, WrapperNode, PrepareNode, OutPort.Adapted, OutPort.DecodeNode;
    GeneratedInRemainder(proj, p, u, c);
    assert c.nodes[u.wrapper] == WrapperNode(u);
    forall name | name in WrapperNode(u).inputs && WrapperNode(u).inputs[name].Link?
      ensures WrapperNode(u).inputs[name].src == u.prepare || WrapperNode(u).inputs[name].src in p.nodes
    {
      WrapperLinks(proj, p, u, c, name);
    }
  }

  lemma DecodersRead(proj: Projection, p: Prompt, u: Unit, c: Prompt, id: string)
    requires Compiled(proj, p, u, c) && id in Decoders(u, c)
    ensures ReadsNoneOf(c, c.nodes[id], Decoders(u, c))
  {
    GeneratedInRemainder(proj, p, u, c);
    hide Compiled;
    var i :| 0 <= i < |u.outbound| && u.outbound[i].Adapted() && u.outbound[i].decode == id;
    AdapterNodeFacts(u.outbound[i], u.wrapper, i);
    hide BLOB_ADAPTED, OutPort.DecodeNode;
    assert c.nodes[id] == u.outbound[i].DecodeNode(u.wrapper, i);
  }

  // ---- survivors ----

  lemma SurvivorInput(I: Interp, proj: Projection, p: Prompt, env: Env, val: Valuation, rank: map<string, nat>,
                      u: Unit, c: Prompt, was: Input, now: Input)
    requires Step(I, proj, p, env, val, rank, u, c) && FaithfulBlobs(I) && OutwardInput(p, u, was, now)
    requires was.Link? && was.src !in p.nodes ==> was.src !in c.nodes
    ensures ArgOf(c, now, After(I, env, val, u, c)) == ArgOf(p, was, val)
  {
    hide IsWorkflow, GoodInPorts, GoodOutPorts, IsRemainder, After, Ready, Solves, NoCapture, BLOB_ADAPTED;
    if was.Link? && was.src in p.nodes {
      if was.src in u.group.inside {
        var i :| 0 <= i < |u.outbound| && now == u.LocalSource(i)
                 && u.outbound[i].src == was.src && u.outbound[i].slot == was.slot;
        LocalSourceValue(I, proj, p, env, val, rank, u, c, i);
      } else {
        RemainderKinds(proj, p, u, c, was.src);
        SurvivorsKeepValues(I, env, p, val, u, c, was.src, was.slot);
      }
    }
  }

  lemma SurvivorNode(proj: Projection, p: Prompt, u: Unit, c: Prompt, id: string)
    requires Compiled(proj, p, u, c) && id in p.nodes && id !in u.group.inside
    ensures id in c.nodes && OutwardNode(p, u, p.nodes[id], c.nodes[id])
    ensures c.nodes[id].kind == p.nodes[id].kind
    ensures forall name :: c.nodes[id].LiteralAt(name) == p.nodes[id].LiteralAt(name)
  {
    hide Compiled, OutwardInput;
    SurvivorRewired(proj, p, u, c, id);
    forall name ensures c.nodes[id].LiteralAt(name) == p.nodes[id].LiteralAt(name) {
      if name in p.nodes[id].inputs {
        OutwardKeepsLiteral(p, u, p.nodes[id].inputs[name], c.nodes[id].inputs[name]);
      }
    }
  }

  lemma OutwardKeepsLiteral(p: Prompt, u: Unit, was: Input, now: Input)
    requires OutwardInput(p, u, was, now)
    ensures was.Lit? ==> now == was
    ensures was.Link? ==> now.Link?
  {
    hide BLOB_ADAPTED;
  }

  lemma SurvivorRewired(proj: Projection, p: Prompt, u: Unit, c: Prompt, id: string)
    requires Compiled(proj, p, u, c) && id in p.nodes && id !in u.group.inside
    ensures id in c.nodes && OutwardNode(p, u, p.nodes[id], c.nodes[id])
  {
    hide IsWorkflow, GoodInPorts, GoodOutPorts, GoodNames, OutwardNode, WrapperNode, PrepareNode;
  }

  /** A surviving node's inputs are worth what they were. */
  lemma SurvivorArgs(I: Interp, proj: Projection, p: Prompt, env: Env, val: Valuation, rank: map<string, nat>,
                     u: Unit, c: Prompt, id: string)
    requires Step(I, proj, p, env, val, rank, u, c) && FaithfulBlobs(I) && id in p.nodes && id !in u.group.inside
    ensures id in c.nodes && ArgsOf(c, c.nodes[id], After(I, env, val, u, c)) == ArgsOf(p, p.nodes[id], val)
  {
    hide Compiled, NoUserBoundary, Solves, After, OutwardInput, Node.LiteralAt, FaithfulBlobs, RankedOn;
    SurvivorNode(proj, p, u, c, id);
    forall name | name in p.nodes[id].inputs
      ensures ArgOf(c, c.nodes[id].inputs[name], After(I, env, val, u, c)) == ArgOf(p, p.nodes[id].inputs[name], val)
    {
      SurvivorDangles(proj, p, u, c, id, name);
      SurvivorInput(I, proj, p, env, val, rank, u, c, p.nodes[id].inputs[name], c.nodes[id].inputs[name]);
    }
  }

  /**
   * Compiling one group: there is a valuation of the remaining prompt that solves it, agrees with the
   * values before on every surviving node, and under which the executor, sent the wrapper's inputs,
   * computes every copy's original value.
   */
  lemma StepPreserves(I: Interp, proj: Projection, p: Prompt, env: Env, val: Valuation, rank: map<string, nat>,
                      u: Unit, c: Prompt)
    requires Step(I, proj, p, env, val, rank, u, c) && FaithfulBlobs(I)
    ensures Solves(I, c, env, After(I, env, val, u, c))
    ensures forall id, slot :: id in p.nodes && id !in u.group.inside ==>
              After(I, env, val, u, c)(id, slot) == val(id, slot)
    ensures forall id :: id in p.nodes && id !in u.group.inside ==>
              id in c.nodes && ArgsOf(c, c.nodes[id], After(I, env, val, u, c)) == ArgsOf(p, p.nodes[id], val)
  {
    var after := After(I, env, val, u, c);
    assert GoodNames(p, u);
    forall id, slot | id in p.nodes && id !in u.group.inside ensures after(id, slot) == val(id, slot) {
      SurvivorsKeepValues(I, env, p, val, u, c, id, slot);
    }
    forall id | id in p.nodes && id !in u.group.inside
      ensures id in c.nodes && ArgsOf(c, c.nodes[id], after) == ArgsOf(p, p.nodes[id], val)
    {
      SurvivorArgs(I, proj, p, env, val, rank, u, c, id);
    }
    forall id, slot | id in c.nodes
      ensures after(id, slot) == NodeOut(I, c.nodes[id], ArgsOf(c, c.nodes[id], after), env, slot)
    {
      RemainderNode(I, proj, p, env, val, rank, u, c, id, slot);
    }
    hide Step, After, NodeOut, GoodNames;
  }

  lemma RemainderKinds(proj: Projection, p: Prompt, u: Unit, c: Prompt, id: string)
    requires Compiled(proj, p, u, c)
    ensures id in c.nodes <==>
            (id in p.nodes && id !in u.group.inside) || u.IsDecoder(id) || id == u.wrapper || id == u.prepare
  {
    hide IsWorkflow, GoodInPorts, GoodOutPorts, GoodNames;
  }

  lemma RemainderNode(I: Interp, proj: Projection, p: Prompt, env: Env, val: Valuation, rank: map<string, nat>,
                      u: Unit, c: Prompt, id: string, slot: nat)
    requires Step(I, proj, p, env, val, rank, u, c) && FaithfulBlobs(I) && id in c.nodes
    ensures After(I, env, val, u, c)(id, slot)
            == NodeOut(I, c.nodes[id], ArgsOf(c, c.nodes[id], After(I, env, val, u, c)), env, slot)
  {
    RemainderKinds(proj, p, u, c, id);
    if id in p.nodes && id !in u.group.inside {
      SurvivorArgs(I, proj, p, env, val, rank, u, c, id);
      SurvivorNode(proj, p, u, c, id);
      SameNodeOut(I, c.nodes[id], p.nodes[id], ArgsOf(p, p.nodes[id], val), env, slot);
      SurvivorsKeepValues(I, env, p, val, u, c, id, slot);
    } else {
      GeneratedValued(I, proj, p, env, val, u, c, id, slot);
    }
    hide Compiled, NoCapture, Ready, After, NodeOut;
  }

  lemma LocalSourceExists(proj: Projection, p: Prompt, u: Unit, c: Prompt, i: nat)
    requires Compiled(proj, p, u, c) && i < |u.outbound|
    ensures u.LocalSource(i).src in c.nodes
  {
    hide Compiled, PrepareNode, WrapperNode, Unit.IsDecoder, OutPort.DecodeNode, BLOB_ADAPTED;
    GeneratedInRemainder(proj, p, u, c);
  }

  /** A survivor's link dangles afterwards exactly if it dangled and names no new node, and then it is as it was. */
  lemma SurvivorDangles(proj: Projection, p: Prompt, u: Unit, c: Prompt, id: string, name: InputName)
    requires Compiled(proj, p, u, c) && id in p.nodes && id !in u.group.inside
    ensures Dangles(c, id, name) <==> Dangles(p, id, name) && !u.MakesLocally(p.nodes[id].inputs[name].src)
    ensures Dangles(p, id, name) ==>
              id in c.nodes && name in c.nodes[id].inputs && c.nodes[id].inputs[name] == p.nodes[id].inputs[name]
  {
    hide Compiled, Unit.LocalSource, Node.LiteralAt, Unit.IsDecoder;
    SurvivorNode(proj, p, u, c, id);
    if name in p.nodes[id].inputs {
      var was := p.nodes[id].inputs[name];
      assert OutwardInput(p, u, was, c.nodes[id].inputs[name]);
      if was.Link? && was.src in u.group.inside && was.src in p.nodes {
        var i :| 0 <= i < |u.outbound| && c.nodes[id].inputs[name] == u.LocalSource(i);
        LocalSourceExists(proj, p, u, c, i);
      } else if was.Link? {
        RemainderKinds(proj, p, u, c, was.src);
      }
    }
  }

  lemma GeneratedLink(proj: Projection, p: Prompt, u: Unit, c: Prompt, id: string, name: InputName)
    requires Compiled(proj, p, u, c) && (id == u.wrapper || id == u.prepare || u.IsDecoder(id)) && id in c.nodes
    requires name in c.nodes[id].inputs && c.nodes[id].inputs[name].Link?
    ensures c.nodes[id].inputs[name].src in c.nodes
  {
    hide Compiled, PrepareNode, WrapperNode, OutPort.DecodeNode, BLOB_ADAPTED;
    GeneratedInRemainder(proj, p, u, c);
    if id == u.wrapper {
      WrapperLinks(proj, p, u, c, name);
      WrapperNodeFacts(u);
      if WrapperNode(u).inputs[name] != Link(u.prepare, 0) {
        var i :| 0 <= i < |u.inbound| && WrapperNode(u).inputs[name] == Link(u.inbound[i].src, u.inbound[i].slot);
        InboundSurvive(proj, p, u, c, i);
      }
    } else if id == u.prepare {
      PrepareNodeFacts(u);
    } else {
      var i :| 0 <= i < |u.outbound| && u.outbound[i].Adapted() && u.outbound[i].decode == id;
      AdapterNodeFacts(u.outbound[i], u.wrapper, i);
    }
  }

  /**
   * Compiling a group makes no link dangle that did not. The links of survivors that dangle are left as they are, and
   * dangle afterwards if and only if they name no new node.
   */
  lemma DanglingStays(proj: Projection, p: Prompt, u: Unit, c: Prompt)
    requires Compiled(proj, p, u, c)
    ensures forall id, name :: Dangles(c, id, name) ==>
              id !in u.group.inside && Dangles(p, id, name) && c.nodes[id].inputs[name] == p.nodes[id].inputs[name]
    ensures forall id, name :: Dangles(p, id, name) && id !in u.group.inside ==>
              (Dangles(c, id, name) <==> !u.MakesLocally(p.nodes[id].inputs[name].src))
  {
    hide Compiled, Unit.IsDecoder, Unit.MakesLocally;
    forall id, name | Dangles(c, id, name)
      ensures id !in u.group.inside && Dangles(p, id, name) && c.nodes[id].inputs[name] == p.nodes[id].inputs[name]
    {
      SurvivorReads(proj, p, u, c, id, name);
      SurvivorDangles(proj, p, u, c, id, name);
    }
    forall id, name | Dangles(p, id, name) && id !in u.group.inside
      ensures Dangles(c, id, name) <==> !u.MakesLocally(p.nodes[id].inputs[name].src)
    {
      SurvivorDangles(proj, p, u, c, id, name);
    }
  }

  lemma SurvivorReads(proj: Projection, p: Prompt, u: Unit, c: Prompt, id: string, name: InputName)
    requires Compiled(proj, p, u, c) && Dangles(c, id, name)
    ensures id in p.nodes && id !in u.group.inside
  {
    RemainderKinds(proj, p, u, c, id);
    hide Compiled, Unit.IsDecoder;
    if !(id in p.nodes && id !in u.group.inside) { GeneratedLink(proj, p, u, c, id, name); }
  }

  /** So links dangle nowhere, in the remaining prompt and in the workflow, if they dangled nowhere before. */
  lemma LinksStayClosed(proj: Projection, p: Prompt, u: Unit, c: Prompt)
    requires Compiled(proj, p, u, c) && LinkClosed(p)
    ensures LinkClosed(c)
  {
    DanglingStays(proj, p, u, c);
    hide Compiled, LinkClosed, Unit.MakesLocally;
    NothingDangles(p);
    NothingDangles(c);
  }
}
