/**
 * What a prompt computes. Node evaluation is an uninterpreted function of the node's
 * class and inputs; boundary nodes read the request's values; an executor node runs its
 * remote workflow on its `value_i` inputs and returns what the output boundary receives.
 */
module Semantics {
  import opened Wrappers
  import opened Prompts
  import opened Contract

  type Value(!new, ==, 00)

  predicate IsExecutor(kind: Kind) { kind.GroupExecutor? || kind.GroupValueExecutor? }

  datatype Arg = Const(lit: Literal) | Val(value: Value) | Missing

  /** `op(class, inputs, slot)` is the value a node of that class puts on an output slot. */
  datatype Interp = Interp(op: (Kind, map<InputName, Arg>, nat) -> Value)

  /** The request values that input boundary nodes read, by port name. */
  type Env = map<string, Value>

  type Valuation = (string, nat) -> Value

  ghost function ArgOf(p: Prompt, input: Input, val: Valuation): Arg {
    match input
    case Lit(l) => Const(l)
    case Link(src, slot) => if src in p.nodes then Val(val(src, slot)) else Missing
  }

  ghost function ArgsOf(p: Prompt, n: Node, val: Valuation): map<InputName, Arg> {
    map name | name in n.inputs :: ArgOf(p, n.inputs[name], val)
  }

  /** The value on one output slot of a node, given its evaluated inputs. */
  ghost function NodeOut(I: Interp, n: Node, args: map<InputName, Arg>, env: Env, slot: nat): Value
    decreases n, 1
  {
    if n.kind == WorkflowInput then ReadBoundary(I, n, args, env, slot)
    else if IsExecutor(n.kind) then RunRemote(I, n, args, slot)
    else I.op(n.kind, args, slot)
  }

  ghost function ReadBoundary(I: Interp, n: Node, args: map<InputName, Arg>, env: Env, slot: nat): Value {
    match PortsOf(n.LiteralAt(PortsJson))
    case Some(ports) =>
      if slot < |ports| && ports[slot].name in env then env[ports[slot].name] else I.op(n.kind, args, slot)
    case None => I.op(n.kind, args, slot)
  }

  /** The request a wrapper sends: port i carries its input `value_i`. */
  ghost function RequestValues(ins: seq<Port>, args: map<InputName, Arg>): Env
    requires DistinctNames(ins)
  {
    map i: nat | i < |ins| && InputName.Value(i) in args && args[InputName.Value(i)].Val? ::
      ins[i].name := args[InputName.Value(i)].value
  }

  /** Whether a wrapper node passes the executor's checks and its workflow can be scheduled. */
  ghost predicate CanRun(n: Node) {
    var lit := n.LiteralAt(RemoteWorkflowJson);
    && lit.Workflow?
    && ExecutorAccepts(lit.prompt, n.LiteralAt(InputPortsJson), n.LiteralAt(OutputPortsJson))
    && Acyclic(lit.prompt)
  }

  /** Runs a wrapper's workflow and returns the value its output boundary emits for port `slot`. */
  ghost function RunRemote(I: Interp, n: Node, args: map<InputName, Arg>, slot: nat): Value
    decreases n, 0
  {
    if CanRun(n) && slot < |PortsOf(n.LiteralAt(OutputPortsJson)).value| then
      var w := n.LiteralAt(RemoteWorkflowJson).prompt;
      var ins := PortsOf(n.LiteralAt(InputPortsJson)).value;
      var outs := PortsOf(n.LiteralAt(OutputPortsJson)).value;
      assert w < n;
      Emitted(I, w, RequestValues(ins, args), outs[slot].name)
    else I.op(n.kind, args, slot)
  }

  /** The value a workflow's output boundary emits under a port name. */
  ghost function Emitted(I: Interp, w: Prompt, env: Env, name: string): Value
    requires Acyclic(w)
    decreases w
  {
    var source := EmitSource(w, name);
    match source
    case Some(Link(src, slot)) =>
      if src in w.nodes then
        Eval(I, w, env, SomeRank(w), src, slot)
      else I.op(Class("none"), map[], 0)
    case Some(Lit(l)) => I.op(Class("literal"), map[Name("value") := Const(l)], 0)
    case None => I.op(Class("none"), map[], 0)
  }

  /** The input of the workflow's output boundary that feeds the port of that name. */
  ghost function EmitSource(w: Prompt, name: string): Option<Input> {
    var ids := OfKind(w, w.order, WorkflowOutput);
    OfKindMembers(w, w.order, WorkflowOutput);
    if ids == [] then None
    else
      match PortsOf(w.nodes[ids[0]].LiteralAt(PortsJson))
      case None => None
      case Some(ports) =>
        if i: nat :| i < |ports| && ports[i].name == name then
          if InputName.Value(i) in w.nodes[ids[0]].inputs then Some(w.nodes[ids[0]].inputs[InputName.Value(i)])
            else None
        else None
  }

  /** Evaluation along a rank: sources before consumers. */
  ghost function Eval(I: Interp, p: Prompt, env: Env, rank: map<string, nat>, id: string, slot: nat): Value
    requires Ranked(p, rank) && id in p.nodes
    decreases p, rank[id]
  {
    var n := p.nodes[id];
    var args := map name | name in n.inputs ::
      match n.inputs[name]
      case Lit(l) => Const(l)
      case Link(src, k) =>
        if src in p.nodes then
          assert HasLink(p, id, name, src, k);
          Val(Eval(I, p, env, rank, src, k))
        else Missing;
    NodeOut(I, n, args, env, slot)
  }

  /** Every node has the value its inputs give it. */
  ghost predicate Solves(I: Interp, p: Prompt, env: Env, val: Valuation) {
    forall id, slot :: id in p.nodes ==>
      val(id, slot) == NodeOut(I, p.nodes[id], ArgsOf(p, p.nodes[id], val), env, slot)
  }

  /** An acyclic prompt has one solution, and evaluation finds it. */
  lemma {:induction false} EvalIsTheSolution(I: Interp, p: Prompt, env: Env, rank: map<string, nat>, val: Valuation,
                                             id: string, slot: nat)
    requires Ranked(p, rank) && Solves(I, p, env, val) && id in p.nodes
    ensures Eval(I, p, env, rank, id, slot) == val(id, slot)
    decreases rank[id]
  {
    var n := p.nodes[id];
    forall name, src, k | name in n.inputs && n.inputs[name] == Link(src, k) && src in p.nodes
      ensures Eval(I, p, env, rank, src, k) == val(src, k)
    {
      assert HasLink(p, id, name, src, k);
      EvalIsTheSolution(I, p, env, rank, val, src, k);
    }
    var args := map name | name in n.inputs ::
      match n.inputs[name]
      case Lit(l) => Const(l)
      case Link(src, k) =>
        if src in p.nodes then
          assert HasLink(p, id, name, src, k);
          Val(Eval(I, p, env, rank, src, k))
        else Missing;
    assert args == ArgsOf(p, n, val);
  }

  ghost function SomeRank(p: Prompt): (rank: map<string, nat>)
    requires Acyclic(p)
    ensures Ranked(p, rank)
  {
    var rank :| Ranked(p, rank);
    rank
  }

  /** The value of a node of an acyclic prompt. */
  ghost function ValueOf(I: Interp, p: Prompt, env: Env, id: string, slot: nat): Value
    requires Acyclic(p) && id in p.nodes
  {
    Eval(I, p, env, SomeRank(p), id, slot)
  }

  ghost function Valued(I: Interp, p: Prompt, env: Env): Valuation
    requires Acyclic(p)
  {
    (id: string, slot: nat) => if id in p.nodes then ValueOf(I, p, env, id, slot) else I.op(Class("none"), map[], 0)
  }

  lemma ValuedSolves(I: Interp, p: Prompt, env: Env)
    requires Acyclic(p)
    ensures Solves(I, p, env, Valued(I, p, env))
  {
    var val := Valued(I, p, env);
    forall id, slot | id in p.nodes
      ensures val(id, slot) == NodeOut(I, p.nodes[id], ArgsOf(p, p.nodes[id], val), env, slot)
    {
      EvalUnfolds(I, p, env, id, slot);
    }
  }

  lemma EvalUnfolds(I: Interp, p: Prompt, env: Env, id: string, slot: nat)
    requires Acyclic(p) && id in p.nodes
    ensures ValueOf(I, p, env, id, slot)
            == NodeOut(I, p.nodes[id], ArgsOf(p, p.nodes[id], Valued(I, p, env)), env, slot)
  {
    var n, rank := p.nodes[id], SomeRank(p);
    var args := map name | name in n.inputs ::
      match n.inputs[name]
      case Lit(l) => Const(l)
      case Link(src, k) =>
        if src in p.nodes then
          assert HasLink(p, id, name, src, k);
          Val(Eval(I, p, env, rank, src, k))
        else Missing;
    assert Eval(I, p, env, rank, id, slot) == NodeOut(I, n, args, env, slot);
    assert args == ArgsOf(p, n, Valued(I, p, env));
  }

  lemma SolutionIsValue(I: Interp, p: Prompt, env: Env, val: Valuation, id: string, slot: nat)
    requires Acyclic(p) && Solves(I, p, env, val) && id in p.nodes
    ensures ValueOf(I, p, env, id, slot) == val(id, slot)
  {
    EvalIsTheSolution(I, p, env, SomeRank(p), val, id, slot);
  }
}
