/** ComfyUI API prompts: dataflow graphs whose node inputs are literals or links. */
module Prompts {

  /** A declared boundary port, `{"name": ..., "type": ...}`. */
  datatype Port = Port(name: string, ptype: string)

  /**
   * Literal input values. A port list or a whole workflow that is passed as JSON text
   * is kept as the value that the text denotes.
   */
  datatype Literal = Text(text: string) | Ports(ports: seq<Port>) | Workflow(prompt: Prompt)

  /** An input value: a literal, or the link-shaped pair `[source id, slot]`. */
  datatype Input = Lit(lit: Literal) | Link(src: string, slot: nat)

  /**
   * Node classes. The ones that carry the remote-group machinery are told apart by
   * constructor; every other class type is an uninterpreted name.
   */
  datatype Kind =
    | WorkflowInput                      // CutleryWorkflowInput
    | WorkflowOutput                     // CutleryWorkflowOutput
    | GroupExecutor                      // CutleryRemoteGroupExecutor
    | GroupValueExecutor                 // CutleryRemoteGroupValueExecutor
    | GroupPreparation                   // CutleryRemoteGroupPreparation
    | ModelPreload                       // CutleryRemoteModelPreload
    | ToBlob(ptype: string)              // WF3MaskToBlob, WF3LatentToBlob, WF3ConditioningToBlob
    | FromBlob(ptype: string)            // WF3MaskFromBlob, WF3LatentFromBlob, WF3ConditioningFromBlob
    | Class(name: string)

  /** Input names; `Value(i)` is `value_{i+1}`, and `Name` is any name not listed. */
  datatype InputName =
    | Value(index: nat)
    | PortsJson | RemoteWorkflowJson | InputPortsJson | OutputPortsJson | PreloadWorkflowJson
    | RemoteBaseUrl | TimeoutSeconds | CachePolicy | Preparation
    | Blob | Device | Compress
    | Name(text: string)

  datatype Node = Node(kind: Kind, inputs: map<InputName, Input>) {

    /** The literal given for an input, if there is one. */
    function LiteralAt(name: InputName): (lit: Literal)
      ensures name in inputs && inputs[name].Lit? ==> lit == inputs[name].lit && lit < this
      ensures !(name in inputs && inputs[name].Lit?) ==> lit == Text("")
    {
      if name in inputs && inputs[name].Lit? then inputs[name].lit else Text("")
    }
  }

  /** An insertion-ordered dictionary from node id to node. */
  datatype Prompt = Prompt(order: seq<string>, nodes: map<string, Node>) {

    ghost predicate Valid() {
      && (forall i, j :: 0 <= i < j < |order| ==> order[i] != order[j])
      && forall id :: id in order <==> id in nodes
    }

    /** `prompt[id] = node` on a dictionary. */
    function Put(id: string, node: Node): (p: Prompt)
      requires Valid()
      ensures p.Valid()
      ensures p.nodes == nodes[id := node]
      ensures p.order == if id in nodes then order else order + [id]
    {
      Prompt(if id in nodes then order else order + [id], nodes[id := node])
    }

    /** `prompt.pop(id, None)`. */
    function Remove(id: string): (p: Prompt)
      requires Valid()
      ensures p.Valid()
      ensures p.nodes == nodes - {id}
    {
      if id !in nodes then
        assert nodes - {id} == nodes;
        this
      else
        var i: nat :| i < |order| && order[i] == id;
        UniqueIndex(id);
        Prompt(order[..i] + order[i + 1..], nodes - {id})
    }

    lemma UniqueIndex(id: string)
      requires Valid()
      ensures forall i, j :: 0 <= i < |order| && 0 <= j < |order| && order[i] == id && order[j] == id ==> i == j
    {
    }
  }

  /** New nodes put into a prompt one after another. */
  ghost predicate IsExtension(p: Prompt, ids: seq<string>, nodes: seq<Node>, w: Prompt) {
    && |ids| == |nodes| && w.Valid() && w.order == p.order + ids
    && (forall id :: id in w.nodes <==> id in p.nodes || id in ids)
    && (forall id :: id in p.nodes ==> id in w.nodes && w.nodes[id] == p.nodes[id])
    && forall i :: 0 <= i < |ids| ==> ids[i] in w.nodes && w.nodes[ids[i]] == nodes[i]
  }

  lemma ExtendByOne(p: Prompt, ids: seq<string>, nodes: seq<Node>, w: Prompt, id: string, node: Node)
    requires IsExtension(p, ids, nodes, w) && id !in p.nodes && id !in ids
    ensures IsExtension(p, ids + [id], nodes + [node], w.Put(id, node))
  {
    var ids', nodes', w' := ids + [id], nodes + [node], w.Put(id, node);
    assert w'.order == p.order + ids';
    forall i | 0 <= i < |ids'| ensures ids'[i] in w'.nodes && w'.nodes[ids'[i]] == nodes'[i] {
      if i < |ids| { assert ids'[i] == ids[i] && ids[i] in ids && nodes'[i] == nodes[i]; }
    }
  }

  method PutAll(p: Prompt, ids: seq<string>, nodes: seq<Node>) returns (w: Prompt)
    requires p.Valid() && |ids| == |nodes|
    requires forall i, j :: 0 <= i < j < |ids| ==> ids[i] != ids[j]
    requires forall id <- ids :: id !in p.nodes
    ensures IsExtension(p, ids, nodes, w)
  {
    w := p;
    assert p.order + [] == p.order;
    for i := 0 to |ids|
      invariant IsExtension(p, ids[..i], nodes[..i], w)
    {
      hide IsExtension;
      assert ids[..i + 1] == ids[..i] + [ids[i]] && nodes[..i + 1] == nodes[..i] + [nodes[i]];
      ExtendByOne(p, ids[..i], nodes[..i], w, ids[i], nodes[i]);
      w := w.Put(ids[i], nodes[i]);
    }
    assert ids[..|ids|] == ids && nodes[..|nodes|] == nodes;
  }

  /** `s` lists the elements of `of`, each exactly once. */
  ghost predicate Enumerates<T(!new)>(s: seq<T>, of: set<T>) {
    && (forall i, j :: 0 <= i < j < |s| ==> s[i] != s[j])
    && forall x :: x in s <==> x in of
  }

  /** Lists a set; Python's `sorted` or a dictionary's own order fixes one such list. */
  method Enumerate<T(==, !new)>(names: set<T>) returns (s: seq<T>)
    ensures Enumerates(s, names)
  {
    s := [];
    var left := names;
    while left != {}
      invariant left <= names
      invariant Enumerates(s, names - left)
    {
      var x :| x in left;
      s := s + [x];
      left := left - {x};
    }
  }

  /** Input `name` of node `id` is a link to an existing node. */
  ghost predicate HasLink(p: Prompt, id: string, name: InputName, src: string, slot: nat) {
    id in p.nodes && name in p.nodes[id].inputs && p.nodes[id].inputs[name] == Link(src, slot) && src in p.nodes
  }

  /** Input `name` of node `id` is a link to a node that does not exist. */
  ghost predicate Dangles(p: Prompt, id: string, name: InputName) {
    id in p.nodes && name in p.nodes[id].inputs && p.nodes[id].inputs[name].Link?
      && p.nodes[id].inputs[name].src !in p.nodes
  }

  /** No link dangles. */
  ghost predicate LinkClosed(p: Prompt) {
    forall id, name :: id in p.nodes && name in p.nodes[id].inputs && p.nodes[id].inputs[name].Link?
                       ==> p.nodes[id].inputs[name].src in p.nodes
  }

  lemma NothingDangles(p: Prompt)
    ensures LinkClosed(p) <==> forall id, name :: !Dangles(p, id, name)
  {
    if !LinkClosed(p) {
      var id, name :| id in p.nodes && name in p.nodes[id].inputs && p.nodes[id].inputs[name].Link?
        && p.nodes[id].inputs[name].src !in p.nodes;
      assert Dangles(p, id, name);
    }
    if LinkClosed(p) {
      forall id, name ensures !Dangles(p, id, name) { }
    }
  }

  /** Every link inside `among` goes from a lower to a higher rank. */
  ghost predicate RankedOn(p: Prompt, among: set<string>, rank: map<string, nat>) {
    && among <= rank.Keys
    && forall id, name, src, slot ::
         id in among && src in among && HasLink(p, id, name, src, slot) ==> rank[src] < rank[id]
  }

  ghost predicate Ranked(p: Prompt, rank: map<string, nat>) {
    RankedOn(p, p.nodes.Keys, rank)
  }

  ghost predicate Acyclic(p: Prompt) {
    exists rank :: Ranked(p, rank)
  }

  ghost function RankBound(rank: map<string, nat>): (b: nat)
    ensures forall id <- rank :: rank[id] < b
  {
    if rank == map[] then 0
    else
      var id :| id in rank;
      var rest := RankBound(rank - {id});
      assert forall k <- rank :: k == id || k in rank - {id};
      if rest <= rank[id] then rank[id] + 1 else rest
  }
}
