/** What the compiler reads from the editor's workflow: socket types and node definitions. */
module Editor {
  import opened Wrappers
  import opened Prompts
  import opened BoundaryTypes

  /** A drawn node: the types of its output sockets, and its input sockets by name. */
  datatype EditorNode = EditorNode(outputs: seq<string>, inputs: seq<(InputName, string)>)

  datatype EditorLink = EditorLink(src: string, srcSlot: int, dst: string, dstSlot: int, socketType: string)

  datatype Projection = Projection(nodes: map<string, EditorNode>, links: seq<EditorLink>)

  predicate Informative(t: string) { Strip(t) != "" && Strip(t) != "*" }

  /** The first informative type declared for an input socket of that name. */
  function DeclaredInputType(inputs: seq<(InputName, string)>, name: InputName): Option<string> {
    if inputs == [] then None
    else if inputs[0].0 == name && Informative(inputs[0].1) then Some(Strip(inputs[0].1))
    else DeclaredInputType(inputs[1..], name)
  }

  function DrawnLinkType(links: seq<EditorLink>, src: string, slot: nat, dst: string): string {
    if links == [] then ""
    else if links[0].src == src && links[0].srcSlot == slot && links[0].dst == dst then links[0].socketType
    else DrawnLinkType(links[1..], src, slot, dst)
  }

  /** The source socket decides; failing that the target socket, then the drawn link. */
  function SocketType(proj: Projection, src: string, slot: nat, dst: string, name: InputName): string {
    if src in proj.nodes && slot < |proj.nodes[src].outputs| && Informative(proj.nodes[src].outputs[slot]) then
      Strip(proj.nodes[src].outputs[slot])
    else
      var declared := if dst in proj.nodes then DeclaredInputType(proj.nodes[dst].inputs, name) else None;
      if declared.Some? then declared.value else DrawnLinkType(proj.links, src, slot, dst)
  }

  /** A socket type says something unless it is blank or the wildcard. */
  lemma InformativeExactly(before: string, middle: string, after: string)
    requires AllSpace(before) && Trimmed(middle) && AllSpace(after)
    ensures Informative(before + middle + after) <==> middle != "" && middle != "*"
  {
    StripIsMiddle(before, middle, after);
  }

  /** The declaration at `i` is the first informative one for an input socket of that name. */
  ghost predicate FirstDeclared(inputs: seq<(InputName, string)>, name: InputName, i: nat) {
    && i < |inputs| && inputs[i].0 == name && Informative(inputs[i].1)
    && forall k :: 0 <= k < i && inputs[k].0 == name ==> !Informative(inputs[k].1)
  }

  /** The link at `i` is the first one drawn from that slot to that node. */
  ghost predicate FirstDrawn(links: seq<EditorLink>, src: string, slot: nat, dst: string, i: nat) {
    && i < |links| && (links[i].src, links[i].srcSlot, links[i].dst) == (src, slot, dst)
    && forall k :: 0 <= k < i ==> (links[k].src, links[k].srcSlot, links[k].dst) != (src, slot, dst)
  }

  lemma {:induction false} DeclaredIsFirst(inputs: seq<(InputName, string)>, name: InputName, i: nat)
    requires FirstDeclared(inputs, name, i)
    ensures DeclaredInputType(inputs, name) == Some(Strip(inputs[i].1))
  {
    hide Informative;
    if i > 0 { DeclaredIsFirst(inputs[1..], name, i - 1); }
  }

  lemma {:induction false} NothingDeclared(inputs: seq<(InputName, string)>, name: InputName)
    requires forall k :: 0 <= k < |inputs| && inputs[k].0 == name ==> !Informative(inputs[k].1)
    ensures DeclaredInputType(inputs, name) == None
  {
    hide Informative;
    if inputs != [] { NothingDeclared(inputs[1..], name); }
  }

  lemma {:induction false} DrawnIsFirst(links: seq<EditorLink>, src: string, slot: nat, dst: string, i: nat)
    requires FirstDrawn(links, src, slot, dst, i)
    ensures DrawnLinkType(links, src, slot, dst) == links[i].socketType
  {
    if i > 0 { DrawnIsFirst(links[1..], src, slot, dst, i - 1); }
  }

  /** What the source socket declares. */
  function OutputType(proj: Projection, src: string, slot: nat): string {
    if src in proj.nodes && slot < |proj.nodes[src].outputs| then proj.nodes[src].outputs[slot] else ""
  }

  /** The source decides; if it says nothing, the target's first declaration that does; failing that, the first link. */
  lemma SocketTypeDecided(proj: Projection, src: string, slot: nat, dst: string, name: InputName)
    ensures var output := OutputType(proj, src, slot);
            var inputs := if dst in proj.nodes then proj.nodes[dst].inputs else [];
            var t := SocketType(proj, src, slot, dst, name);
            && (Informative(output) ==> t == Strip(output))
            && (!Informative(output) ==>
                  && (forall i: nat :: FirstDeclared(inputs, name, i) ==> t == Strip(inputs[i].1))
                  && ((forall k :: 0 <= k < |inputs| && inputs[k].0 == name ==> !Informative(inputs[k].1)) ==>
                        forall i: nat :: FirstDrawn(proj.links, src, slot, dst, i) ==> t == proj.links[i].socketType))
  {
    BlankExactly("");
    var inputs := if dst in proj.nodes then proj.nodes[dst].inputs else [];
    assert !Informative("");
    hide Informative, FirstDeclared, FirstDrawn;
    forall i: nat | FirstDeclared(inputs, name, i) ensures DeclaredInputType(inputs, name) == Some(Strip(inputs[i].1)) {
      DeclaredIsFirst(inputs, name, i);
    }
    if forall k :: 0 <= k < |inputs| && inputs[k].0 == name ==> !Informative(inputs[k].1) {
      NothingDeclared(inputs, name);
    }
    forall i: nat | FirstDrawn(proj.links, src, slot, dst, i)
      ensures DrawnLinkType(proj.links, src, slot, dst) == proj.links[i].socketType
    {
      DrawnIsFirst(proj.links, src, slot, dst, i);
    }
    assert DeclaredInputType([], name) == None;
  }

  // ---- node definitions ----

  datatype Definition = Definition(ok: bool, outputNode: bool, notIdempotent: bool, inputNames: set<InputName>,
                                   signature: string, declaredInputsOnly: bool)

  /** Local and remote definitions of each class, for one target. */
  type Resolver = Option<map<Kind, (Definition, Definition)>>

  predicate HasDefinitions(resolver: Resolver, kind: Kind) {
    resolver.Some? && kind in resolver.value
  }

  /** The checks a producer must pass before it is duplicated on the remote machine. */
  predicate Relocatable(p: Prompt, id: string, resolver: Resolver) {
    && id in p.nodes
    && var node := p.nodes[id];
       var kind := node.kind;
       && !(kind.Class? && Strip(kind.name) == "")
       && HasDefinitions(resolver, kind)
       && var local, remote := resolver.value[kind].0, resolver.value[kind].1;
          && !local.outputNode && !remote.outputNode
          && !local.notIdempotent && !remote.notIdempotent
          && local.ok && remote.ok && local.signature == remote.signature
          && node.inputs.Keys <= local.inputNames
  }
}
