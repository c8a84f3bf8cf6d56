/**
 * When the compiled prompt can be scheduled. Contract each group to one step that reads
 * everything its remote copies read from outside: the compiled prompt is acyclic exactly
 * when the prompt is acyclic after that contraction.
 */
module Scheduling {
  import opened Prompts
  import opened Editor
  import opened GroupCode
  import opened StepMeaning

  ghost predicate Grouped(gs: seq<Group>, id: string) {
    exists i :: 0 <= i < |gs| && id in gs[i].inside
  }

  /** The members of a group share its rank. */
  ghost predicate MembersShare(gs: seq<Group>, q: map<string, nat>, r: seq<nat>) {
    |r| == |gs| && forall i, id :: 0 <= i < |gs| && id in gs[i].inside ==> id in q && q[id] == r[i]
  }

  /** A node outside every group ranks above what it reads. */
  ghost predicate OutsideRises(p: Prompt, gs: seq<Group>, q: map<string, nat>)
    requires p.nodes.Keys <= q.Keys
  {
    forall id, name, src, slot :: HasLink(p, id, name, src, slot) && !Grouped(gs, id) ==> q[src] < q[id]
  }

  /** A group ranks above what its remote copies read from outside. */
  ghost predicate GroupRises(p: Prompt, g: Group, q: map<string, nat>, rank: nat)
    requires p.nodes.Keys <= q.Keys
  {
    forall id, name, src, slot ::
      id in g.Remote() && src !in g.Remote() && HasLink(p, id, name, src, slot) ==> q[src] < rank
  }

  /** `q` ranks the nodes and `r` the groups. */
  ghost predicate Contracts(p: Prompt, gs: seq<Group>, q: map<string, nat>, r: seq<nat>) {
    && p.nodes.Keys <= q.Keys
    && MembersShare(gs, q, r)
    && OutsideRises(p, gs, q)
    && forall i :: 0 <= i < |gs| ==> GroupRises(p, gs[i], q, r[i])
  }

  ghost predicate Contractible(p: Prompt, gs: seq<Group>) {
    exists q, r :: Contracts(p, gs, q, r)
  }

  /** Groups share no member, and no producer to relocate belongs to a group. */
  ghost predicate Apart(gs: seq<Group>) {
    && (forall i, j :: 0 <= i < j < |gs| ==> gs[i].inside !! gs[j].inside)
    && forall i, j :: 0 <= i < |gs| && 0 <= j < |gs| ==> gs[i].relocated !! gs[j].inside
  }

  lemma NothingGrouped(p: Prompt)
    ensures Contractible(p, []) <==> Acyclic(p)
  {
    if Contractible(p, []) {
      var q, r :| Contracts(p, [], q, r);
      assert Ranked(p, q);
    }
    if Acyclic(p) {
      var rank :| Ranked(p, rank);
      assert Contracts(p, [], rank, []);
    }
  }

  /** The nodes through which a group's values reach local consumers. */
  ghost predicate IsOutlet(u: Unit, id: string) { id == u.wrapper || u.IsDecoder(id) }

  // ---- links after compiling a group, and where they come from ----

  lemma SurvivingLink(proj: Projection, p: Prompt, u: Unit, c: Prompt, id: string, name: InputName, src: string,
                      slot: nat)
    returns (outlet: string, port: nat)
    requires Compiled(proj, p, u, c) && HasLink(p, id, name, src, slot) && id !in u.group.inside
    ensures src !in u.group.inside ==> HasLink(c, id, name, src, slot)
    ensures src in u.group.inside ==> HasLink(c, id, name, outlet, port) && IsOutlet(u, outlet)
  {
    SurvivorNode(proj, p, u, c, id);
    GeneratedInRemainder(proj, p, u, c);
    RemainderKinds(proj, p, u, c, src);
    hide Compiled, PrepareNode, WrapperNode;
    assert OutwardInput(p, u, p.nodes[id].inputs[name], c.nodes[id].inputs[name]);
    outlet, port := src, slot;
    if src in u.group.inside {
      var i :| 0 <= i < |u.outbound| && c.nodes[id].inputs[name] == u.LocalSource(i);
      outlet, port := u.LocalSource(i).src, u.LocalSource(i).slot;
      assert u.outbound[i].Adapted() ==> u.IsDecoder(u.outbound[i].decode);
    }
  }

  lemma DecoderIndex(u: Unit, id: string) returns (i: nat)
    requires u.IsDecoder(id)
    ensures i < |u.outbound| && u.outbound[i].Adapted() && u.outbound[i].decode == id
  {
    i :| 0 <= i < |u.outbound| && u.outbound[i].Adapted() && u.outbound[i].decode == id;
  }

  lemma DecodeNodeReads(port: OutPort, wrapper: string, i: nat)
    requires port.Adapted()
    ensures Blob in port.DecodeNode(wrapper, i).inputs && port.DecodeNode(wrapper, i).inputs[Blob] == Link(wrapper, i)
  {
  }

  lemma DecoderLink(proj: Projection, p: Prompt, u: Unit, c: Prompt, id: string) returns (port: nat)
    requires Compiled(proj, p, u, c) && u.IsDecoder(id)
    ensures HasLink(c, id, Blob, u.wrapper, port) && id !in p.nodes
  {
    port := DecoderIndex(u, id);
    GeneratedInRemainder(proj, p, u, c);
    DecodeNodeReads(u.outbound[port], u.wrapper, port);
    hide Compiled, PrepareNode, WrapperNode, Unit.IsDecoder, OutPort.DecodeNode, OutPort.Adapted;
  }

  lemma EnteringLink(proj: Projection, p: Prompt, u: Unit, c: Prompt, id: string, name: InputName, src: string,
                     slot: nat)
    returns (k: nat)
    requires Compiled(proj, p, u, c) && id in u.group.Remote() && src !in u.group.Remote()
             && HasLink(p, id, name, src, slot)
    ensures HasLink(c, u.wrapper, InputName.Value(k), src, slot)
  {
    GeneratedInRemainder(proj, p, u, c);
    WrapperNodeFacts(u);
    RemainderKinds(proj, p, u, c, src);
    assert InwardNode(proj, p, u.group, u.inbound, id, p.nodes[id], u.workflow.nodes[id]);
    hide Compiled, PrepareNode, WrapperNode;
    assert InwardInput(proj, p, u.group, u.inbound, id, name, p.nodes[id].inputs[name],
                       u.workflow.nodes[id].inputs[name]);
    k :| 0 <= k < |u.inbound| && u.inbound[k].src == src && u.inbound[k].slot == slot;
  }

  datatype Origin =
    | Unchanged
    | FromGroup(src: string, slot: nat)
    | Entering(id: string, name: InputName)
    | Preparing
    | Decoding

  /** Where a link of the compiled prompt comes from. */
  ghost predicate ComesFrom(p: Prompt, u: Unit, id: string, name: InputName, src: string, slot: nat, o: Origin) {
    match o
    case Unchanged => id !in u.group.inside && src !in u.group.inside && HasLink(p, id, name, src, slot)
    case FromGroup(s, k) =>
      id !in u.group.inside && s in u.group.inside && HasLink(p, id, name, s, k) && IsOutlet(u, src)
    case Entering(m, nm) =>
      id == u.wrapper && m in u.group.Remote() && src !in u.group.Remote() && HasLink(p, m, nm, src, slot)
    case Preparing => id == u.wrapper && src == u.prepare
    case Decoding => u.IsDecoder(id) && src == u.wrapper
  }

  lemma LinkOrigin(proj: Projection, p: Prompt, u: Unit, c: Prompt, id: string, name: InputName, src: string, slot: nat)
    returns (o: Origin)
    requires Compiled(proj, p, u, c) && NoCapture(p, u) && HasLink(c, id, name, src, slot)
    ensures ComesFrom(p, u, id, name, src, slot, o)
  {
    hide *;
    CompiledNode(proj, p, u, c, id, name, src, slot);
    if id in p.nodes && id !in u.group.inside {
      o := SurvivorOrigin(proj, p, u, c, id, name, src, slot);
    } else if id == u.wrapper {
      o := WrapperOrigin(proj, p, u, c, name, src, slot);
    } else {
      o := DecoderOrigin(proj, p, u, c, id, name, src, slot);
    }
  }

  lemma CompiledNode(proj: Projection, p: Prompt, u: Unit, c: Prompt, id: string, name: InputName, src: string,
                     slot: nat)
    requires Compiled(proj, p, u, c) && HasLink(c, id, name, src, slot)
    ensures (id in p.nodes && id !in u.group.inside) || u.IsDecoder(id) || id == u.wrapper
  {
    RemainderKinds(proj, p, u, c, id);
    GeneratedInRemainder(proj, p, u, c);
    PrepareNodeFacts(u);
    hide Compiled, PrepareNode, WrapperNode, Unit.IsDecoder, OutPort.DecodeNode, OutPort.Adapted;
  }

  lemma DecoderOrigin(proj: Projection, p: Prompt, u: Unit, c: Prompt, id: string, name: InputName, src: string,
                      slot: nat)
    returns (o: Origin)
    requires Compiled(proj, p, u, c) && HasLink(c, id, name, src, slot) && u.IsDecoder(id)
    ensures ComesFrom(p, u, id, name, src, slot, o)
  {
    DecoderReadsWrapper(proj, p, u, c, id, name, src, slot);
    o := Decoding;
  }

  lemma DecoderReadsWrapper(proj: Projection, p: Prompt, u: Unit, c: Prompt, id: string, name: InputName, src: string,
                            slot: nat)
    requires Compiled(proj, p, u, c) && HasLink(c, id, name, src, slot) && u.IsDecoder(id)
    ensures src == u.wrapper
  {
    hide Compiled, PrepareNode, WrapperNode, Unit.IsDecoder, OutPort.DecodeNode, OutPort.Adapted;
    var i := DecoderIndex(u, id);
    GeneratedInRemainder(proj, p, u, c);
    AdapterNodeFacts(u.outbound[i], u.wrapper, i);
  }

  lemma OutletOf(u: Unit, i: nat)
    requires i < |u.outbound|
    ensures IsOutlet(u, u.LocalSource(i).src)
  {
  }

  lemma SurvivorOrigin(proj: Projection, p: Prompt, u: Unit, c: Prompt, id: string, name: InputName, src: string,
                       slot: nat)
    returns (o: Origin)
    requires Compiled(proj, p, u, c) && NoCapture(p, u) && HasLink(c, id, name, src, slot)
    requires id in p.nodes && id !in u.group.inside
    ensures ComesFrom(p, u, id, name, src, slot, o)
  {
    hide Compiled, IsOutlet, Unit.LocalSource, Node.LiteralAt;
    SurvivorNode(proj, p, u, c, id);
    var was := p.nodes[id].inputs[name];
    assert OutwardInput(p, u, was, c.nodes[id].inputs[name]);
    SurvivorDangles(proj, p, u, c, id, name);
    assert !Dangles(p, id, name);
    if was.Link? && was.src in u.group.inside {
      var i :| 0 <= i < |u.outbound| && c.nodes[id].inputs[name] == u.LocalSource(i);
      OutletOf(u, i);
      assert HasLink(p, id, name, was.src, was.slot);
      o := FromGroup(was.src, was.slot);
    } else {
      o := Unchanged;
    }
  }

  lemma WrapperPort(u: Unit, name: InputName, src: string, slot: nat) returns (i: int)
    requires name in WrapperNode(u).inputs && WrapperNode(u).inputs[name] == Link(src, slot)
    ensures i < |u.inbound|
    ensures 0 <= i ==> u.inbound[i].src == src && u.inbound[i].slot == slot
    ensures i < 0 ==> src == u.prepare
  {
    WrapperNodeFacts(u);
    hide WrapperNode;
    if src == u.prepare && slot == 0 {
      i := -1;
    } else {
      i :| 0 <= i < |u.inbound| && u.inbound[i].src == src && u.inbound[i].slot == slot;
    }
  }

  lemma PortUser(proj: Projection, p: Prompt, g: Group, inbound: seq<InPort>, i: nat) returns (m: string, nm: InputName)
    requires GoodInPorts(proj, p, g, inbound) && i < |inbound|
    ensures m in g.Remote() && HasLink(p, m, nm, inbound[i].src, inbound[i].slot) && inbound[i].src !in g.Remote()
  {
    assert inbound[i].src in p.nodes;
    assert exists id, name :: id in g.Remote() && HasLink(p, id, name, inbound[i].src, inbound[i].slot);
    m, nm :| m in g.Remote() && HasLink(p, m, nm, inbound[i].src, inbound[i].slot);
  }

  lemma WrapperOrigin(proj: Projection, p: Prompt, u: Unit, c: Prompt, name: InputName, src: string, slot: nat)
    returns (o: Origin)
    requires Compiled(proj, p, u, c) && HasLink(c, u.wrapper, name, src, slot)
    ensures ComesFrom(p, u, u.wrapper, name, src, slot, o)
  {
    hide Compiled, WrapperNode, GoodInPorts, IsOutlet;
    WrapperIs(proj, p, u, c);
    var i := WrapperPort(u, name, src, slot);
    if i < 0 {
      o := Preparing;
    } else {
      var m, nm := PortUser(proj, p, u.group, u.inbound, i);
      o := Entering(m, nm);
    }
  }

  // ---- one step ----

  /** Ranks of the prompt before give ranks of the prompt after: the group's rank becomes three. */
  ghost function RanksAfter(u: Unit, c: Prompt, q: map<string, nat>, r0: nat): map<string, nat> {
    map id | id in q.Keys + c.nodes.Keys ::
      if id == u.prepare then 3 * r0
      else if id == u.wrapper then 3 * r0 + 1
      else if u.IsDecoder(id) then 3 * r0 + 2
      else if id in q then 3 * q[id] + 1
      else 0
  }

  ghost function Scaled(r: seq<nat>): (s: seq<nat>)
    ensures |s| == |r| && forall i :: 0 <= i < |r| ==> s[i] == 3 * r[i] + 1
  {
    seq(|r|, i requires 0 <= i < |r| => 3 * r[i] + 1)
  }

  ghost predicate InPrompt(p: Prompt, gs: seq<Group>) {
    forall i :: 0 <= i < |gs| ==> gs[i].Remote() <= p.nodes.Keys
  }

  lemma RankOfGenerated(proj: Projection, p: Prompt, u: Unit, c: Prompt, q: map<string, nat>, r0: nat)
    requires Compiled(proj, p, u, c)
    ensures forall id :: id in p.nodes && id !in u.group.inside && id in q ==>
              RanksAfter(u, c, q, r0)[id] == 3 * q[id] + 1
    ensures u.wrapper in c.nodes && RanksAfter(u, c, q, r0)[u.wrapper] == 3 * r0 + 1
    ensures u.prepare in c.nodes && RanksAfter(u, c, q, r0)[u.prepare] == 3 * r0
    ensures forall id :: u.IsDecoder(id) ==> id in c.nodes && RanksAfter(u, c, q, r0)[id] == 3 * r0 + 2
  {
    hide Compiled, WrapperNode, PrepareNode, Unit.IsDecoder, OutPort.DecodeNode, OutPort.Adapted;
    GeneratedInRemainder(proj, p, u, c);
    forall id ensures u.IsDecoder(id) ==> id in c.nodes { RemainderKinds(proj, p, u, c, id); }
  }

  /** What an ungrouped reader of the compiled prompt is ranked above. */
  lemma LinkRises(proj: Projection, p: Prompt, u: Unit, c: Prompt, gs: seq<Group>, q: map<string, nat>, r: seq<nat>,
                  id: string, name: InputName, src: string, slot: nat)
    requires Compiled(proj, p, u, c) && NoCapture(p, u) && gs != [] && gs[0] == u.group && Contracts(p, gs, q, r)
    requires HasLink(c, id, name, src, slot) && (Grouped(gs, id) ==> id in u.group.inside)
    ensures {id, src} <= q.Keys + c.nodes.Keys && RanksAfter(u, c, q, r[0])[src] < RanksAfter(u, c, q, r[0])[id]
  {
    hide Compiled, NoCapture, RanksAfter, Unit.IsDecoder;
    var o := LinkOrigin(proj, p, u, c, id, name, src, slot);
    RankOfGenerated(proj, p, u, c, q, r[0]);
    CompiledNode(proj, p, u, c, id, name, src, slot);
    if o.FromGroup? { assert q[o.src] == r[0]; }
  }

  lemma GroupedLinkRises(proj: Projection, p: Prompt, u: Unit, c: Prompt, gs: seq<Group>, q: map<string, nat>,
                         r: seq<nat>, i: nat, id: string, name: InputName, src: string, slot: nat)
    requires Compiled(proj, p, u, c) && NoCapture(p, u) && gs != [] && gs[0] == u.group && Contracts(p, gs, q, r)
    requires Apart(gs) && InPrompt(p, gs) && 0 < i < |gs| && id in gs[i].Remote() && src !in gs[i].Remote()
    requires HasLink(c, id, name, src, slot)
    ensures src in q.Keys + c.nodes.Keys && RanksAfter(u, c, q, r[0])[src] < Scaled(r)[i]
  {
    hide Compiled, NoCapture, RanksAfter, Unit.IsDecoder;
    var o := LinkOrigin(proj, p, u, c, id, name, src, slot);
    RankOfGenerated(proj, p, u, c, q, r[0]);
    GeneratedIsNew(proj, p, u, c);
    assert id in p.nodes && id !in u.group.inside;
    if o.FromGroup? {
      assert o.src !in gs[i].Remote();
      assert q[o.src] == r[0];
    }
  }

  lemma GeneratedIsNew(proj: Projection, p: Prompt, u: Unit, c: Prompt)
    requires Compiled(proj, p, u, c)
    ensures u.wrapper !in p.nodes && forall id :: u.IsDecoder(id) ==> id !in p.nodes
  {
    hide IsWorkflow, IsRemainder, GoodInPorts, GoodOutPorts;
  }

  lemma GroupedTail(gs: seq<Group>, id: string)
    requires gs != []
    ensures Grouped(gs, id) <==> id in gs[0].inside || Grouped(gs[1..], id)
  {
    if Grouped(gs, id) {
      var k :| 0 <= k < |gs| && id in gs[k].inside;
      assert k > 0 ==> gs[k] == gs[1..][k - 1];
    }
    if Grouped(gs[1..], id) {
      var k :| 0 <= k < |gs[1..]| && id in gs[1..][k].inside;
      assert gs[1..][k] == gs[k + 1];
    }
  }

  lemma ContractsAfter(proj: Projection, p: Prompt, u: Unit, c: Prompt, gs: seq<Group>, q: map<string, nat>,
                       r: seq<nat>)
    requires Compiled(proj, p, u, c) && NoCapture(p, u) && gs != [] && gs[0] == u.group && Contracts(p, gs, q, r)
    requires Apart(gs) && InPrompt(p, gs)
    ensures Contracts(c, gs[1..], RanksAfter(u, c, q, r[0]), Scaled(r)[1..])
  {
    hide Compiled, NoCapture, Apart, InPrompt;
    var q', r' := RanksAfter(u, c, q, r[0]), Scaled(r)[1..];
    assert c.nodes.Keys <= q'.Keys;
    hide RanksAfter, OutsideRises, GroupRises;
    forall i, id | 0 <= i < |gs[1..]| && id in gs[1..][i].inside ensures id in q' && q'[id] == r'[i] {
      MembersShareAfter(proj, p, u, c, gs, q, r, i + 1, id);
    }
    OutsideRisesAfter(proj, p, u, c, gs, q, r);
    forall i | 0 <= i < |gs[1..]| ensures GroupRises(c, gs[1..][i], q', r'[i]) {
      GroupRisesAfter(proj, p, u, c, gs, q, r, i + 1);
    }
  }

  lemma OutsideRisesAfter(proj: Projection, p: Prompt, u: Unit, c: Prompt, gs: seq<Group>, q: map<string, nat>,
                          r: seq<nat>)
    requires Compiled(proj, p, u, c) && NoCapture(p, u) && gs != [] && gs[0] == u.group && Contracts(p, gs, q, r)
    requires Apart(gs) && InPrompt(p, gs)
    ensures c.nodes.Keys <= RanksAfter(u, c, q, r[0]).Keys && OutsideRises(c, gs[1..], RanksAfter(u, c, q, r[0]))
  {
    hide Compiled, NoCapture, Apart, InPrompt, Grouped, Contracts;
    ContractsHasRank(p, gs, q, r);
    var q' := RanksAfter(u, c, q, r[0]);
    assert c.nodes.Keys <= q'.Keys;
    hide RanksAfter;
    forall id, name, src, slot | HasLink(c, id, name, src, slot) && !Grouped(gs[1..], id) ensures q'[src] < q'[id] {
      GroupedTail(gs, id);
      LinkRises(proj, p, u, c, gs, q, r, id, name, src, slot);
    }
  }

  lemma GroupRisesAfter(proj: Projection, p: Prompt, u: Unit, c: Prompt, gs: seq<Group>, q: map<string, nat>,
                        r: seq<nat>, i: nat)
    requires Compiled(proj, p, u, c) && NoCapture(p, u) && gs != [] && gs[0] == u.group && Contracts(p, gs, q, r)
    requires Apart(gs) && InPrompt(p, gs) && 0 < i < |gs|
    ensures c.nodes.Keys <= RanksAfter(u, c, q, r[0]).Keys
            && GroupRises(c, gs[i], RanksAfter(u, c, q, r[0]), Scaled(r)[i])
  {
    hide Compiled, NoCapture, Apart, InPrompt, Grouped, Contracts;
    ContractsHasRank(p, gs, q, r);
    var q' := RanksAfter(u, c, q, r[0]);
    assert c.nodes.Keys <= q'.Keys;
    hide RanksAfter;
    forall id, name, src, slot | id in gs[i].Remote() && src !in gs[i].Remote() && HasLink(c, id, name, src, slot)
      ensures q'[src] < Scaled(r)[i]
    {
      GroupedLinkRises(proj, p, u, c, gs, q, r, i, id, name, src, slot);
    }
  }

  lemma MembersShareAfter(proj: Projection, p: Prompt, u: Unit, c: Prompt, gs: seq<Group>, q: map<string, nat>,
                          r: seq<nat>, i: nat, id: string)
    requires Compiled(proj, p, u, c) && gs != [] && gs[0] == u.group && Contracts(p, gs, q, r) && InPrompt(p, gs)
    requires Apart(gs) && 0 < i < |gs| && id in gs[i].inside
    ensures id in RanksAfter(u, c, q, r[0]) && RanksAfter(u, c, q, r[0])[id] == Scaled(r)[i]
  {
    hide Compiled, HasLink, Grouped, RanksAfter;
    RankOfGenerated(proj, p, u, c, q, r[0]);
    assert id in gs[i].Remote();
    RanksCover(u, c, q, r[0], id);
  }

  lemma RanksCover(u: Unit, c: Prompt, q: map<string, nat>, r0: nat, id: string)
    requires id in q
    ensures id in RanksAfter(u, c, q, r0)
  {
  }

  // ---- and back ----

  /** Ranks of the prompt after give ranks of the prompt before: a group ranks as its wrapper. */
  ghost function RanksBefore(p: Prompt, u: Unit, q: map<string, nat>): map<string, nat> {
    map id | id in p.nodes.Keys + q.Keys + u.group.inside ::
      if id in u.group.inside then if u.wrapper in q then q[u.wrapper] else 0
      else if id in q then q[id] else 0
  }

  lemma OutletIsAbove(proj: Projection, p: Prompt, u: Unit, c: Prompt, gs: seq<Group>, q: map<string, nat>, r: seq<nat>,
                      outlet: string)
    requires Compiled(proj, p, u, c) && Contracts(c, gs, q, r) && InPrompt(p, gs) && IsOutlet(u, outlet)
    ensures u.wrapper in c.nodes && outlet in c.nodes && q[u.wrapper] <= q[outlet]
  {
    hide Compiled, Unit.IsDecoder;
    WrapperIs(proj, p, u, c);
    if outlet != u.wrapper {
      var port := DecoderLink(proj, p, u, c, outlet);
      assert !Grouped(gs, outlet) by { UngroupedOutside(p, gs, outlet); }
    }
  }

  lemma UngroupedOutside(p: Prompt, gs: seq<Group>, id: string)
    requires InPrompt(p, gs) && id !in p.nodes
    ensures !Grouped(gs, id)
  {
  }

  lemma LinkRoseBefore(proj: Projection, p: Prompt, u: Unit, c: Prompt, gs: seq<Group>, q: map<string, nat>,
                       r: seq<nat>, id: string, name: InputName, src: string, slot: nat)
    requires Compiled(proj, p, u, c) && Contracts(c, gs, q, r) && InPrompt(p, gs)
    requires HasLink(p, id, name, src, slot) && id !in u.group.inside && !Grouped(gs, id)
    ensures RanksBefore(p, u, q)[src] < RanksBefore(p, u, q)[id]
  {
    hide Compiled, IsOutlet, Grouped;
    var outlet, port := SurvivingLink(proj, p, u, c, id, name, src, slot);
    if src in u.group.inside { OutletIsAbove(proj, p, u, c, gs, q, r, outlet); }
  }

  lemma GroupedLinkRoseBefore(proj: Projection, p: Prompt, u: Unit, c: Prompt, gs: seq<Group>, q: map<string, nat>,
                              r: seq<nat>, i: nat, id: string, name: InputName, src: string, slot: nat)
    requires Compiled(proj, p, u, c) && Contracts(c, gs, q, r) && InPrompt(p, gs)
    requires i < |gs| && id in gs[i].Remote() && src !in gs[i].Remote() && HasLink(p, id, name, src, slot)
    requires id !in u.group.inside
    ensures RanksBefore(p, u, q)[src] < r[i]
  {
    hide Compiled, IsOutlet, Grouped;
    var outlet, port := SurvivingLink(proj, p, u, c, id, name, src, slot);
    if src in u.group.inside {
      OutletIsAbove(proj, p, u, c, gs, q, r, outlet);
      OutletIsNew(proj, p, u, c, outlet);
      assert outlet !in gs[i].Remote();
    }
  }

  lemma OutletIsNew(proj: Projection, p: Prompt, u: Unit, c: Prompt, id: string)
    requires Compiled(proj, p, u, c) && IsOutlet(u, id)
    ensures id !in p.nodes
  {
    hide Compiled, Unit.IsDecoder;
    GeneratedIsNew(proj, p, u, c);
  }

  lemma EnteringRoseBefore(proj: Projection, p: Prompt, u: Unit, c: Prompt, gs: seq<Group>, q: map<string, nat>,
                           r: seq<nat>, id: string, name: InputName, src: string, slot: nat)
    requires Compiled(proj, p, u, c) && Contracts(c, gs, q, r) && InPrompt(p, gs)
    requires id in u.group.Remote() && src !in u.group.Remote() && HasLink(p, id, name, src, slot)
    ensures u.wrapper in q && RanksBefore(p, u, q)[src] < q[u.wrapper]
  {
    hide Compiled, Grouped;
    var k := EnteringLink(proj, p, u, c, id, name, src, slot);
    GeneratedIsNew(proj, p, u, c);
    UngroupedOutside(p, gs, u.wrapper);
  }

  lemma AnyGroupLinkRoseBefore(proj: Projection, p: Prompt, u: Unit, c: Prompt, gs: seq<Group>, q: map<string, nat>,
                               r: seq<nat>, i: nat, id: string, name: InputName, src: string, slot: nat)
    requires Compiled(proj, p, u, c) && gs != [] && gs[0] == u.group && Contracts(c, gs[1..], q, r)
    requires Apart(gs) && InPrompt(p, gs) && u.wrapper in q
    requires i < |gs| && id in gs[i].Remote() && src !in gs[i].Remote() && HasLink(p, id, name, src, slot)
    ensures |r| + 1 == |gs| && RanksBefore(p, u, q)[src] < ([q[u.wrapper]] + r)[i]
  {
    hide Compiled, HasLink, Grouped, RanksBefore;
    var rest := gs[1..];
    InPromptTail(p, gs);
    if i == 0 {
      EnteringRoseBefore(proj, p, u, c, rest, q, r, id, name, src, slot);
    } else {
      assert gs[i] == rest[i - 1] && id in rest[i - 1].Remote() && id !in u.group.inside;
      GroupedLinkRoseBefore(proj, p, u, c, rest, q, r, i - 1, id, name, src, slot);
    }
  }

  lemma InPromptTail(p: Prompt, gs: seq<Group>)
    requires InPrompt(p, gs) && gs != []
    ensures InPrompt(p, gs[1..])
  {
    forall i | 0 <= i < |gs[1..]| ensures gs[1..][i].Remote() <= p.nodes.Keys { assert gs[1..][i] == gs[i + 1]; }
  }

  lemma MembersShareBefore(p: Prompt, u: Unit, c: Prompt, gs: seq<Group>, q: map<string, nat>, r: seq<nat>, i: nat,
                           id: string)
    requires gs != [] && gs[0] == u.group && Contracts(c, gs[1..], q, r) && Apart(gs) && u.wrapper in q
    requires i < |gs| && id in gs[i].inside
    ensures id in RanksBefore(p, u, q) && RanksBefore(p, u, q)[id] == ([q[u.wrapper]] + r)[i]
  {
    hide HasLink, Grouped;
    if i > 0 { assert gs[i] == gs[1..][i - 1]; }
  }

  lemma ContractsBefore(proj: Projection, p: Prompt, u: Unit, c: Prompt, gs: seq<Group>, q: map<string, nat>,
                        r: seq<nat>)
    requires Compiled(proj, p, u, c) && gs != [] && gs[0] == u.group && Contracts(c, gs[1..], q, r)
    requires Apart(gs) && InPrompt(p, gs)
    ensures u.wrapper in q && Contracts(p, gs, RanksBefore(p, u, q), [q[u.wrapper]] + r)
  {
    hide Compiled, Apart, InPrompt;
    WrapperIs(proj, p, u, c);
    InPromptTail(p, gs);
    var q', r' := RanksBefore(p, u, q), [q[u.wrapper]] + r;
    assert p.nodes.Keys <= q'.Keys;
    hide RanksBefore, OutsideRises, GroupRises;
    forall i, id | 0 <= i < |gs| && id in gs[i].inside ensures id in q' && q'[id] == r'[i] {
      MembersShareBefore(p, u, c, gs, q, r, i, id);
    }
    OutsideRoseBefore(proj, p, u, c, gs, q, r);
    forall i | 0 <= i < |gs| ensures GroupRises(p, gs[i], q', r'[i]) {
      GroupRoseBefore(proj, p, u, c, gs, q, r, i);
    }
  }

  lemma OutsideRoseBefore(proj: Projection, p: Prompt, u: Unit, c: Prompt, gs: seq<Group>, q: map<string, nat>,
                          r: seq<nat>)
    requires Compiled(proj, p, u, c) && gs != [] && gs[0] == u.group && Contracts(c, gs[1..], q, r)
    requires Apart(gs) && InPrompt(p, gs)
    ensures p.nodes.Keys <= RanksBefore(p, u, q).Keys && OutsideRises(p, gs, RanksBefore(p, u, q))
  {
    hide Compiled, Apart, InPrompt, Grouped, Contracts;
    InPromptTail(p, gs);
    var q' := RanksBefore(p, u, q);
    assert p.nodes.Keys <= q'.Keys;
    hide RanksBefore;
    forall id, name, src, slot | HasLink(p, id, name, src, slot) && !Grouped(gs, id) ensures q'[src] < q'[id] {
      GroupedTail(gs, id);
      LinkRoseBefore(proj, p, u, c, gs[1..], q, r, id, name, src, slot);
    }
  }

  lemma GroupRoseBefore(proj: Projection, p: Prompt, u: Unit, c: Prompt, gs: seq<Group>, q: map<string, nat>,
                        r: seq<nat>, i: nat)
    requires Compiled(proj, p, u, c) && gs != [] && gs[0] == u.group && Contracts(c, gs[1..], q, r)
    requires Apart(gs) && InPrompt(p, gs) && u.wrapper in q && i < |gs|
    ensures |r| + 1 == |gs| && p.nodes.Keys <= RanksBefore(p, u, q).Keys
    ensures GroupRises(p, gs[i], RanksBefore(p, u, q), ([q[u.wrapper]] + r)[i])
  {
    hide Compiled, Apart, InPrompt, Grouped, Contracts;
    ContractsHasRank(c, gs[1..], q, r);
    var q' := RanksBefore(p, u, q);
    assert p.nodes.Keys <= q'.Keys;
    hide RanksBefore;
    forall id, name, src, slot | id in gs[i].Remote() && src !in gs[i].Remote() && HasLink(p, id, name, src, slot)
      ensures q'[src] < ([q[u.wrapper]] + r)[i]
    {
      AnyGroupLinkRoseBefore(proj, p, u, c, gs, q, r, i, id, name, src, slot);
    }
  }

  /** Compiling the first group keeps the contracted prompt schedulable, and makes it no more so. */
  lemma ContractStep(proj: Projection, p: Prompt, u: Unit, c: Prompt, gs: seq<Group>)
    requires Compiled(proj, p, u, c) && NoCapture(p, u) && gs != [] && gs[0] == u.group && Apart(gs) && InPrompt(p, gs)
    ensures Contractible(p, gs) <==> Contractible(c, gs[1..])
  {
    hide Compiled, NoCapture, Contracts, Apart, InPrompt;
    if Contractible(p, gs) {
      var q, r :| Contracts(p, gs, q, r);
      ContractsHasRank(p, gs, q, r);
      ContractsAfter(proj, p, u, c, gs, q, r);
    }
    if Contractible(c, gs[1..]) {
      var q, r :| Contracts(c, gs[1..], q, r);
      ContractsBefore(proj, p, u, c, gs, q, r);
    }
  }

  lemma ContractsHasRank(p: Prompt, gs: seq<Group>, q: map<string, nat>, r: seq<nat>)
    requires Contracts(p, gs, q, r)
    ensures |r| == |gs|
  {
  }
}
