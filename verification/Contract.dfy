/** The executor's check of a remote workflow against the ports its wrapper declares. */
module Contract {
  import opened Wrappers
  import opened Ids
  import opened Prompts
  import opened BoundaryTypes

  const MAX_PORTS: nat := 64

  predicate IsLetter(c: char) { 'A' <= c <= 'Z' || 'a' <= c <= 'z' || c == '_' }

  predicate IsPortName(s: string) {
    0 < |s| <= 64 && IsLetter(s[0]) && forall c <- s :: IsLetter(c) || '0' <= c <= '9'
  }

  const CAPITALS: string := "ABCDEFGHIJKLMNOPQRSTUVWXYZ"
  const SMALL: string := "abcdefghijklmnopqrstuvwxyz"
  const LETTERS: string := CAPITALS + SMALL + "_"

  lemma CapitalsAre(c: char)
    ensures c in CAPITALS <==> 'A' <= c <= 'Z'
  {
    if 'A' <= c <= 'Z' { assert CAPITALS[c as int - 'A' as int] == c; }
  }

  lemma SmallAre(c: char)
    ensures c in SMALL <==> 'a' <= c <= 'z'
  {
    if 'a' <= c <= 'z' { assert SMALL[c as int - 'a' as int] == c; }
  }

  lemma DigitsAre(c: char)
    ensures c in DIGITS <==> '0' <= c <= '9'
  {
    if '0' <= c <= '9' { assert DIGITS[c as int - '0' as int] == c; }
  }

  lemma LettersAre(c: char)
    ensures (c in LETTERS <==> IsLetter(c)) && (c in DIGITS <==> '0' <= c <= '9')
  {
    hide CAPITALS, SMALL, DIGITS;
    CapitalsAre(c);
    SmallAre(c);
    DigitsAre(c);
  }

  ghost predicate NameParts(first: char, rest: string) {
    first in LETTERS && |rest| <= 63 && forall c <- rest :: c in LETTERS || c in DIGITS
  }

  /** A port name is a letter or underscore and up to 63 letters, underscores or digits after it. */
  lemma PortNameExactly(first: char, rest: string)
    ensures IsPortName([first] + rest) <==> NameParts(first, rest)
    ensures !IsPortName("")
  {
    hide LETTERS, CAPITALS, SMALL, DIGITS, IsLetter;
    forall c ensures (c in LETTERS <==> IsLetter(c)) && (c in DIGITS <==> '0' <= c <= '9') { LettersAre(c); }
    assert forall c <- [first] + rest :: c == first || c in rest;
    assert forall c <- rest :: c in [first] + rest;
  }

  // ---- one port list ----

  function CleanPort(p: Port): Port { Port(Strip(p.name), Normalize(p.ptype)) }

  predicate WellFormedPort(p: Port) {
    IsPortName(Strip(p.name)) && Strip(p.ptype) != "" && Normalize(p.ptype) in SUPPORTED
  }

  ghost predicate DistinctNames(ports: seq<Port>) {
    forall i, j :: 0 <= i < j < |ports| ==> ports[i].name != ports[j].name
  }

  function CleanPorts(ports: seq<Port>): (r: seq<Port>)
    ensures |r| == |ports| && forall i :: 0 <= i < |r| ==> r[i] == CleanPort(ports[i])
  {
    seq(|ports|, i requires 0 <= i < |ports| => CleanPort(ports[i]))
  }

  ghost predicate WellFormedPorts(ports: seq<Port>) {
    |ports| <= MAX_PORTS && (forall p <- ports :: WellFormedPort(p)) && DistinctNames(CleanPorts(ports))
  }

  /** What a literal denotes as a port list; anything that is not one is an error. */
  ghost function PortsOf(lit: Literal): Option<seq<Port>> {
    if lit.Ports? && WellFormedPorts(lit.ports) then Some(CleanPorts(lit.ports)) else None
  }

  method ParsePorts(lit: Literal) returns (r: Option<seq<Port>>)
    ensures r == PortsOf(lit)
  {
    hide WellFormedPort, CleanPort;
    if !lit.Ports? || |lit.ports| > MAX_PORTS { return None; }
    var ports: seq<Port> := [];
    var seen: set<string> := {};
    for i := 0 to |lit.ports|
      invariant ports == CleanPorts(lit.ports[..i])
      invariant forall k :: 0 <= k < i ==> WellFormedPort(lit.ports[k])
      invariant DistinctNames(ports)
      invariant forall s :: s in seen <==> exists k :: 0 <= k < i && ports[k].name == s
    {
      if !WellFormedPort(lit.ports[i]) {
        assert lit.ports[i] in lit.ports;
        return None;
      }
      var port := CleanPort(lit.ports[i]);
      if port.name in seen {
        var k :| 0 <= k < i && ports[k].name == port.name;
        assert CleanPorts(lit.ports)[k].name == CleanPorts(lit.ports)[i].name;
        return None;
      }
      ports := ports + [port];
      seen := seen + {port.name};
    }
    assert lit.ports[..|lit.ports|] == lit.ports;
    r := Some(ports);
  }

  // ---- the ports a workflow's boundary nodes declare ----

  /** The nodes of one kind among `ids`, in order. */
  function OfKind(w: Prompt, ids: seq<string>, kind: Kind): seq<string> {
    if ids == [] then []
    else if ids[0] in w.nodes && w.nodes[ids[0]].kind == kind then [ids[0]] + OfKind(w, ids[1..], kind)
    else OfKind(w, ids[1..], kind)
  }

  lemma {:induction false} OfKindAppend(w: Prompt, a: seq<string>, b: seq<string>, kind: Kind)
    ensures OfKind(w, a + b, kind) == OfKind(w, a, kind) + OfKind(w, b, kind)
  {
    if a == [] {
      assert a + b == b;
    } else {
      assert (a + b)[0] == a[0] && (a + b)[1..] == a[1..] + b;
      OfKindAppend(w, a[1..], b, kind);
    }
  }

  lemma {:induction false} OfKindMembers(w: Prompt, ids: seq<string>, kind: Kind)
    ensures forall id :: id in OfKind(w, ids, kind) <==> id in ids && id in w.nodes && w.nodes[id].kind == kind
    ensures (forall id <- ids :: id in w.nodes && w.nodes[id].kind == kind) ==> OfKind(w, ids, kind) == ids
    ensures (forall id <- ids :: id in w.nodes ==> w.nodes[id].kind != kind) ==> OfKind(w, ids, kind) == []
  {
    if ids != [] {
      assert ids == [ids[0]] + ids[1..];
      OfKindMembers(w, ids[1..], kind);
    }
  }

  /** The port lists of boundary nodes one after another; an unreadable list is an error. */
  ghost function Declared(w: Prompt, ids: seq<string>): Option<seq<Port>>
    requires forall id <- ids :: id in w.nodes
  {
    if ids == [] then Some([])
    else
      match (PortsOf(w.nodes[ids[0]].LiteralAt(PortsJson)), Declared(w, ids[1..]))
      case (Some(a), Some(b)) => Some(a + b)
      case _ => None
  }

  lemma {:induction false} DeclaredAppend(w: Prompt, a: seq<string>, b: seq<string>)
    requires forall id <- a + b :: id in w.nodes
    ensures (forall id <- a :: id in w.nodes) && (forall id <- b :: id in w.nodes)
    ensures Declared(w, a + b) == match (Declared(w, a), Declared(w, b))
                                  case (Some(x), Some(y)) => Some(x + y)
                                  case _ => None
  {
    hide PortsOf;
    assert forall id <- a :: id in a + b;
    assert forall id <- b :: id in a + b;
    if a == [] {
      assert a + b == b;
      if Declared(w, b).Some? { assert [] + Declared(w, b).value == Declared(w, b).value; }
    } else {
      assert (a + b)[0] == a[0] && (a + b)[1..] == a[1..] + b;
      DeclaredAppend(w, a[1..], b);
      var head := PortsOf(w.nodes[a[0]].LiteralAt(PortsJson));
      if head.Some? && Declared(w, a[1..]).Some? && Declared(w, b).Some? {
        assert head.value + (Declared(w, a[1..]).value + Declared(w, b).value)
               == (head.value + Declared(w, a[1..]).value) + Declared(w, b).value;
      }
    }
  }

  datatype BoundaryPorts = Absent | Declares(ports: seq<Port>) | Rejected

  ghost function BoundaryPortsOf(w: Prompt, kind: Kind, allowMultiple: bool): BoundaryPorts
  {
    var ids := OfKind(w, w.order, kind);
    OfKindMembers(w, w.order, kind);
    if ids == [] then Absent
    else if |ids| != 1 && !allowMultiple then Rejected
    else match Declared(w, ids)
      case None => Rejected
      case Some(ports) => if DistinctNames(ports) then Declares(ports) else Rejected
  }

  method WorkflowBoundaryPorts(w: Prompt, kind: Kind, allowMultiple: bool) returns (r: BoundaryPorts)
    ensures r == BoundaryPortsOf(w, kind, allowMultiple)
  {
    var ids := OfKind(w, w.order, kind);
    OfKindMembers(w, w.order, kind);
    if ids == [] { return Absent; }
    if |ids| != 1 && !allowMultiple { return Rejected; }
    r := CollectPorts(w, ids);
  }

  /** The loop over the boundary nodes, with names checked for repetition across nodes. */
  method CollectPorts(w: Prompt, ids: seq<string>) returns (r: BoundaryPorts)
    requires forall id <- ids :: id in w.nodes
    ensures r == match Declared(w, ids)
                 case None => Rejected
                 case Some(ports) => if DistinctNames(ports) then Declares(ports) else Rejected
  {
    hide PortsOf, DistinctNames;
    var ports: seq<Port> := [];
    assert DistinctNames(ports) by { NoPorts(); }
    for i := 0 to |ids|
      invariant Declared(w, ids[..i]) == Some(ports)
      invariant DistinctNames(ports)
    {
      assert ids[..i] + [ids[i]] + ids[i + 1..] == ids && ids[..i] + [ids[i]] == ids[..i + 1];
      DeclaredAppend(w, ids[..i + 1], ids[i + 1..]);
      DeclaredAppend(w, ids[..i], [ids[i]]);
      DeclaredOne(w, ids[i]);
      var node := ParsePorts(w.nodes[ids[i]].LiteralAt(PortsJson));
      if node.None? { return Rejected; }
      var distinct := AreDistinct(ports + node.value);
      if !distinct {
        if Declared(w, ids).Some? && DistinctNames(Declared(w, ids).value) {
          PrefixDistinct(ports + node.value, Declared(w, ids).value);
        }
        return Rejected;
      }
      ports := ports + node.value;
    }
    assert ids[..|ids|] == ids;
    r := Declares(ports);
  }

  lemma NoPorts()
    ensures DistinctNames([])
  {
  }

  lemma DeclaredOne(w: Prompt, id: string)
    requires id in w.nodes
    ensures Declared(w, [id]) == PortsOf(w.nodes[id].LiteralAt(PortsJson))
  {
    var head := PortsOf(w.nodes[id].LiteralAt(PortsJson));
    if head.Some? { assert head.value + [] == head.value; }
  }

  lemma PrefixDistinct(a: seq<Port>, b: seq<Port>)
    requires a <= b && DistinctNames(b)
    ensures DistinctNames(a)
  {
    forall i, j | 0 <= i < j < |a| ensures a[i].name != a[j].name { assert a[i] == b[i] && a[j] == b[j]; }
  }

  /** Whether no name is declared twice, checked with a set of the names seen so far. */
  method AreDistinct(ports: seq<Port>) returns (ok: bool)
    ensures ok <==> DistinctNames(ports)
  {
    var seen: set<string> := {};
    for i := 0 to |ports|
      invariant DistinctNames(ports[..i])
      invariant forall s :: s in seen <==> exists k :: 0 <= k < i && ports[k].name == s
    {
      if ports[i].name in seen { return false; }
      seen := seen + {ports[i].name};
    }
    assert ports[..|ports|] == ports;
    ok := true;
  }

  // ---- the contract ----

  predicate DirectionsAllowed(ins: seq<Port>, outs: seq<Port>) {
    && (forall p <- ins :: p.ptype !in INBOUND_DISALLOWED)
    && (forall p <- outs :: p.ptype !in OUTBOUND_DISALLOWED)
  }

  /** The workflow declares exactly the wrapper's ports, in the wrapper's order. */
  ghost predicate ContractAccepts(w: Prompt, ins: seq<Port>, outs: seq<Port>) {
    var declaredIns := BoundaryPortsOf(w, WorkflowInput, true);
    var declaredOuts := BoundaryPortsOf(w, WorkflowOutput, false);
    && !declaredIns.Rejected? && !declaredOuts.Rejected?
    && if declaredIns.Absent? && declaredOuts.Absent? && ins == [] && outs == [] then true
       else declaredIns == Declares(ins) && declaredOuts == Declares(outs) && DirectionsAllowed(ins, outs)
  }

  method ValidateBoundaryContract(w: Prompt, ins: seq<Port>, outs: seq<Port>) returns (ok: bool)
    ensures ok <==> ContractAccepts(w, ins, outs)
  {
    var declaredIns := WorkflowBoundaryPorts(w, WorkflowInput, true);
    if declaredIns.Rejected? { return false; }
    var declaredOuts := WorkflowBoundaryPorts(w, WorkflowOutput, false);
    if declaredOuts.Rejected? { return false; }
    if declaredIns.Absent? && declaredOuts.Absent? && ins == [] && outs == [] { return true; }
    if declaredIns.Absent? || declaredOuts.Absent? { return false; }
    if declaredIns.ports != ins || declaredOuts.ports != outs { return false; }
    ok := DirectionsAllowed(ins, outs);
  }

  ghost predicate OnlyOne(w: Prompt, kind: Kind, id: string) {
    id in w.nodes && forall x <- w.nodes :: w.nodes[x].kind == kind <==> x == id
  }

  lemma {:induction false} OfKindOnlyOne(w: Prompt, ids: seq<string>, kind: Kind, id: string)
    requires OnlyOne(w, kind, id) && forall i, j :: 0 <= i < j < |ids| ==> ids[i] != ids[j]
    ensures OfKind(w, ids, kind) == if id in ids then [id] else []
    decreases |ids|
  {
    if ids != [] {
      assert ids == [ids[0]] + ids[1..];
      OfKindOnlyOne(w, ids[1..], kind, id);
    }
  }

  /** A workflow without boundary nodes suits just a wrapper without ports. */
  lemma UnboundedSuitsNoPorts(w: Prompt, ins: seq<Port>, outs: seq<Port>)
    requires forall id <- w.nodes :: !w.nodes[id].kind.WorkflowInput? && !w.nodes[id].kind.WorkflowOutput?
    ensures ContractAccepts(w, ins, outs) <==> ins == [] && outs == []
  {
    OfKindMembers(w, w.order, WorkflowInput);
    OfKindMembers(w, w.order, WorkflowOutput);
  }

  /** One with a single boundary node of each kind suits exactly the ports that these declare, if those are allowed. */
  lemma OneOfEachSuits(w: Prompt, i: string, o: string, ins: seq<Port>, outs: seq<Port>)
    requires w.Valid() && OnlyOne(w, WorkflowInput, i) && OnlyOne(w, WorkflowOutput, o)
    ensures ContractAccepts(w, ins, outs) <==>
            && PortsOf(w.nodes[i].LiteralAt(PortsJson)) == Some(ins)
            && PortsOf(w.nodes[o].LiteralAt(PortsJson)) == Some(outs)
            && (forall p <- ins :: p.ptype !in INBOUND_DISALLOWED)
            && (forall p <- outs :: p.ptype !in OUTBOUND_DISALLOWED)
  {
    OfKindOnlyOne(w, w.order, WorkflowInput, i);
    OfKindOnlyOne(w, w.order, WorkflowOutput, o);
    DeclaredOne(w, i);
    DeclaredOne(w, o);
    hide WellFormedPort, CleanPort, INBOUND_DISALLOWED, OUTBOUND_DISALLOWED;
  }

  /** Everything the executor checks before it runs a wrapper. */
  ghost predicate ExecutorAccepts(w: Prompt, insLit: Literal, outsLit: Literal) {
    && PortsOf(insLit).Some? && PortsOf(outsLit).Some?
    && DirectionsAllowed(PortsOf(insLit).value, PortsOf(outsLit).value)
    && ContractAccepts(w, PortsOf(insLit).value, PortsOf(outsLit).value)
  }
}
