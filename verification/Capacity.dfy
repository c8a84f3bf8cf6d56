/** When a group can be compiled at all: which boundary links are allowed, and how many values may cross. */
module Capacity {
  import opened Wrappers
  import opened Prompts
  import opened BoundaryTypes
  import opened Contract
  import opened Editor
  import opened GroupCode

  /** The port type of a boundary link, if the type may cross in that direction. */
  function BoundaryType(proj: Projection, src: string, slot: nat, id: string, name: InputName,
                        inward: bool): Option<string> {
    var ptype := Normalize(SocketType(proj, src, slot, id, name));
    if ptype !in SUPPORTED then None
    else if inward && ptype in INBOUND_DISALLOWED then None
    else if !inward && ptype == "cutlery_lora_chain" then None
    else Some(ptype)
  }

  /** Input `name` of a remote copy reads a node that stays outside. */
  ghost predicate Enters(p: Prompt, g: Group, id: string, name: InputName, src: string, slot: nat) {
    id in g.Remote() && src !in g.Remote() && HasLink(p, id, name, src, slot)
  }

  /** Input `name` of a node outside the group reads a grouped node. */
  ghost predicate Leaves(p: Prompt, g: Group, id: string, name: InputName, src: string, slot: nat) {
    id !in g.inside && src in g.inside && HasLink(p, id, name, src, slot)
  }

  ghost predicate LinksAllowed(proj: Projection, p: Prompt, g: Group) {
    && (forall id, name, src, slot :: Enters(p, g, id, name, src, slot) ==>
          BoundaryType(proj, src, slot, id, name, true).Some?)
    && forall id, name, src, slot :: Leaves(p, g, id, name, src, slot) ==>
         BoundaryType(proj, src, slot, id, name, false).Some?
  }

  type InValue = (string, nat, string)
  type OutValue = (string, nat)

  /** A value that enters the group: a source slot, and the type it is read at. */
  ghost predicate EntersAs(proj: Projection, p: Prompt, g: Group, v: InValue) {
    exists id, name :: Enters(p, g, id, name, v.0, v.1) && v.2 == Normalize(SocketType(proj, v.0, v.1, id, name))
  }

  ghost predicate LeavesAs(p: Prompt, g: Group, v: OutValue) {
    exists id, name :: Leaves(p, g, id, name, v.0, v.1)
  }

  /** No more than `MAX_PORTS` different values with a property. */
  ghost predicate AtMostMax<T(!new)>(has: T -> bool) {
    forall values: seq<T> | Different(values) && (forall i :: 0 <= i < |values| ==> has(values[i])) ::
      |values| <= MAX_PORTS
  }

  ghost predicate Different<T(!new)>(values: seq<T>) {
    forall i, j :: 0 <= i < j < |values| ==> values[i] != values[j]
  }

  ghost predicate ValuesFit(proj: Projection, p: Prompt, g: Group) {
    AtMostMax(InValues(proj, p, g)) && AtMostMax(OutValues(p, g))
  }

  ghost function InValues(proj: Projection, p: Prompt, g: Group): InValue -> bool { v => EntersAs(proj, p, g, v) }
  ghost function OutValues(p: Prompt, g: Group): OutValue -> bool { v => LeavesAs(p, g, v) }

  /** All that can stop a group from being compiled. */
  ghost predicate CanCompile(proj: Projection, p: Prompt, g: Group) {
    LinksAllowed(proj, p, g) && ValuesFit(proj, p, g)
  }

  /** Different values that all occur in `among` are no more than `among` is long. */
  lemma DifferentFit<T(!new)>(values: seq<T>, among: seq<T>)
    requires Different(values) && forall i :: 0 <= i < |values| ==> values[i] in among
    ensures |values| <= |among|
  {
    if values != [] {
      var last := values[|values| - 1];
      var rest := values[..|values| - 1];
      var k :| 0 <= k < |among| && among[k] == last;
      var fewer := among[..k] + among[k + 1..];
      forall i | 0 <= i < |rest| ensures rest[i] in fewer {
        assert values[i] in among && values[i] != last;
        var m :| 0 <= m < |among| && among[m] == values[i];
        assert m < k ==> fewer[m] == values[i];
        assert m > k ==> fewer[m - 1] == values[i];
      }
      DifferentFit(rest, fewer);
    }
  }

  lemma FitsWithin<T(!new)>(has: T -> bool, among: seq<T>)
    requires |among| <= MAX_PORTS && forall v :: has(v) ==> v in among
    ensures AtMostMax(has)
  {
    forall values: seq<T> | Different(values) && (forall i :: 0 <= i < |values| ==> has(values[i]))
      ensures |values| <= MAX_PORTS
    {
      DifferentFit(values, among);
    }
  }

  lemma TooMany<T(!new)>(has: T -> bool, values: seq<T>)
    requires Different(values) && |values| > MAX_PORTS && forall i :: 0 <= i < |values| ==> has(values[i])
    ensures !AtMostMax(has)
  {
  }
}
