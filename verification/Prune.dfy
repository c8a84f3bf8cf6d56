/** Removal of the local copies that nothing local needs any more. */
module Prune {
  import opened Prompts
  import opened Semantics

  ghost predicate Reads(p: Prompt, id: string, src: string) {
    exists name, slot :: HasLink(p, id, name, src, slot)
  }

  /** A chain of relocated consumers that ends at a reader which stays. */
  ghost predicate ConsumerChain(p: Prompt, relocated: set<string>, path: seq<string>) {
    && |path| >= 2
    && (forall i :: 0 <= i < |path| - 1 ==> path[i] in relocated && Reads(p, path[i + 1], path[i]))
    && path[|path| - 1] !in relocated
  }

  /** A relocated producer is still needed locally. */
  ghost predicate Kept(p: Prompt, relocated: set<string>, id: string) {
    exists path :: ConsumerChain(p, relocated, path) && path[0] == id
  }

  lemma KeptThroughConsumer(p: Prompt, relocated: set<string>, id: string, src: string)
    requires src in relocated && Reads(p, id, src) && (id !in relocated || Kept(p, relocated, id))
    ensures Kept(p, relocated, src)
  {
    if id !in relocated {
      assert ConsumerChain(p, relocated, [src, id]);
    } else {
      var path :| ConsumerChain(p, relocated, path) && path[0] == id;
      var longer := [src] + path;
      forall i | 0 <= i < |longer| - 1 ensures longer[i] in relocated && Reads(p, longer[i + 1], longer[i]) {
        if i > 0 { assert longer[i] == path[i - 1] && longer[i + 1] == path[i]; }
      }
      assert ConsumerChain(p, relocated, longer);
    }
  }

  lemma {:induction false} ChainsStayIn(p: Prompt, relocated: set<string>, retained: set<string>, path: seq<string>)
    requires ConsumerChain(p, relocated, path)
    requires forall id, src :: src in relocated && Reads(p, id, src) && (id !in relocated || id in retained) ==>
               src in retained
    ensures path[0] in retained
    decreases |path|
  {
    assert Reads(p, path[1], path[0]);
    if |path| > 2 {
      forall i | 0 <= i < |path[1..]| - 1
        ensures path[1..][i] in relocated && Reads(p, path[1..][i + 1], path[1..][i])
      {
        assert path[1..][i] == path[i + 1] && path[1..][i + 1] == path[i + 2];
      }
      ChainsStayIn(p, relocated, retained, path[1..]);
    }
  }

  /** The sources among `relocated` that a node reads. */
  method RelocatedSources(p: Prompt, relocated: set<string>, id: string) returns (sources: set<string>)
    requires id in p.nodes
    ensures forall src :: src in sources <==> src in relocated && Reads(p, id, src)
  {
    sources := {};
    var inputs := p.nodes[id].inputs;
    var names := Enumerate(inputs.Keys);
    for i := 0 to |names|
      invariant forall src <- sources :: src in relocated && Reads(p, id, src)
      invariant forall k, src, slot :: 0 <= k < i && HasLink(p, id, names[k], src, slot) && src in relocated ==>
                  src in sources
    {
      var value := inputs[names[i]];
      if value.Link? && value.src in p.nodes && value.src in relocated {
        assert HasLink(p, id, names[i], value.src, value.slot);
        sources := sources + {value.src};
      }
    }
    forall src | src in relocated && Reads(p, id, src) ensures src in sources {
      var name, slot :| HasLink(p, id, name, src, slot);
      assert name in names;
    }
  }

  /** What the worklist has established: everything in `settled` has all its relocated sources retained. */
  ghost predicate Swept(p: Prompt, relocated: set<string>, retained: set<string>, settled: set<string>) {
    && settled <= retained <= relocated
    && (forall id <- retained :: Kept(p, relocated, id))
    && (forall id, src :: id !in relocated && src in relocated && Reads(p, id, src) ==> src in retained)
    && forall id, src :: id in settled && src in relocated && Reads(p, id, src) ==> src in retained
  }

  /** The relocated nodes that are still read locally, found with a worklist. */
  method FindRetained(p: Prompt, relocated: set<string>) returns (retained: set<string>)
    requires p.Valid()
    ensures Swept(p, relocated, retained, retained)
  {
    hide Kept, Reads;
    retained := DirectlyRead(p, relocated);
    var pending := Enumerate(retained);
    ghost var settled: set<string> := {};
    while pending != []
      invariant Swept(p, relocated, retained, settled)
      invariant forall id :: id in pending <==> id in retained && id !in settled
      invariant forall i, j :: 0 <= i < j < |pending| ==> pending[i] != pending[j]
      decreases relocated - settled
    {
      var id := pending[|pending| - 1];
      assert id in pending;
      pending := pending[..|pending| - 1];
      var sources := SourcesIfPresent(p, relocated, id);
      var added := sources - retained;
      forall src <- added ensures Kept(p, relocated, src) { KeptThroughConsumer(p, relocated, id, src); }
      var more := Enumerate(added);
      assert forall i, j :: 0 <= i < |pending| && 0 <= j < |more| ==> pending[i] in pending && more[j] in more;
      settled, retained, pending := settled + {id}, retained + added, pending + more;
    }
    assert settled == retained;
  }

  method SourcesIfPresent(p: Prompt, relocated: set<string>, id: string) returns (sources: set<string>)
    ensures forall src :: src in sources <==> src in relocated && Reads(p, id, src)
  {
    if id in p.nodes { sources := RelocatedSources(p, relocated, id); } else { sources := {}; }
  }

  /** Removes the relocated nodes that nothing local needs. */
  method PruneRelocated(p: Prompt, relocated: set<string>) returns (c: Prompt, removed: set<string>)
    requires p.Valid()
    ensures c.Valid() && IsPruned(p, relocated, removed, c)
  {
    var retained := FindRetained(p, relocated);
    removed := relocated - retained;
    forall id | id in relocated && Kept(p, relocated, id) ensures id in retained {
      var path :| ConsumerChain(p, relocated, path) && path[0] == id;
      ChainsStayIn(p, relocated, retained, path);
    }
    c := RemoveAll(p, removed);
  }

  /** The relocated nodes that some node which stays reads directly. */
  method DirectlyRead(p: Prompt, relocated: set<string>) returns (retained: set<string>)
    requires p.Valid()
    ensures retained <= relocated && forall id <- retained :: Kept(p, relocated, id)
    ensures forall id, src :: id !in relocated && src in relocated && Reads(p, id, src) ==> src in retained
  {
    retained := {};
    for i := 0 to |p.order|
      invariant retained <= relocated && forall id <- retained :: Kept(p, relocated, id)
      invariant forall k, src :: 0 <= k < i && p.order[k] !in relocated && src in relocated && Reads(p, p.order[k], src)
                                 ==> src in retained
    {
      var id := p.order[i];
      if id !in relocated {
        assert id in p.nodes;
        var sources := RelocatedSources(p, relocated, id);
        forall src <- sources ensures Kept(p, relocated, src) { KeptThroughConsumer(p, relocated, id, src); }
        retained := retained + sources;
      }
    }
    forall id, src | id !in relocated && src in relocated && Reads(p, id, src) ensures src in retained {
      assert id in p.order;
    }
  }

  method RemoveAll(p: Prompt, ids: set<string>) returns (c: Prompt)
    requires p.Valid()
    ensures c.Valid() && c.nodes == p.nodes - ids
  {
    c := p;
    var left := ids;
    while left != {}
      invariant left <= ids && c.Valid() && c.nodes == p.nodes - (ids - left)
    {
      var id :| id in left;
      c := c.Remove(id);
      assert p.nodes - (ids - left) - {id} == p.nodes - (ids - (left - {id}));
      left := left - {id};
    }
    assert ids - {} == ids;
  }

  /** `c` is `p` without the relocated nodes that nothing local needs. */
  ghost predicate IsPruned(p: Prompt, relocated: set<string>, removed: set<string>, c: Prompt) {
    && (forall id :: id in removed <==> id in relocated && !Kept(p, relocated, id))
    && c.nodes == p.nodes - removed
  }

  /** Pruning makes no link dangle that did not, and what is left computes what it did. */
  lemma PruningIsSafe(I: Interp, p: Prompt, env: Env, val: Valuation, relocated: set<string>, removed: set<string>,
                      c: Prompt)
    requires IsPruned(p, relocated, removed, c) && Solves(I, p, env, val)
    ensures Solves(I, c, env, val)
    ensures forall id, name :: Dangles(c, id, name) <==> id !in removed && Dangles(p, id, name)
    ensures forall id :: id in c.nodes ==> ArgsOf(c, c.nodes[id], val) == ArgsOf(p, p.nodes[id], val)
    ensures forall id :: id in c.nodes ==> c.nodes[id] == p.nodes[id]
    ensures Acyclic(p) ==> Acyclic(c)
  {
    PrunedDangling(p, relocated, removed, c);
    if Acyclic(p) {
      var rank :| Ranked(p, rank);
      assert forall id, name, src, slot :: HasLink(c, id, name, src, slot) ==> HasLink(p, id, name, src, slot);
      assert Ranked(c, rank);
    }
    forall id | id in c.nodes ensures ArgsOf(c, c.nodes[id], val) == ArgsOf(p, p.nodes[id], val) {
      forall name | name in c.nodes[id].inputs
        ensures ArgOf(c, c.nodes[id].inputs[name], val) == ArgOf(p, p.nodes[id].inputs[name], val)
      {
        if c.nodes[id].inputs[name].Link? && c.nodes[id].inputs[name].src in p.nodes {
          assert HasLink(p, id, name, c.nodes[id].inputs[name].src, c.nodes[id].inputs[name].slot);
        }
      }
    }
  }

  lemma PrunedDangling(p: Prompt, relocated: set<string>, removed: set<string>, c: Prompt)
    requires IsPruned(p, relocated, removed, c)
    ensures forall id, name, src, slot :: id in c.nodes && HasLink(p, id, name, src, slot) ==> src in c.nodes
    ensures forall id, name :: Dangles(c, id, name) <==> id !in removed && Dangles(p, id, name)
  {
    forall id, name, src, slot | id in c.nodes && HasLink(p, id, name, src, slot) ensures src in c.nodes {
      if src in removed { KeptThroughConsumer(p, relocated, id, src); }
    }
    forall id, name | Dangles(c, id, name) ensures Dangles(p, id, name) {
      if !Dangles(p, id, name) {
        assert HasLink(p, id, name, p.nodes[id].inputs[name].src, p.nodes[id].inputs[name].slot);
      }
    }
  }
}
