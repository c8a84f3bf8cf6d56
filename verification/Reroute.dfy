/** Resolving editor links through Reroute nodes, in place, while the link table is being rewritten. */
module Reroute {
  import opened Wrappers
  import opened Prompts

  type LinkId = int

  datatype Origin = Origin(id: string, slot: int)

  /** A link record; fields that are missing in the editor's JSON are `None`. */
  datatype RawLink = RawLink(link: Option<LinkId>, origin: Option<string>, slot: Option<int>)

  /** A drawn node: whether it is a Reroute, and the link of each input. */
  datatype Drawn = Drawn(reroute: bool, inputs: seq<Option<LinkId>>)

  type Table = map<LinkId, Origin>

  type Nodes = map<string, Drawn>

  /** The first input that is connected to a known link. */
  function FirstLink(inputs: seq<Option<LinkId>>, known: set<LinkId>): (r: Option<LinkId>)
    ensures r.Some? ==> r.value in known && r in inputs
    ensures r.None? <==> forall link <- inputs :: link.None? || link.value !in known
  {
    if inputs == [] then None
    else if inputs[0].Some? && inputs[0].value in known then inputs[0]
    else FirstLink(inputs[1..], known)
  }

  /** The link that feeds the Reroute an origin names, unless it is no Reroute or unconnected. */
  function Feed(nodes: Nodes, known: set<LinkId>, id: string): (r: Option<LinkId>)
    ensures r.Some? ==> r.value in known
  {
    if id in nodes && nodes[id].reroute then FirstLink(nodes[id].inputs, known) else None
  }

  /** `resolve_origin`: follows Reroutes in the table as it stands, and gives up when it meets one again. */
  function Resolve(nodes: Nodes, links: Table, origin: Origin, seen: set<string>): Origin
    decreases nodes.Keys - seen
  {
    var feed := Feed(nodes, links.Keys, origin.id);
    if feed.None? || origin.id in seen then origin
    else
      assert origin.id in nodes.Keys - seen;
      Resolve(nodes, links, links[feed.value], seen + {origin.id})
  }

  /** The table of raw links; a later record with the same id replaces an earlier one. */
  method RawTable(raw: seq<RawLink>) returns (links: Table)
    ensures links == TableOf(raw)
  {
    links := map[];
    for i := 0 to |raw|
      invariant links == TableOf(raw[..i])
    {
      assert raw[..i + 1][..i] == raw[..i];
      if raw[i].link.Some? && raw[i].origin.Some? && raw[i].slot.Some? {
        links := links[raw[i].link.value := Origin(raw[i].origin.value, raw[i].slot.value)];
      }
    }
    assert raw[..|raw|] == raw;
  }

  function TableOf(raw: seq<RawLink>): Table {
    if raw == [] then map[]
    else
      var before, last := TableOf(raw[..|raw| - 1]), raw[|raw| - 1];
      if last.link.Some? && last.origin.Some? && last.slot.Some?
        then before[last.link.value := Origin(last.origin.value, last.slot.value)]
      else before
  }

  /** The record at i is complete and the last such with its id. */
  ghost predicate Decides(raw: seq<RawLink>, i: nat) {
    && i < |raw| && raw[i].link.Some? && raw[i].origin.Some? && raw[i].slot.Some?
    && forall k :: i < k < |raw| && raw[k].link == raw[i].link ==> raw[k].origin.None? || raw[k].slot.None?
  }

  /** The table has the links of the complete records; of several with the same id the last counts. */
  lemma {:induction false} TableExactly(raw: seq<RawLink>, l: LinkId)
    ensures l in TableOf(raw) ==> exists i: nat :: Decides(raw, i) && raw[i].link == Some(l)
    ensures forall i: nat :: Decides(raw, i) && raw[i].link == Some(l) ==>
              l in TableOf(raw) && TableOf(raw)[l] == Origin(raw[i].origin.value, raw[i].slot.value)
    decreases |raw|
  {
    if raw != [] {
      var front, last := raw[..|raw| - 1], |raw| - 1;
      TableExactly(front, l);
      forall i: nat | i < last && raw[i].link == Some(l)
        ensures Decides(raw, i) <==> Decides(front, i) && !(Decides(raw, last) && raw[last].link == Some(l))
      {
        DecidesStill(raw, i);
      }
      if Decides(raw, last) && raw[last].link == Some(l) {
      } else if l in TableOf(front) {
        var i: nat :| Decides(front, i) && front[i].link == Some(l);
        assert raw[i] == front[i] && Decides(raw, i);
      }
    }
  }

  lemma DecidesStill(raw: seq<RawLink>, i: nat)
    requires i < |raw| - 1
    ensures var last := |raw| - 1;
            Decides(raw, i) <==> Decides(raw[..last], i) && !(Decides(raw, last) && raw[last].link == raw[i].link)
  {
    var last := |raw| - 1;
    assert forall k :: 0 <= k < last ==> raw[..last][k] == raw[k];
    if Decides(raw, last) && raw[last].link == raw[i].link {
      assert !Decides(raw, i) ;
    }
  }

  // ---- walking the original table ----

  /** Not a connected Reroute. */
  predicate Terminal(nodes: Nodes, links: Table, origin: Origin) {
    Feed(nodes, links.Keys, origin.id).None?
  }

  /** The input is connected to a link of the table. */
  ghost predicate Connected(links: Table, input: Option<LinkId>) { input.Some? && input.value in links }

  /** An origin goes on exactly if it is a Reroute with a connected input; the first such input decides where. */
  lemma GoesOnExactly(nodes: Nodes, links: Table, origin: Origin)
    ensures !Terminal(nodes, links, origin) <==>
            && origin.id in nodes && nodes[origin.id].reroute
            && exists input <- nodes[origin.id].inputs :: Connected(links, input)
    ensures !Terminal(nodes, links, origin) ==>
              exists i :: && 0 <= i < |nodes[origin.id].inputs| && Connected(links, nodes[origin.id].inputs[i])
                          && (forall k :: 0 <= k < i ==> !Connected(links, nodes[origin.id].inputs[k]))
                          && Next(nodes, links, origin) == links[nodes[origin.id].inputs[i].value]
  {
    if !Terminal(nodes, links, origin) { var i := FirstIsFirst(nodes[origin.id].inputs, links); }
  }

  lemma {:induction false} FirstIsFirst(inputs: seq<Option<LinkId>>, links: Table) returns (i: nat)
    requires FirstLink(inputs, links.Keys).Some?
    ensures i < |inputs| && Connected(links, inputs[i]) && FirstLink(inputs, links.Keys) == inputs[i]
    ensures forall k :: 0 <= k < i ==> !Connected(links, inputs[k])
  {
    if Connected(links, inputs[0]) {
      i := 0;
    } else {
      i := FirstIsFirst(inputs[1..], links);
      i := i + 1;
      assert forall k :: 0 < k < i ==> inputs[k] == inputs[1..][k - 1];
    }
  }

  function Next(nodes: Nodes, links: Table, origin: Origin): Origin
    requires !Terminal(nodes, links, origin)
  {
    links[Feed(nodes, links.Keys, origin.id).value]
  }

  /** k steps along the chain of Reroutes, stopping at its end. */
  function Walk(nodes: Nodes, links: Table, origin: Origin, k: nat): Origin
    decreases k
  {
    if k == 0 || Terminal(nodes, links, origin) then origin else Walk(nodes, links, Next(nodes, links, origin), k - 1)
  }

  /** The chain comes to its end after exactly n Reroutes. */
  predicate EndsAfter(nodes: Nodes, links: Table, origin: Origin, n: nat)
    decreases n
  {
    if Terminal(nodes, links, origin) then n == 0
      else n > 0 && EndsAfter(nodes, links, Next(nodes, links, origin), n - 1)
  }

  ghost predicate Ends(nodes: Nodes, links: Table, origin: Origin) {
    exists n: nat :: EndsAfter(nodes, links, origin, n)
  }

  lemma {:induction false} EndsOnce(nodes: Nodes, links: Table, origin: Origin, m: nat, n: nat)
    requires EndsAfter(nodes, links, origin, m) && EndsAfter(nodes, links, origin, n)
    ensures m == n
    decreases m
  {
    if m > 0 { EndsOnce(nodes, links, Next(nodes, links, origin), m - 1, n - 1); }
  }

  /** On the way to the end, what is left of the chain ends too. */
  lemma {:induction false} EndsFurther(nodes: Nodes, links: Table, origin: Origin, n: nat, k: nat)
    requires EndsAfter(nodes, links, origin, n)
    ensures EndsAfter(nodes, links, Walk(nodes, links, origin, k), if k <= n then n - k else 0)
    decreases k
  {
    if k > 0 && n > 0 { EndsFurther(nodes, links, Next(nodes, links, origin), n - 1, k - 1); }
  }

  /** Once the walk is over, walking on changes nothing. */
  lemma {:induction false} WalkEnds(nodes: Nodes, links: Table, origin: Origin, k: nat, m: nat)
    requires Terminal(nodes, links, Walk(nodes, links, origin, k))
             && Terminal(nodes, links, Walk(nodes, links, origin, m))
    ensures Walk(nodes, links, origin, k) == Walk(nodes, links, origin, m)
    ensures Ends(nodes, links, origin)
    decreases k + m
  {
    if Terminal(nodes, links, origin) {
      assert EndsAfter(nodes, links, origin, 0);
    } else {
      assert k > 0 && m > 0;
      var next := Next(nodes, links, origin);
      WalkEnds(nodes, links, next, k - 1, m - 1);
      var n: nat :| EndsAfter(nodes, links, next, n);
      assert EndsAfter(nodes, links, origin, n + 1);
    }
  }

  lemma {:induction false} WalkOn(nodes: Nodes, links: Table, origin: Origin, k: nat, m: nat)
    ensures Walk(nodes, links, Walk(nodes, links, origin, k), m) == Walk(nodes, links, origin, k + m)
    decreases k
  {
    if Terminal(nodes, links, origin) {
    } else if k > 0 {
      WalkOn(nodes, links, Next(nodes, links, origin), k - 1, m);
    }
  }

  /** A Reroute on a chain that ends does not come up again further on. */
  lemma NoReturn(nodes: Nodes, links: Table, origin: Origin, n: nat, k: nat)
    requires EndsAfter(nodes, links, origin, n) && n > 0 && k > 0
    ensures Walk(nodes, links, origin, k).id != origin.id
  {
    EndsFurther(nodes, links, origin, n, k);
    var later := Walk(nodes, links, origin, k);
    if later.id == origin.id {
      SameId(nodes, links, origin, later, n);
      EndsOnce(nodes, links, later, n, if k <= n then n - k else 0);
    }
  }

  lemma SameId(nodes: Nodes, links: Table, a: Origin, b: Origin, n: nat)
    requires a.id == b.id && EndsAfter(nodes, links, a, n)
    ensures EndsAfter(nodes, links, b, n)
  {
  }

  // ---- the table while it is rewritten ----

  /** Every link points somewhere along its original chain. */
  ghost predicate AlongChains(nodes: Nodes, links: Table, now: Table) {
    && now.Keys == links.Keys
    && forall l <- links :: exists k: nat :: now[l] == Walk(nodes, links, links[l], k)
  }

  /** Resolving in a partly rewritten table stays on the original chain. */
  lemma {:induction false} ResolveStaysOn(nodes: Nodes, links: Table, now: Table, origin: Origin, seen: set<string>)
    returns (m: nat)
    requires AlongChains(nodes, links, now)
    ensures Resolve(nodes, now, origin, seen) == Walk(nodes, links, origin, m)
    decreases nodes.Keys - seen
  {
    m := 0;
    var feed := Feed(nodes, links.Keys, origin.id);
    if feed.Some? && origin.id !in seen {
      assert origin.id in nodes.Keys - seen;
      var l := feed.value;
      assert l in links;
      var k: nat :| now[l] == Walk(nodes, links, links[l], k);
      m := ResolveStaysOn(nodes, links, now, now[feed.value], seen + {origin.id});
      WalkOn(nodes, links, links[feed.value], k, m);
      m := k + m + 1;
    }
  }

  /** If the original chain ends, and has no Reroute already seen, resolving comes to its end. */
  lemma {:induction false} ResolveComesToEnd(nodes: Nodes, links: Table, now: Table, origin: Origin, n: nat,
                                             seen: set<string>)
    requires AlongChains(nodes, links, now) && EndsAfter(nodes, links, origin, n)
    requires forall i: nat :: Walk(nodes, links, origin, i).id !in seen
    ensures Terminal(nodes, links, Resolve(nodes, now, origin, seen))
    decreases n
  {
    assert Walk(nodes, links, origin, 0).id !in seen;
    if n > 0 {
      var feed := Feed(nodes, links.Keys, origin.id).value;
      var k: nat :| now[feed] == Walk(nodes, links, links[feed], k);
      EndsFurther(nodes, links, origin, n, k + 1);
      forall i: nat ensures Walk(nodes, links, now[feed], i).id !in seen + {origin.id} {
        WalkOn(nodes, links, links[feed], k, i);
        assert Walk(nodes, links, origin, k + i + 1) == Walk(nodes, links, now[feed], i);
        NoReturn(nodes, links, origin, n, k + i + 1);
      }
      ResolveComesToEnd(nodes, links, now, now[feed], if k + 1 <= n then n - (k + 1) else 0, seen + {origin.id});
    }
  }

  /** The plain way: each link is resolved in the table as it was. */
  function Plain(nodes: Nodes, links: Table, origin: Origin): Origin { Resolve(nodes, links, origin, {}) }

  /** In the table while it is rewritten, each link is as it was or resolved the plain way. */
  ghost predicate PartlyResolved(nodes: Nodes, links: Table, now: Table) {
    now.Keys == links.Keys && forall l <- links :: now[l] == links[l] || now[l] == Plain(nodes, links, links[l])
  }

  lemma LinksAlongChains(nodes: Nodes, links: Table)
    ensures AlongChains(nodes, links, links)
  {
    forall l <- links ensures exists k: nat :: links[l] == Walk(nodes, links, links[l], k) {
      assert links[l] == Walk(nodes, links, links[l], 0);
    }
  }

  lemma PartlyAlongChains(nodes: Nodes, links: Table, now: Table)
    requires PartlyResolved(nodes, links, now)
    ensures AlongChains(nodes, links, now)
  {
    LinksAlongChains(nodes, links);
    forall l <- links ensures exists k: nat :: now[l] == Walk(nodes, links, links[l], k) {
      var m := ResolveStaysOn(nodes, links, links, links[l], {});
      assert links[l] == Walk(nodes, links, links[l], 0);
    }
  }

  lemma EndingIsPlain(nodes: Nodes, links: Table, now: Table, origin: Origin)
    requires PartlyResolved(nodes, links, now) && Ends(nodes, links, origin)
    ensures Resolve(nodes, now, origin, {}) == Plain(nodes, links, origin)
  {
    var n: nat :| EndsAfter(nodes, links, origin, n);
    LinksAlongChains(nodes, links);
    PartlyAlongChains(nodes, links, now);
    ResolveComesToEnd(nodes, links, links, origin, n, {});
    ResolveComesToEnd(nodes, links, now, origin, n, {});
    var k := ResolveStaysOn(nodes, links, links, origin, {});
    var m := ResolveStaysOn(nodes, links, now, origin, {});
    WalkEnds(nodes, links, origin, k, m);
  }

  // ---- chains that run into a cycle ----

  /** A chain of connected Reroutes whose last origin names the Reroute at position j again, for the first time. */
  ghost predicate IsLasso(nodes: Nodes, links: Table, path: seq<Origin>, j: nat) {
    && j < |path| - 1
    && (forall i :: 0 <= i < |path| - 1 ==>
          !Terminal(nodes, links, path[i]) && path[i + 1] == Next(nodes, links, path[i]))
    && (forall a, b :: 0 <= a < b < |path| - 1 ==> path[a].id != path[b].id)
    && path[|path| - 1].id == path[j].id
  }

  /** Along the lasso the table is unchanged, but that links into the straight part may point to its end. */
  ghost predicate ShortcutsOnly(nodes: Nodes, links: Table, now: Table, path: seq<Origin>, j: nat)
    requires IsLasso(nodes, links, path, j) && now.Keys == links.Keys
  {
    forall i :: 0 <= i < |path| - 1 ==>
      var next := now[Feed(nodes, links.Keys, path[i].id).value];
      next == path[i + 1] || (i + 1 <= j && next == path[|path| - 1])
  }

  /** From any position of the lasso, and with no later one seen yet, resolving ends where the lasso closes. */
  lemma {:induction false} LassoCloses(nodes: Nodes, links: Table, now: Table, path: seq<Origin>, j: nat, p: nat,
                                       seen: set<string>)
    requires IsLasso(nodes, links, path, j) && now.Keys == links.Keys && ShortcutsOnly(nodes, links, now, path, j)
    requires p < |path| && forall i :: p <= i < |path| - 1 ==> path[i].id !in seen
    requires p > j ==> path[j].id in seen || (p == |path| - 1 && forall i :: j <= i < |path| - 1 ==>
                                                                   path[i].id !in seen)
    ensures Resolve(nodes, now, path[p], seen) == path[|path| - 1]
    decreases nodes.Keys - seen
  {
    var k := |path| - 1;
    var at := if p == k then j else p;
    if !(p == k && path[k].id in seen) {
      assert path[p].id == path[at].id && path[at].id in nodes.Keys - seen;
      var next := now[Feed(nodes, links.Keys, path[at].id).value];
      var q := if next == path[at + 1] then at + 1 else k;
      LassoCloses(nodes, links, now, path, j, q, seen + {path[at].id});
    }
  }

  /**
   * Resolving from a position of the straight part ends where the lasso closes; from the loop, at the position itself.
   */
  lemma PlainOnLasso(nodes: Nodes, links: Table, path: seq<Origin>, j: nat, p: nat)
    requires IsLasso(nodes, links, path, j) && p < |path|
    ensures p <= j ==> Plain(nodes, links, path[p]) == path[|path| - 1]
    ensures p > j ==> Plain(nodes, links, path[p]) == path[p]
  {
    if p <= j {
      LassoCloses(nodes, links, links, path, j, p, {});
    } else {
      var round := path[p..] + path[j + 1..p + 1];
      RoundIsLasso(nodes, links, path, j, p);
      LassoCloses(nodes, links, links, round, 0, 0, {});
    }
  }

  /** Going round the loop from one of its positions is a lasso too. */
  lemma RoundIsLasso(nodes: Nodes, links: Table, path: seq<Origin>, j: nat, p: nat)
    requires IsLasso(nodes, links, path, j) && j < p < |path|
    ensures var round := path[p..] + path[j + 1..p + 1];
            IsLasso(nodes, links, round, 0) && round[0] == path[p] && round[|round| - 1] == path[p]
  {
    var k := |path| - 1;
    var round := path[p..] + path[j + 1..p + 1];
    forall i | 0 <= i < |round| - 1
      ensures !Terminal(nodes, links, round[i]) && round[i + 1] == Next(nodes, links, round[i])
    {
      if i < k - p {
        assert round[i] == path[p + i] && round[i + 1] == path[p + i + 1];
      } else if i == k - p {
        assert round[i] == path[k] && round[i + 1] == path[j + 1];
      } else {
        assert round[i] == path[j + i - (k - p)] && round[i + 1] == path[j + i - (k - p) + 1];
      }
    }
    forall a, b | 0 <= a < b < |round| - 1 ensures round[a].id != round[b].id {
      assert round[a].id == path[if a < k - p then p + a else j + a - (k - p)].id;
      assert round[b].id == path[if b < k - p then p + b else j + b - (k - p)].id;
    }
  }

  /** What does not end is no end itself, and goes on to something that does not end. */
  lemma NotYetEnded(nodes: Nodes, links: Table, origin: Origin)
    ensures Terminal(nodes, links, origin) ==> Ends(nodes, links, origin)
    ensures !Terminal(nodes, links, origin) && Ends(nodes, links, Next(nodes, links, origin)) ==>
            Ends(nodes, links, origin)
  {
    assert Terminal(nodes, links, origin) ==> EndsAfter(nodes, links, origin, 0);
    if !Terminal(nodes, links, origin) && Ends(nodes, links, Next(nodes, links, origin)) {
      var n: nat :| EndsAfter(nodes, links, Next(nodes, links, origin), n);
      assert EndsAfter(nodes, links, origin, n + 1);
    }
  }

  /** A chain that does not end runs into a cycle. */
  lemma {:induction false} LassoFrom(nodes: Nodes, links: Table, prefix: seq<Origin>, seen: set<string>)
    returns (path: seq<Origin>, j: nat)
    requires prefix != [] && !Ends(nodes, links, prefix[|prefix| - 1])
    requires forall i :: 0 <= i < |prefix| - 1 ==>
               !Terminal(nodes, links, prefix[i]) && prefix[i + 1] == Next(nodes, links, prefix[i])
    requires forall a, b :: 0 <= a < b < |prefix| - 1 ==> prefix[a].id != prefix[b].id
    requires forall id :: id in seen <==> exists i :: 0 <= i < |prefix| - 1 && prefix[i].id == id
    ensures IsLasso(nodes, links, path, j) && path[0] == prefix[0]
    decreases nodes.Keys - seen
  {
    var last := prefix[|prefix| - 1];
    if last.id in seen {
      path := prefix;
      j :| j < |prefix| - 1 && prefix[j].id == last.id;
    } else {
      NotYetEnded(nodes, links, last);
      assert last.id in nodes.Keys - seen;
      var next := Next(nodes, links, last);
      assert forall i :: 0 <= i < |prefix| ==> (prefix + [next])[i] == prefix[i];
      path, j := LassoFrom(nodes, links, prefix + [next], seen + {last.id});
    }
  }

  lemma LoopingIsPlain(nodes: Nodes, links: Table, now: Table, origin: Origin)
    requires PartlyResolved(nodes, links, now) && !Ends(nodes, links, origin)
    ensures Resolve(nodes, now, origin, {}) == Plain(nodes, links, origin)
  {
    var path, j := LassoFrom(nodes, links, [origin], {});
    forall i | 0 <= i < |path| - 1
      ensures var next := now[Feed(nodes, links.Keys, path[i].id).value];
              next == path[i + 1] || (i + 1 <= j && next == path[|path| - 1])
    {
      PlainOnLasso(nodes, links, path, j, i + 1);
      var l := Feed(nodes, links.Keys, path[i].id).value;
      assert links[l] == Next(nodes, links, path[i]);
    }
    LassoCloses(nodes, links, now, path, j, 0, {});
    PlainOnLasso(nodes, links, path, j, 0);
  }

  // ---- the rewriting ----

  /** Rewriting the table in place, in any order, amounts to resolving every link in the table as it was. */
  method ResolveAll(nodes: Nodes, links: Table) returns (now: Table)
    ensures now.Keys == links.Keys && forall l <- links :: now[l] == Plain(nodes, links, links[l])
  {
    now := links;
    var order := Enumerate(links.Keys);
    assert ResolvedSoFar(nodes, links, [], now);
    hide Resolve, Plain, ResolvedSoFar;
    for i := 0 to |order|
      invariant now.Keys == links.Keys && ResolvedSoFar(nodes, links, order[..i], now)
    {
      var l := order[i];
      assert l in order && l !in order[..i] && order[..i + 1] == order[..i] + [l];
      OneMoreResolved(nodes, links, order[..i], now, l);
      now := now[l := Resolve(nodes, now, now[l], {})];
    }
    assert order[..|order|] == order;
    AllResolved(nodes, links, order, now);
  }

  /** The links in `done` have been resolved the plain way, and the others are as they were. */
  ghost predicate ResolvedSoFar(nodes: Nodes, links: Table, done: seq<LinkId>, now: Table) {
    && now.Keys == links.Keys
    && forall l <- links :: now[l] == if l in done then Plain(nodes, links, links[l]) else links[l]
  }

  lemma OneMoreResolved(nodes: Nodes, links: Table, done: seq<LinkId>, now: Table, l: LinkId)
    requires ResolvedSoFar(nodes, links, done, now) && l in links && l !in done
    ensures ResolvedSoFar(nodes, links, done + [l], now[l := Resolve(nodes, now, now[l], {})])
  {
    hide Resolve, Plain;
    if Ends(nodes, links, links[l]) {
      EndingIsPlain(nodes, links, now, links[l]);
    } else {
      LoopingIsPlain(nodes, links, now, links[l]);
    }
  }

  lemma AllResolved(nodes: Nodes, links: Table, order: seq<LinkId>, now: Table)
    requires ResolvedSoFar(nodes, links, order, now) && Enumerates(order, links.Keys)
    ensures now.Keys == links.Keys && forall l <- links :: now[l] == Plain(nodes, links, links[l])
  {
    hide Plain;
  }

  /** `_editor_links_by_id`. */
  method EditorLinksById(nodes: Nodes, raw: seq<RawLink>) returns (links: Table)
    ensures links.Keys == TableOf(raw).Keys
    ensures forall l <- links :: links[l] == Plain(nodes, TableOf(raw), TableOf(raw)[l])
  {
    var table := RawTable(raw);
    links := ResolveAll(nodes, table);
  }

  // ---- what that means ----

  /**
   * A link is resolved to no Reroute, or to an unconnected one, exactly if its chain of Reroutes ends;
   * that is then the end of the chain.
   */
  lemma PlainFindsTheEnd(nodes: Nodes, links: Table, origin: Origin)
    ensures Terminal(nodes, links, Plain(nodes, links, origin)) <==> Ends(nodes, links, origin)
    ensures forall n: nat :: EndsAfter(nodes, links, origin, n) ==>
              Plain(nodes, links, origin) == Walk(nodes, links, origin, n)
  {
    LinksAlongChains(nodes, links);
    var m := ResolveStaysOn(nodes, links, links, origin, {});
    if Terminal(nodes, links, Plain(nodes, links, origin)) { WalkEnds(nodes, links, origin, m, m); }
    forall n: nat | EndsAfter(nodes, links, origin, n)
      ensures Plain(nodes, links, origin) == Walk(nodes, links, origin, n)
              && Terminal(nodes, links, Plain(nodes, links, origin))
    {
      ResolveComesToEnd(nodes, links, links, origin, n, {});
      EndsFurther(nodes, links, origin, n, n);
      WalkEnds(nodes, links, origin, m, n);
    }
  }

  /** Ranks that fall along every connected Reroute: no chain of Reroutes is a cycle. */
  ghost predicate AcyclicChains(nodes: Nodes, links: Table, rank: map<string, nat>) {
    forall origin: Origin :: !Terminal(nodes, links, origin) ==>
      && origin.id in rank
      && (Next(nodes, links, origin).id in rank ==> rank[Next(nodes, links, origin).id] < rank[origin.id])
  }

  /** Without cycles of Reroutes, every link gets the origin at the end of its chain. */
  lemma {:induction false} AcyclicEnds(nodes: Nodes, links: Table, rank: map<string, nat>, origin: Origin)
    requires AcyclicChains(nodes, links, rank)
    ensures Ends(nodes, links, origin) && Terminal(nodes, links, Plain(nodes, links, origin))
    decreases if origin.id in rank then rank[origin.id] + 1 else 0
  {
    if Terminal(nodes, links, origin) {
      assert EndsAfter(nodes, links, origin, 0);
    } else {
      var next := Next(nodes, links, origin);
      AcyclicEnds(nodes, links, rank, next);
      var n: nat :| EndsAfter(nodes, links, next, n);
      assert EndsAfter(nodes, links, origin, n + 1);
    }
    PlainFindsTheEnd(nodes, links, origin);
  }
}
