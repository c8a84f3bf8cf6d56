/** Reading the editor's workflow: projecting nested subgraphs, and finding what lies inside remote groups. */
module EditorGroups {
  import opened Wrappers
  import opened Prompts
  import opened Editor
  import opened Compiler
  import opened CompilerMeaning

  datatype Rect = Rect(x: real, y: real, w: real, h: real) {
    predicate Contains(inner: Rect) {
      inner.x >= x && inner.y >= y && inner.x + inner.w <= x + w && inner.y + inner.h <= y + h
    }
    predicate Overlaps(other: Rect) {
      x < other.x + other.w && x + w > other.x && y < other.y + other.h && y + h > other.y
    }
  }

  /** The point lies in the rectangle or on its border; or strictly inside. */
  ghost predicate Covers(r: Rect, x: real, y: real) { r.x <= x <= r.x + r.w && r.y <= y <= r.y + r.h }

  ghost predicate Inner(r: Rect, x: real, y: real) { r.x < x < r.x + r.w && r.y < y < r.y + r.h }

  /** A rectangle contains another exactly if it covers all its points. */
  lemma ContainsPoints(outer: Rect, inner: Rect)
    requires inner.w >= 0.0 && inner.h >= 0.0
    ensures outer.Contains(inner) <==> forall x, y :: Covers(inner, x, y) ==> Covers(outer, x, y)
  {
    assert Covers(inner, inner.x, inner.y) && Covers(inner, inner.x + inner.w, inner.y + inner.h);
  }

  /** Two rectangles overlap exactly if some point lies strictly inside both. */
  lemma OverlapsPoints(a: Rect, b: Rect)
    requires a.w > 0.0 && a.h > 0.0 && b.w > 0.0 && b.h > 0.0
    ensures a.Overlaps(b) <==> exists x, y :: Inner(a, x, y) && Inner(b, x, y)
    ensures a.Overlaps(b) <==> b.Overlaps(a)
  {
    if a.Overlaps(b) {
      var x := Between(a.x, a.x + a.w, b.x, b.x + b.w);
      var y := Between(a.y, a.y + a.h, b.y, b.y + b.h);
      assert Inner(a, x, y) && Inner(b, x, y);
    }
  }

  lemma Between(a: real, c: real, b: real, d: real) returns (x: real)
    requires a < c && b < d && a < d && b < c
    ensures a < x < c && b < x < d
  {
    var low, high := if a < b then b else a, if c < d then c else d;
    x := (low + high) / 2.0;
  }

  /** What is contained overlaps. */
  lemma ContainedOverlaps(a: Rect, b: Rect)
    requires b.w > 0.0 && b.h > 0.0 && a.Contains(b)
    ensures a.Overlaps(b)
  {
  }

  /** A drawn node; `bounds` has the height of a collapsed node if it is collapsed. */
  datatype DrawnNode = DrawnNode(kind: Kind, bounds: Rect, sockets: EditorNode)

  /** A drawn group; `target` is what its title names, if it names a remote target. */
  datatype DrawnGroup = DrawnGroup(target: Option<string>, bounds: Option<Rect>)

  /** A graph as the editor saves it: its nodes with their ids, its groups and its links, each as a list. */
  datatype Graph = Graph(drawn: seq<(string, DrawnNode)>, groups: seq<DrawnGroup>, links: seq<EditorLink>) {
    /** The nodes by id; of several with the same id the last counts, in the place of the first. */
    function Nodes(): map<string, DrawnNode> { NodeMap(drawn) }
    function Ids(): seq<string> { IdsOf(drawn) }
  }

  function NodeMap(drawn: seq<(string, DrawnNode)>): map<string, DrawnNode> {
    if drawn == [] then map[] else NodeMap(drawn[..|drawn| - 1])[drawn[|drawn| - 1].0 := drawn[|drawn| - 1].1]
  }

  function IdsOf(drawn: seq<(string, DrawnNode)>): (ids: seq<string>)
    ensures Enumerates(ids, NodeMap(drawn).Keys)
  {
    if drawn == [] then []
    else
      var ids := IdsOf(drawn[..|drawn| - 1]);
      if drawn[|drawn| - 1].0 in ids then ids else ids + [drawn[|drawn| - 1].0]
  }

  /** The subgraph definitions, by id. */
  type Library = map<string, Graph>

  /** A remote group, with the nodes of the graph that it is drawn in. */
  datatype GroupRecord = GroupRecord(target: string, bounds: Rect, nodeIds: set<string>)

  datatype Drawing = Drawing(nodes: map<string, DrawnNode>, groups: seq<GroupRecord>, links: seq<EditorLink>)

  /** The subgraph that a node stands for, unless it is being expanded already. */
  function Expands(lib: Library, kind: Kind, ancestors: set<string>): (name: Option<string>)
    ensures name.Some? ==> name.value in lib && lib.Keys - (ancestors + {name.value}) < lib.Keys - ancestors
  {
    if kind.Class? && kind.name in lib && kind.name !in ancestors then
      assert kind.name in lib.Keys - ancestors;
      Some(kind.name)
    else None
  }

  // ---- what is drawn at one place ----

  /** A graph, and the prefix its nodes get. */
  datatype Place = Place(prefix: string, graph: Graph) {
    function QualifiedIds(): set<string> { set id | id in graph.Nodes() :: prefix + id }

    /** The nodes under their qualified ids. */
    function Nodes(): map<string, DrawnNode> { map q | q in QualifiedIds() :: graph.Nodes()[q[|prefix|..]] }

    /** The records of the first k groups that name a target and have bounds. */
    function Records(k: nat): seq<GroupRecord>
      requires k <= |graph.groups|
    {
      if k == 0 then []
      else
        var g := graph.groups[k - 1];
        Records(k - 1)
        + if g.target.Some? && g.bounds.Some? then [GroupRecord(g.target.value, g.bounds.value, QualifiedIds())] else []
    }

    /** Those of the first k links whose ends are both there. */
    function Links(k: nat): seq<EditorLink>
      requires k <= |graph.links|
    {
      if k == 0 then []
      else
        var l := graph.links[k - 1];
        Links(k - 1)
        + if l.src in graph.Nodes() && l.dst in graph.Nodes() then [l.(src := prefix + l.src, dst := prefix + l.dst)]
          else []
    }
  }

  function Draw(before: Drawing, place: Place): Drawing {
    Drawing(before.nodes + place.Nodes(), before.groups + place.Records(|place.graph.groups|),
            before.links + place.Links(|place.graph.links|))
  }

  /** The places are drawn one after another. */
  ghost function DrawAll(before: Drawing, places: seq<Place>): Drawing {
    if places == [] then before else Draw(DrawAll(before, places[..|places| - 1]), places[|places| - 1])
  }

  lemma {:induction false} DrawAllAppend(before: Drawing, some: seq<Place>, more: seq<Place>)
    ensures DrawAll(before, some + more) == DrawAll(DrawAll(before, some), more)
    decreases |more|
  {
    hide Draw;
    if more == [] {
      assert some + more == some;
    } else {
      assert (some + more)[..|some + more| - 1] == some + more[..|more| - 1];
      DrawAllAppend(before, some, more[..|more| - 1]);
    }
  }

  // ---- where there is something to draw ----

  /** The graph that is reached by expanding nodes along a path of local ids. */
  function GraphAt(lib: Library, graph: Graph, ancestors: set<string>, path: seq<string>): Option<Graph>
    decreases |path|
  {
    if path == [] then Some(graph)
    else if path[0] !in graph.Nodes() then None
    else
      var name := Expands(lib, graph.Nodes()[path[0]].kind, ancestors);
      if name.None? then None else GraphAt(lib, lib[name.value], ancestors + {name.value}, path[1..])
  }

  /** `a:b:` for the path `a`, `b`. */
  function Prefix(path: seq<string>): string {
    if path == [] then "" else path[0] + ":" + Prefix(path[1..])
  }

  /** The place is at the end of a path. */
  ghost predicate EndsAt(lib: Library, graph: Graph, ancestors: set<string>, prefix: string, path: seq<string>,
                         place: Place) {
    GraphAt(lib, graph, ancestors, path) == Some(place.graph) && place.prefix == prefix + Prefix(path)
  }

  /** The places drawn for a graph: the graph itself, then what its nodes stand for, node after node. */
  ghost function PlacesBelow(lib: Library, graph: Graph, ancestors: set<string>, prefix: string): seq<Place>
    decreases lib.Keys - ancestors, |graph.Ids()| + 1
  {
    [Place(prefix, graph)] + PlacesFrom(lib, graph, ancestors, prefix, graph.Ids())
  }

  ghost function PlacesFrom(lib: Library, graph: Graph, ancestors: set<string>, prefix: string,
                            ids: seq<string>): seq<Place>
    requires forall id <- ids :: id in graph.Nodes()
    decreases lib.Keys - ancestors, |ids|
  {
    if ids == [] then []
    else
      var id := ids[|ids| - 1];
      var name := Expands(lib, graph.Nodes()[id].kind, ancestors);
      PlacesFrom(lib, graph, ancestors, prefix, ids[..|ids| - 1])
      + if name.Some? then PlacesBelow(lib, lib[name.value], ancestors + {name.value}, prefix + id + ":") else []
  }

  /** The paths that lead to these places. */
  ghost function PathsBelow(lib: Library, graph: Graph, ancestors: set<string>): seq<seq<string>>
    decreases lib.Keys - ancestors, |graph.Ids()| + 1
  {
    [[]] + PathsFrom(lib, graph, ancestors, graph.Ids())
  }

  ghost function PathsFrom(lib: Library, graph: Graph, ancestors: set<string>, ids: seq<string>): seq<seq<string>>
    requires forall id <- ids :: id in graph.Nodes()
    decreases lib.Keys - ancestors, |ids|
  {
    if ids == [] then []
    else
      var id := ids[|ids| - 1];
      var name := Expands(lib, graph.Nodes()[id].kind, ancestors);
      PathsFrom(lib, graph, ancestors, ids[..|ids| - 1])
      + if name.Some? then Through(id, PathsBelow(lib, lib[name.value], ancestors + {name.value})) else []
  }

  ghost function Through(id: string, paths: seq<seq<string>>): (longer: seq<seq<string>>)
    ensures |longer| == |paths| && forall i :: 0 <= i < |paths| ==> longer[i] == [id] + paths[i]
  {
    seq(|paths|, i requires 0 <= i < |paths| => [id] + paths[i])
  }

  /** Path `a` is visited before path `b`: it is shorter, or branches off earlier, in the order of the nodes there. */
  ghost predicate Precedes(lib: Library, graph: Graph, ancestors: set<string>, a: seq<string>, b: seq<string>)
    decreases |a|
  {
    && b != []
    && if a == [] then true
       else if a[0] != b[0] then ComesFirst(graph.Ids(), a[0], b[0])
       else
         && a[0] in graph.Nodes()
         && var name := Expands(lib, graph.Nodes()[a[0]].kind, ancestors);
            name.Some? && Precedes(lib, lib[name.value], ancestors + {name.value}, a[1..], b[1..])
  }

  ghost predicate ComesFirst(ids: seq<string>, x: string, y: string) {
    exists i, j :: 0 <= i < j < |ids| && ids[i] == x && ids[j] == y
  }

  lemma {:induction false} NotBeforeItself(lib: Library, graph: Graph, ancestors: set<string>, path: seq<string>)
    ensures !Precedes(lib, graph, ancestors, path, path)
    decreases |path|
  {
    if path != [] && path[0] in graph.Nodes() {
      var name := Expands(lib, graph.Nodes()[path[0]].kind, ancestors);
      if name.Some? { NotBeforeItself(lib, lib[name.value], ancestors + {name.value}, path[1..]); }
    }
  }

  /** Every path along which nodes can be expanded is among the paths, and the places are those at their ends. */
  lemma {:induction false} PathsAreAll(lib: Library, graph: Graph, ancestors: set<string>, prefix: string,
                                       path: seq<string>)
    ensures path in PathsBelow(lib, graph, ancestors) <==> GraphAt(lib, graph, ancestors, path).Some?
    ensures |PlacesBelow(lib, graph, ancestors, prefix)| == |PathsBelow(lib, graph, ancestors)|
    ensures forall i :: 0 <= i < |PathsBelow(lib, graph, ancestors)| ==>
              EndsAt(lib, graph, ancestors, prefix, PathsBelow(lib, graph, ancestors)[i],
                     PlacesBelow(lib, graph, ancestors, prefix)[i])
    decreases lib.Keys - ancestors, |graph.Ids()| + 1
  {
    PathsFromAll(lib, graph, ancestors, prefix, graph.Ids(), path);
    EndsHere(lib, graph, ancestors, prefix);
    assert path in PathsBelow(lib, graph, ancestors) <==>
           path == [] || path in PathsFrom(lib, graph, ancestors, graph.Ids());
    hide PathsFrom, PlacesFrom, EndsAt, Expands, NodeMap, GraphAt;
  }

  lemma EndsHere(lib: Library, graph: Graph, ancestors: set<string>, prefix: string)
    ensures EndsAt(lib, graph, ancestors, prefix, [], Place(prefix, graph))
  {
    assert prefix + "" == prefix;
  }

  lemma {:induction false} PathsFromAll(lib: Library, graph: Graph, ancestors: set<string>, prefix: string,
                                        ids: seq<string>, path: seq<string>)
    requires forall id <- ids :: id in graph.Nodes()
    ensures path in PathsFrom(lib, graph, ancestors, ids) <==>
              path != [] && path[0] in ids && GraphAt(lib, graph, ancestors, path).Some?
    ensures |PlacesFrom(lib, graph, ancestors, prefix, ids)| == |PathsFrom(lib, graph, ancestors, ids)|
    ensures forall i :: 0 <= i < |PathsFrom(lib, graph, ancestors, ids)| ==>
              EndsAt(lib, graph, ancestors, prefix, PathsFrom(lib, graph, ancestors, ids)[i],
                     PlacesFrom(lib, graph, ancestors, prefix, ids)[i])
    decreases lib.Keys - ancestors, |ids|
  {
    if ids != [] {
      var id, front := ids[|ids| - 1], ids[..|ids| - 1];
      PathsFromAll(lib, graph, ancestors, prefix, front, path);
      assert ids == front + [id];
      var name := Expands(lib, graph.Nodes()[id].kind, ancestors);
      if name.Some? {
        var deeper := ancestors + {name.value};
        PathsAreAll(lib, lib[name.value], deeper, prefix + id + ":", if path == [] then [] else path[1..]);
        InThrough(id, PathsBelow(lib, lib[name.value], deeper), path);
        hide PathsBelow, PlacesBelow;
        forall i | 0 <= i < |PathsBelow(lib, lib[name.value], deeper)|
          ensures EndsAt(lib, graph, ancestors, prefix, Through(id, PathsBelow(lib, lib[name.value], deeper))[i],
                         PlacesBelow(lib, lib[name.value], deeper, prefix + id + ":")[i])
        {
          EndsThrough(lib, graph, ancestors, prefix, id, PathsBelow(lib, lib[name.value], deeper)[i],
                      PlacesBelow(lib, lib[name.value], deeper, prefix + id + ":")[i]);
        }
      }
    }
  }

  lemma InThrough(id: string, paths: seq<seq<string>>, path: seq<string>)
    ensures path in Through(id, paths) <==> path != [] && path[0] == id && path[1..] in paths
  {
    if path != [] && path[0] == id && path[1..] in paths {
      var i :| 0 <= i < |paths| && paths[i] == path[1..];
      assert Through(id, paths)[i] == [id] + path[1..] == path;
    }
    if path in Through(id, paths) {
      var i :| 0 <= i < |paths| && Through(id, paths)[i] == path;
      assert path[1..] == paths[i];
    }
  }

  lemma EndsThrough(lib: Library, graph: Graph, ancestors: set<string>, prefix: string, id: string, path: seq<string>,
                    place: Place)
    requires id in graph.Nodes() && Expands(lib, graph.Nodes()[id].kind, ancestors).Some?
    requires var name := Expands(lib, graph.Nodes()[id].kind, ancestors).value;
             EndsAt(lib, lib[name], ancestors + {name}, prefix + id + ":", path, place)
    ensures EndsAt(lib, graph, ancestors, prefix, [id] + path, place)
  {
    assert ([id] + path)[0] == id && ([id] + path)[1..] == path;
    assert prefix + (id + ":" + Prefix(path)) == prefix + id + ":" + Prefix(path);
  }

  ghost predicate InOrder(lib: Library, graph: Graph, ancestors: set<string>, paths: seq<seq<string>>) {
    forall i, j :: 0 <= i < j < |paths| ==> Precedes(lib, graph, ancestors, paths[i], paths[j])
  }

  lemma InOrderJoined(lib: Library, graph: Graph, ancestors: set<string>, some: seq<seq<string>>,
                      more: seq<seq<string>>)
    requires InOrder(lib, graph, ancestors, some) && InOrder(lib, graph, ancestors, more)
    requires forall a, b :: a in some && b in more ==> Precedes(lib, graph, ancestors, a, b)
    ensures InOrder(lib, graph, ancestors, some + more)
  {
    hide Precedes;
  }

  /** The paths are visited in order, so each once. */
  lemma {:induction false} PathsInOrder(lib: Library, graph: Graph, ancestors: set<string>)
    ensures InOrder(lib, graph, ancestors, PathsBelow(lib, graph, ancestors))
    decreases lib.Keys - ancestors, |graph.Ids()| + 1
  {
    PathsFromInOrder(lib, graph, ancestors, graph.Ids());
    forall path | path in PathsFrom(lib, graph, ancestors, graph.Ids())
      ensures Precedes(lib, graph, ancestors, [], path)
    {
      PathsFromAll(lib, graph, ancestors, "", graph.Ids(), path);
    }
    InOrderJoined(lib, graph, ancestors, [[]], PathsFrom(lib, graph, ancestors, graph.Ids()));
  }

  lemma {:induction false} PathsFromInOrder(lib: Library, graph: Graph, ancestors: set<string>, ids: seq<string>)
    requires ids <= graph.Ids() && forall id <- ids :: id in graph.Nodes()
    ensures InOrder(lib, graph, ancestors, PathsFrom(lib, graph, ancestors, ids))
    decreases lib.Keys - ancestors, |ids|
  {
    if ids != [] {
      var id, front := ids[|ids| - 1], ids[..|ids| - 1];
      PathsFromInOrder(lib, graph, ancestors, front);
      var name := Expands(lib, graph.Nodes()[id].kind, ancestors);
      if name.Some? {
        var before := PathsFrom(lib, graph, ancestors, front);
        var below := PathsBelow(lib, lib[name.value], ancestors + {name.value});
        PathsInOrder(lib, lib[name.value], ancestors + {name.value});
        forall a, b | a in before && b in Through(id, below) ensures Precedes(lib, graph, ancestors, a, b) {
          EarlierFirst(lib, graph, ancestors, ids, a, b, below);
        }
        forall i, j | 0 <= i < j < |below| ensures Precedes(lib, graph, ancestors, [id] + below[i], [id] + below[j]) {
          assert ([id] + below[i])[1..] == below[i] && ([id] + below[j])[1..] == below[j];
        }
        InOrderJoined(lib, graph, ancestors, before, Through(id, below));
      }
    }
  }

  /** The search draws what is at the end of each path, path by path, and comes to no path twice. */
  lemma EachPathOnce(lib: Library, graph: Graph, ancestors: set<string>, prefix: string)
    ensures var paths, places := PathsBelow(lib, graph, ancestors), PlacesBelow(lib, graph, ancestors, prefix);
            && InOrder(lib, graph, ancestors, paths) && |places| == |paths|
            && (forall i, j :: 0 <= i < j < |paths| ==> paths[i] != paths[j])
            && (forall path :: path in paths <==> GraphAt(lib, graph, ancestors, path).Some?)
            && forall i :: 0 <= i < |paths| ==> EndsAt(lib, graph, ancestors, prefix, paths[i], places[i])
  {
    var paths := PathsBelow(lib, graph, ancestors);
    PathsInOrder(lib, graph, ancestors);
    PathsAreAll(lib, graph, ancestors, prefix, []);
    forall path ensures path in paths <==> GraphAt(lib, graph, ancestors, path).Some? {
      PathsAreAll(lib, graph, ancestors, prefix, path);
    }
    hide PathsBelow, PlacesBelow, EndsAt, GraphAt, Precedes;
    forall i, j | 0 <= i < j < |paths| ensures paths[i] != paths[j] {
      assert Precedes(lib, graph, ancestors, paths[i], paths[j]);
      NotBeforeItself(lib, graph, ancestors, paths[i]);
    }
  }

  lemma EarlierFirst(lib: Library, graph: Graph, ancestors: set<string>, ids: seq<string>, a: seq<string>,
                     b: seq<string>, below: seq<seq<string>>)
    requires ids != [] && ids <= graph.Ids() && forall id <- ids :: id in graph.Nodes()
    requires a in PathsFrom(lib, graph, ancestors, ids[..|ids| - 1]) && b in Through(ids[|ids| - 1], below)
    ensures Precedes(lib, graph, ancestors, a, b)
  {
    PathsFromAll(lib, graph, ancestors, "", ids[..|ids| - 1], a);
    InThrough(ids[|ids| - 1], below, b);
    var i :| 0 <= i < |ids| - 1 && ids[i] == a[0];
    assert graph.Ids()[i] == a[0] && graph.Ids()[|ids| - 1] == b[0];
    assert ComesFirst(graph.Ids(), a[0], b[0]);
  }

  // ---- the search ----

  method DrawGraph(graph: Graph, prefix: string, before: Drawing) returns (after: Drawing)
    ensures after == Draw(before, Place(prefix, graph))
  {
    var place := Place(prefix, graph);
    var groups := DrawGroups(place, before.groups);
    var links := DrawLinks(place, before.links);
    after := Drawing(before.nodes + place.Nodes(), groups, links);
  }

  method DrawGroups(place: Place, before: seq<GroupRecord>) returns (groups: seq<GroupRecord>)
    ensures groups == before + place.Records(|place.graph.groups|)
  {
    groups := before;
    for i := 0 to |place.graph.groups|
      invariant groups == before + place.Records(i)
    {
      var g := place.graph.groups[i];
      if g.target.Some? && g.bounds.Some? {
        groups := groups + [GroupRecord(g.target.value, g.bounds.value, place.QualifiedIds())];
      }
    }
  }

  method DrawLinks(place: Place, before: seq<EditorLink>) returns (links: seq<EditorLink>)
    ensures links == before + place.Links(|place.graph.links|)
  {
    links := before;
    for i := 0 to |place.graph.links|
      invariant links == before + place.Links(i)
    {
      var l := place.graph.links[i];
      if l.src in place.graph.Nodes() && l.dst in place.graph.Nodes() {
        links := links + [l.(src := place.prefix + l.src, dst := place.prefix + l.dst)];
      }
    }
  }

  /** Draws a graph and, below it, every subgraph that is not being expanded already. */
  method Visit(lib: Library, graph: Graph, prefix: string, ancestors: set<string>, before: Drawing)
    returns (after: Drawing)
    ensures after == DrawAll(before, PlacesBelow(lib, graph, ancestors, prefix))
    decreases lib.Keys - ancestors
  {
    hide Draw, DrawAll, PlacesBelow, PlacesFrom, Graph.Ids, Graph.Nodes;
    after := DrawGraph(graph, prefix, before);
    var ids := graph.Ids();
    ghost var here := [Place(prefix, graph)];
    DrawFirst(lib, graph, ancestors, prefix, before);
    ghost var some: seq<Place> := [];
    for i := 0 to |ids|
      invariant some == PlacesFrom(lib, graph, ancestors, prefix, ids[..i]) && after == DrawAll(before, here + some)
    {
      var name := Expands(lib, graph.Nodes()[ids[i]].kind, ancestors);
      PlacesFromNext(lib, graph, ancestors, prefix, ids, i);
      if name.Some? {
        after := Visit(lib, lib[name.value], prefix + ids[i] + ":", ancestors + {name.value}, after);
        ghost var below := PlacesBelow(lib, lib[name.value], ancestors + {name.value}, prefix + ids[i] + ":");
        DrawMore(before, here, some, below);
        some := some + below;
      } else {
        assert some + [] == some;
      }
    }
    assert ids[..|ids|] == ids;
  }

  lemma DrawFirst(lib: Library, graph: Graph, ancestors: set<string>, prefix: string, before: Drawing)
    ensures DrawAll(before, [Place(prefix, graph)] + []) == Draw(before, Place(prefix, graph))
    ensures PlacesFrom(lib, graph, ancestors, prefix, graph.Ids()[..0]) == []
    ensures PlacesBelow(lib, graph, ancestors, prefix)
            == [Place(prefix, graph)] + PlacesFrom(lib, graph, ancestors, prefix, graph.Ids())
    ensures forall id <- graph.Ids() :: id in graph.Nodes()
  {
    assert [Place(prefix, graph)] + [] == [Place(prefix, graph)];
    hide Draw;
  }

  lemma DrawMore(before: Drawing, here: seq<Place>, some: seq<Place>, below: seq<Place>)
    ensures DrawAll(before, here + (some + below)) == DrawAll(DrawAll(before, here + some), below)
  {
    hide DrawAll;
    DrawAllAppend(before, here + some, below);
    assert here + some + below == here + (some + below);
  }

  lemma PlacesFromNext(lib: Library, graph: Graph, ancestors: set<string>, prefix: string, ids: seq<string>, i: nat)
    requires i < |ids| && forall id <- ids :: id in graph.Nodes()
    ensures var name := Expands(lib, graph.Nodes()[ids[i]].kind, ancestors);
            PlacesFrom(lib, graph, ancestors, prefix, ids[..i + 1])
            == PlacesFrom(lib, graph, ancestors, prefix, ids[..i])
               + if name.Some? then PlacesBelow(lib, lib[name.value], ancestors + {name.value}, prefix + ids[i] + ":")
                 else []
  {
    assert ids[..i + 1][..i] == ids[..i];
  }

  const BLANK := Drawing(map[], [], [])

  /** The drawing of a workflow with all the subgraphs that it uses. */
  ghost function Drawn(lib: Library, workflow: Graph): Drawing { DrawAll(BLANK, PlacesBelow(lib, workflow, {}, "")) }

  /** `_editor_projection`. */
  method Project(lib: Library, workflow: Graph) returns (drawing: Drawing)
    ensures drawing == Drawn(lib, workflow)
  {
    drawing := Visit(lib, workflow, "", {}, BLANK);
  }

  // ---- the nodes that are drawn ----

  ghost predicate NodeOf(place: Place, q: string, node: DrawnNode) {
    exists id :: id in place.graph.Nodes() && q == place.prefix + id && node == place.graph.Nodes()[id]
  }

  lemma PlaceNodes(place: Place, q: string)
    ensures q in place.Nodes() ==> NodeOf(place, q, place.Nodes()[q])
    ensures forall node :: NodeOf(place, q, node) ==> q in place.Nodes()
  {
    if q in place.Nodes() {
      var id :| id in place.graph.Nodes() && q == place.prefix + id;
      assert q[|place.prefix|..] == id;
      assert NodeOf(place, q, place.graph.Nodes()[id]);
    }
  }

  /** The drawn nodes are those of the places; a place may hide what an earlier one has under the same id. */
  lemma {:induction false} DrawnNodes(before: Drawing, places: seq<Place>, q: string)
    ensures q in DrawAll(before, places).nodes ==>
              || (q in before.nodes && DrawAll(before, places).nodes[q] == before.nodes[q])
              || exists place :: place in places && NodeOf(place, q, DrawAll(before, places).nodes[q])
    ensures (q in before.nodes || exists place, node :: place in places && NodeOf(place, q, node)) ==>
            q in DrawAll(before, places).nodes
    decreases |places|
  {
    if places != [] {
      var last, front := places[|places| - 1], places[..|places| - 1];
      DrawnNodes(before, front, q);
      PlaceNodes(last, q);
      assert DrawAll(before, places).nodes == DrawAll(before, front).nodes + last.Nodes();
      assert places == front + [last];
      hide NodeOf, Place.Nodes, DrawAll;
    }
  }

  // ---- which nodes are expanded ----

  /** The graph that is reached when the first i of these subgraphs have been entered. */
  function Entered(lib: Library, graph: Graph, names: seq<string>, i: nat): Graph
    requires i <= |names| && forall name <- names :: name in lib
  {
    if i == 0 then graph else lib[names[i - 1]]
  }

  /** The i-th id of the path is that of a node that stands for the i-th subgraph. */
  ghost predicate Stands(lib: Library, graph: Graph, path: seq<string>, names: seq<string>, i: nat)
    requires i < |path| == |names| && forall name <- names :: name in lib
  {
    && path[i] in Entered(lib, graph, names, i).Nodes()
    && Entered(lib, graph, names, i).Nodes()[path[i]].kind == Class(names[i])
  }

  /** Each id of the path stands for the next subgraph, and no subgraph is entered twice. */
  ghost predicate Enters(lib: Library, graph: Graph, ancestors: set<string>, path: seq<string>, names: seq<string>) {
    && |names| == |path| && (forall name <- names :: name in lib && name !in ancestors)
    && (forall i, j :: 0 <= i < j < |names| ==> names[i] != names[j])
    && forall i: nat :: i < |path| ==> Stands(lib, graph, path, names, i)
  }

  lemma StandsLater(lib: Library, graph: Graph, path: seq<string>, name: string, names: seq<string>, i: nat)
    requires i < |names| && |path| == |names| + 1 && name in lib && forall n <- names :: n in lib
    ensures Stands(lib, graph, path, [name] + names, i + 1) <==> Stands(lib, lib[name], path[1..], names, i)
    ensures Entered(lib, graph, [name] + names, i + 2) == Entered(lib, lib[name], names, i + 1)
  {
    hide Graph.Nodes;
    assert ([name] + names)[i + 1] == names[i] && path[i + 1] == path[1..][i];
    assert Entered(lib, graph, [name] + names, i + 1) == Entered(lib, lib[name], names, i);
  }

  /** All but the first id of the path stand for the rest of the subgraphs. */
  lemma StandAlike(lib: Library, graph: Graph, path: seq<string>, name: string, names: seq<string>)
    requires |path| == |names| + 1 && name in lib && forall n <- names :: n in lib
    ensures (forall i: nat :: i < |path| ==> Stands(lib, graph, path, [name] + names, i)) <==>
            && path[0] in graph.Nodes() && graph.Nodes()[path[0]].kind == Class(name)
            && forall i: nat :: i < |names| ==> Stands(lib, lib[name], path[1..], names, i)
  {
    var all := [name] + names;
    assert Stands(lib, graph, path, all, 0) <==> path[0] in graph.Nodes() && graph.Nodes()[path[0]].kind == Class(name);
    hide Stands, Graph.Nodes;
    forall i: nat | i < |names|
      ensures Stands(lib, graph, path, all, i + 1) <==> Stands(lib, lib[name], path[1..], names, i)
    {
      StandsLater(lib, graph, path, name, names, i);
    }
    assert forall i: nat :: 0 < i < |path| ==>
             (Stands(lib, graph, path, all, i) <==> Stands(lib, lib[name], path[1..], names, i - 1));
  }

  /** Entering one subgraph after another is entering the first, and then the others from there. */
  lemma EntersMore(lib: Library, graph: Graph, ancestors: set<string>, path: seq<string>, name: string,
                   names: seq<string>)
    requires |path| == |names| + 1
    ensures Enters(lib, graph, ancestors, path, [name] + names) <==>
            && name in lib && name !in ancestors && path[0] in graph.Nodes()
            && graph.Nodes()[path[0]].kind == Class(name)
            && Enters(lib, lib[name], ancestors + {name}, path[1..], names)
  {
    hide Graph.Nodes, Stands;
    var all := [name] + names;
    assert all[0] == name && forall n :: n in all <==> n == name || n in names;
    if forall n <- all :: n in lib {
      StandAlike(lib, graph, path, name, names);
      assert (forall i, j :: 0 <= i < j < |all| ==> all[i] != all[j]) <==>
             name !in names && forall i, j :: 0 <= i < j < |names| ==> names[i] != names[j] by {
        Distinct(name, names);
      }
    }
  }

  lemma Distinct(name: string, names: seq<string>)
    ensures var all := [name] + names;
            (forall i, j :: 0 <= i < j < |all| ==> all[i] != all[j]) <==>
            name !in names && forall i, j :: 0 <= i < j < |names| ==> names[i] != names[j]
  {
    var all := [name] + names;
    assert forall i :: 0 <= i < |names| ==> all[i + 1] == names[i];
    if forall i, j :: 0 <= i < j < |all| ==> all[i] != all[j] {
      forall i, j | 0 <= i < j < |names| ensures names[i] != names[j] { assert all[i + 1] != all[j + 1]; }
      forall j | 0 <= j < |names| ensures name != names[j] { assert all[0] != all[j + 1]; }
    }
  }

  lemma {:induction false} EnteredIsGraphAt(lib: Library, graph: Graph, ancestors: set<string>, path: seq<string>,
                                            names: seq<string>)
    requires Enters(lib, graph, ancestors, path, names)
    ensures forall name <- names :: name in lib
    ensures GraphAt(lib, graph, ancestors, path) == Some(Entered(lib, graph, names, |names|))
    decreases |path|
  {
    SameLength(lib, graph, ancestors, path, names);
    hide Enters, Stands, Graph.Nodes;
    if path != [] {
      var name, rest := names[0], names[1..];
      assert names == [name] + rest;
      EntersMore(lib, graph, ancestors, path, name, rest);
      EnteredIsGraphAt(lib, lib[name], ancestors + {name}, path[1..], rest);
      if rest != [] { StandsLater(lib, graph, path, name, rest, |rest| - 1); }
    }
  }

  lemma SameLength(lib: Library, graph: Graph, ancestors: set<string>, path: seq<string>, names: seq<string>)
    requires Enters(lib, graph, ancestors, path, names)
    ensures |names| == |path| && forall name <- names :: name in lib
  {
  }

  lemma {:induction false} GraphAtIsEntered(lib: Library, graph: Graph, ancestors: set<string>, path: seq<string>)
    returns (names: seq<string>)
    requires GraphAt(lib, graph, ancestors, path).Some?
    ensures Enters(lib, graph, ancestors, path, names)
    decreases |path|
  {
    names := [];
    if path != [] {
      hide Enters;
      var name := Expands(lib, graph.Nodes()[path[0]].kind, ancestors).value;
      names := GraphAtIsEntered(lib, lib[name], ancestors + {name}, path[1..]);
      SameLength(lib, lib[name], ancestors + {name}, path[1..], names);
      EntersMore(lib, graph, ancestors, path, name, names);
      names := [name] + names;
    }
  }

  /** A path leads to a graph exactly if its nodes stand for one subgraph after the other, none of them twice. */
  lemma ExpandableExactly(lib: Library, workflow: Graph, path: seq<string>)
    ensures GraphAt(lib, workflow, {}, path).Some? <==> exists names :: Enters(lib, workflow, {}, path, names)
    ensures forall names :: Enters(lib, workflow, {}, path, names) ==>
              GraphAt(lib, workflow, {}, path) == Some(Entered(lib, workflow, names, |names|))
  {
    hide GraphAt;
    if GraphAt(lib, workflow, {}, path).Some? { var names := GraphAtIsEntered(lib, workflow, {}, path); }
    forall names | Enters(lib, workflow, {}, path, names)
      ensures GraphAt(lib, workflow, {}, path) == Some(Entered(lib, workflow, names, |names|))
    {
      EnteredIsGraphAt(lib, workflow, {}, path, names);
    }
  }

  // ---- the groups and links that are drawn ----

  /** The record is that of a group with a target and bounds, drawn at the place among all the nodes there. */
  ghost predicate RecordOf(place: Place, r: GroupRecord) {
    && (exists g <- place.graph.groups :: g.target == Some(r.target) && g.bounds == Some(r.bounds))
    && forall q :: q in r.nodeIds <==> exists id :: id in place.graph.Nodes() && q == place.prefix + id
  }

  /** The link is one between nodes of the place, under their qualified ids. */
  ghost predicate LinkOf(place: Place, k: EditorLink) {
    exists l <- place.graph.links :: && l.src in place.graph.Nodes() && l.dst in place.graph.Nodes()
      && k == l.(src := place.prefix + l.src, dst := place.prefix + l.dst)
  }

  lemma {:induction false} PlaceRecords(place: Place, n: nat, r: GroupRecord)
    requires n <= |place.graph.groups|
    ensures r in place.Records(n) <==>
            r.nodeIds == place.QualifiedIds()
            && exists i :: 0 <= i < n && place.graph.groups[i].target == Some(r.target)
                           && place.graph.groups[i].bounds == Some(r.bounds)
    decreases n
  {
    if n > 0 { PlaceRecords(place, n - 1, r); }
  }

  lemma {:induction false} PlaceLinks(place: Place, n: nat, k: EditorLink)
    requires n <= |place.graph.links|
    ensures k in place.Links(n) <==>
            exists i :: && 0 <= i < n && place.graph.links[i].src in place.graph.Nodes()
                        && place.graph.links[i].dst in place.graph.Nodes()
                        && k == place.graph.links[i].(src := place.prefix + place.graph.links[i].src,
                                                      dst := place.prefix + place.graph.links[i].dst)
    decreases n
  {
    if n > 0 { PlaceLinks(place, n - 1, k); }
  }

  lemma RecordsAre(place: Place, r: GroupRecord)
    ensures r in place.Records(|place.graph.groups|) <==> RecordOf(place, r)
  {
    PlaceRecords(place, |place.graph.groups|, r);
    hide Place.Records;
    assert RecordOf(place, r) ==> r.nodeIds == place.QualifiedIds();
  }

  lemma LinksAre(place: Place, k: EditorLink)
    ensures k in place.Links(|place.graph.links|) <==> LinkOf(place, k)
  {
    PlaceLinks(place, |place.graph.links|, k);
    hide Place.Links;
  }

  /** The groups drawn are those of the places, and so are the links. */
  lemma {:induction false} DrawnRecords(before: Drawing, places: seq<Place>, r: GroupRecord)
    ensures r in DrawAll(before, places).groups <==>
            r in before.groups || exists place :: place in places && RecordOf(place, r)
    decreases |places|
  {
    hide RecordOf, Place.Records, Place.Links, Place.Nodes;
    if places != [] {
      var last, front := places[|places| - 1], places[..|places| - 1];
      DrawnRecords(before, front, r);
      RecordsAre(last, r);
      assert places == front + [last];
      DrawsBoth(DrawAll(before, front), last);
      hide Draw;
    }
  }

  lemma {:induction false} DrawnLinks(before: Drawing, places: seq<Place>, k: EditorLink)
    ensures k in DrawAll(before, places).links <==>
            k in before.links || exists place :: place in places && LinkOf(place, k)
    decreases |places|
  {
    hide LinkOf, Place.Records, Place.Links, Place.Nodes;
    if places != [] {
      var last, front := places[|places| - 1], places[..|places| - 1];
      DrawnLinks(before, front, k);
      LinksAre(last, k);
      assert places == front + [last];
      DrawsBoth(DrawAll(before, front), last);
      hide Draw;
    }
  }

  lemma DrawsBoth(before: Drawing, place: Place)
    ensures Draw(before, place).groups == before.groups + place.Records(|place.graph.groups|)
    ensures Draw(before, place).links == before.links + place.Links(|place.graph.links|)
  {
  }

  /** A group or a link is drawn exactly if it is one of a graph at the end of some path. */
  lemma DrawnExactly(lib: Library, workflow: Graph, r: GroupRecord, k: EditorLink)
    ensures r in Drawn(lib, workflow).groups <==>
            exists path, place :: EndsAt(lib, workflow, {}, "", path, place) && RecordOf(place, r)
    ensures k in Drawn(lib, workflow).links <==>
            exists path, place :: EndsAt(lib, workflow, {}, "", path, place) && LinkOf(place, k)
  {
    var places, paths := PlacesBelow(lib, workflow, {}, ""), PathsBelow(lib, workflow, {});
    DrawnRecords(BLANK, places, r);
    DrawnLinks(BLANK, places, k);
    hide PlacesBelow, PathsBelow, DrawAll, RecordOf, LinkOf, EndsAt, GraphAt;
    PathsAreAll(lib, workflow, {}, "", []);
    forall i | 0 <= i < |places| ensures EndsAt(lib, workflow, {}, "", paths[i], places[i]) { }
    forall path, place | EndsAt(lib, workflow, {}, "", path, place) ensures place in places {
      EndIsPlace(lib, workflow, path, place);
    }
  }

  lemma EndIsPlace(lib: Library, workflow: Graph, path: seq<string>, place: Place)
    requires EndsAt(lib, workflow, {}, "", path, place)
    ensures place in PlacesBelow(lib, workflow, {}, "")
  {
    var places, paths := PlacesBelow(lib, workflow, {}, ""), PathsBelow(lib, workflow, {});
    hide PlacesBelow, PathsBelow, GraphAt;
    PathsAreAll(lib, workflow, {}, "", path);
    var i :| 0 <= i < |paths| && paths[i] == path;
    assert EndsAt(lib, workflow, {}, "", paths[i], places[i]);
    assert places[i] == place;
  }

  // ---- qualified ids ----

  ghost predicate ColonFree(id: string) { ':' !in id }

  /** No node of the library or of the workflow has a colon in its id. */
  ghost predicate ColonFreeIds(lib: Library, workflow: Graph) {
    (forall id <- workflow.Nodes() :: ColonFree(id)) && forall name <- lib, id <- lib[name].Nodes() :: ColonFree(id)
  }

  lemma FirstColon(a: string, b: string, x: string, y: string)
    requires ColonFree(a) && ColonFree(b) && a + ":" + x == b + ":" + y
    ensures a == b && x == y
  {
    var s := a + ":" + x;
    assert s[|a|] == ':' && s[|b|] == ':';
    assert forall i :: 0 <= i < |a| ==> s[i] == a[i] && a[i] in a;
    assert forall i :: 0 <= i < |b| ==> s[i] == b[i] && b[i] in b;
    assert a == s[..|a|] && b == s[..|b|];
    assert x == s[|a| + 1..] && y == s[|b| + 1..];
  }

  lemma HasColon(b: string, x: string)
    ensures !ColonFree(b + ":" + x)
  {
    assert (b + ":" + x)[|b|] == ':';
  }

  /** Along a path in the library, ids have no colon. */
  ghost predicate ColonFreePath(path: seq<string>) { forall id <- path :: ColonFree(id) }

  /** A qualified id determines the path and the local id. */
  lemma {:induction false} QualifiedOnce(path: seq<string>, id: string, other: seq<string>, x: string)
    requires ColonFreePath(path) && ColonFreePath(other) && ColonFree(id) && ColonFree(x)
    requires Prefix(path) + id == Prefix(other) + x
    ensures path == other && id == x
    decreases |path|
  {
    hide ColonFree;
    assert (path != [] ==> path[0] in path) && (other != [] ==> other[0] in other);
    if path == [] && other == [] {
      assert "" + id == id && "" + x == x;
    } else if path == [] {
      assert id == "" + id == other[0] + ":" + (Prefix(other[1..]) + x);
      HasColon(other[0], Prefix(other[1..]) + x);
    } else if other == [] {
      assert x == "" + x == path[0] + ":" + (Prefix(path[1..]) + id);
      HasColon(path[0], Prefix(path[1..]) + id);
    } else {
      assert Prefix(path) + id == path[0] + ":" + (Prefix(path[1..]) + id);
      assert Prefix(other) + x == other[0] + ":" + (Prefix(other[1..]) + x);
      FirstColon(path[0], other[0], Prefix(path[1..]) + id, Prefix(other[1..]) + x);
      QualifiedOnce(path[1..], id, other[1..], x);
      assert path == [path[0]] + path[1..] && other == [other[0]] + other[1..];
    }
  }

  lemma {:induction false} PathsAreColonFree(lib: Library, graph: Graph, ancestors: set<string>, path: seq<string>)
    requires GraphAt(lib, graph, ancestors, path).Some?
    requires forall id <- graph.Nodes() :: ColonFree(id)
    requires forall name <- lib, id <- lib[name].Nodes() :: ColonFree(id)
    ensures ColonFreePath(path) && forall id <- GraphAt(lib, graph, ancestors, path).value.Nodes() :: ColonFree(id)
    decreases |path|
  {
    hide ColonFree;
    if path != [] {
      var name := Expands(lib, graph.Nodes()[path[0]].kind, ancestors).value;
      PathsAreColonFree(lib, lib[name], ancestors + {name}, path[1..]);
      assert path == [path[0]] + path[1..];
    }
  }

  /** When ids have no colon, qualified ids are distinct: each is that of one node at the end of one path. */
  lemma ProjectionIsFaithful(lib: Library, workflow: Graph, path: seq<string>, id: string)
    requires ColonFreeIds(lib, workflow) && GraphAt(lib, workflow, {}, path).Some?
    requires id in GraphAt(lib, workflow, {}, path).value.Nodes()
    ensures Prefix(path) + id in Drawn(lib, workflow).nodes
    ensures Drawn(lib, workflow).nodes[Prefix(path) + id] == GraphAt(lib, workflow, {}, path).value.Nodes()[id]
  {
    var g, q, nodes := GraphAt(lib, workflow, {}, path).value, Prefix(path) + id, Drawn(lib, workflow).nodes;
    var places, paths := PlacesBelow(lib, workflow, {}, ""), PathsBelow(lib, workflow, {});
    hide PlacesBelow, PathsBelow, DrawAll, GraphAt, Graph.Nodes, ColonFree, ColonFreePath;
    PathsAreAll(lib, workflow, {}, "", path);
    var i :| 0 <= i < |paths| && paths[i] == path;
    assert places[i] == Place(Prefix(path), g) && NodeOf(places[i], q, g.Nodes()[id]) by {
      assert "" + Prefix(path) == Prefix(path);
    }
    DrawnNodes(BLANK, places, q);
    assert q in nodes;
    var place :| place in places && NodeOf(place, q, nodes[q]);
    var j :| 0 <= j < |places| && places[j] == place;
    var x :| x in place.graph.Nodes() && q == place.prefix + x && nodes[q] == place.graph.Nodes()[x];
    assert "" + Prefix(paths[j]) == Prefix(paths[j]);
    PathsAreColonFree(lib, workflow, {}, path);
    PathsAreColonFree(lib, workflow, {}, paths[j]);
    QualifiedOnce(path, id, paths[j], x);
  }

  // ---- what lies inside a group ----

  /** A drawn node that is in the prompt as a node of the same class. */
  predicate Considered(drawing: Drawing, prompt: Prompt, id: string) {
    id in drawing.nodes && id in prompt.nodes && prompt.nodes[id].kind == drawing.nodes[id].kind
  }

  /** The node is drawn in the group's graph, wholly inside its bounds. */
  predicate Within(drawing: Drawing, id: string, k: nat)
    requires id in drawing.nodes && k < |drawing.groups|
  {
    id in drawing.groups[k].nodeIds && drawing.groups[k].bounds.Contains(drawing.nodes[id].bounds)
  }

  predicate Straddles(drawing: Drawing, id: string, k: nat)
    requires id in drawing.nodes && k < |drawing.groups|
  {
    && id in drawing.groups[k].nodeIds && drawing.groups[k].bounds.Overlaps(drawing.nodes[id].bounds)
    && !drawing.groups[k].bounds.Contains(drawing.nodes[id].bounds)
  }

  /** A node within at most one group and across the border of none. */
  ghost predicate WellPlaced(drawing: Drawing, id: string)
    requires id in drawing.nodes
  {
    && (forall k: nat :: k < |drawing.groups| ==> !Straddles(drawing, id, k))
    && forall j: nat, k: nat ::
         j < |drawing.groups| && k < |drawing.groups| && Within(drawing, id, j) && Within(drawing, id, k) ==> j == k
  }

  /** The group that a node is within, if it is well placed; `None` is an error. */
  method GroupOf(drawing: Drawing, id: string) returns (r: Option<Option<nat>>)
    requires id in drawing.nodes
    ensures r.Some? <==> WellPlaced(drawing, id)
    ensures r.Some? && r.value.Some? ==> r.value.value < |drawing.groups| && Within(drawing, id, r.value.value)
    ensures r.Some? && r.value.None? ==> forall k: nat :: k < |drawing.groups| ==> !Within(drawing, id, k)
  {
    var matches: seq<nat>, partial: seq<nat> := [], [];
    for k := 0 to |drawing.groups|
      invariant forall j: nat :: j in matches <==> j < k && Within(drawing, id, j)
      invariant forall j: nat :: j in partial <==> j < k && Straddles(drawing, id, j)
      invariant forall i :: 0 <= i < |matches| ==> matches[i] < k
      invariant forall i, j :: 0 <= i < j < |matches| ==> matches[i] < matches[j]
    {
      hide Within, Straddles;
      if Within(drawing, id, k) { matches := matches + [k]; }
      if Straddles(drawing, id, k) { partial := partial + [k]; }
    }
    hide Within, Straddles;
    if partial != [] {
      assert partial[0] in partial;
      return None;
    }
    if |matches| > 1 {
      assert matches[0] in matches && matches[1] in matches;
      return None;
    }
    if matches == [] { return Some(None); }
    assert matches[0] in matches;
    r := Some(Some(matches[0]));
  }

  /** The considered nodes of group k. */
  ghost predicate InsideSets(drawing: Drawing, prompt: Prompt, among: set<string>, inside: seq<set<string>>) {
    && |inside| == |drawing.groups|
    && forall k: nat, id :: k < |inside| ==>
         (id in inside[k] <==> id in among && Considered(drawing, prompt, id) && Within(drawing, id, k))
  }

  lemma OneMoreInside(drawing: Drawing, prompt: Prompt, among: set<string>, inside: seq<set<string>>, id: string)
    requires InsideSets(drawing, prompt, among, inside) && id !in among
    ensures !Considered(drawing, prompt, id) ==> InsideSets(drawing, prompt, among + {id}, inside)
    ensures Considered(drawing, prompt, id) && (forall k: nat :: k < |drawing.groups| ==> !Within(drawing, id, k)) ==>
              InsideSets(drawing, prompt, among + {id}, inside)
    ensures forall k: nat ::
              k < |drawing.groups| && Considered(drawing, prompt, id) && Within(drawing, id, k)
              && WellPlaced(drawing, id) ==>
                InsideSets(drawing, prompt, among + {id}, inside[k := inside[k] + {id}])
  {
    hide Within, Straddles;
  }

  /** Sorts the prompt's nodes into the groups they are within; refuses straddling and doubly contained nodes. */
  method AssignNodes(drawing: Drawing, prompt: Prompt) returns (inside: Option<seq<set<string>>>)
    ensures inside.Some? <==> forall id :: Considered(drawing, prompt, id) ==> WellPlaced(drawing, id)
    ensures inside.Some? ==> InsideSets(drawing, prompt, drawing.nodes.Keys, inside.value)
  {
    var sets := seq(|drawing.groups|, i => {});
    var ids := Enumerate(drawing.nodes.Keys);
    ghost var among: set<string> := {};
    assert InsideSets(drawing, prompt, among, sets);
    hide Within, WellPlaced, InsideSets;
    for i := 0 to |ids|
      invariant forall id :: id in among <==> id in ids[..i]
      invariant forall id <- among :: Considered(drawing, prompt, id) ==> WellPlaced(drawing, id)
      invariant |sets| == |drawing.groups| && InsideSets(drawing, prompt, among, sets)
    {
      var id := ids[i];
      assert id in ids && id !in among && ids[..i + 1] == ids[..i] + [id];
      OneMoreInside(drawing, prompt, among, sets, id);
      if Considered(drawing, prompt, id) {
        var k := GroupOf(drawing, id);
        if k.None? { return None; }
        if k.value.Some? { sets := sets[k.value.value := sets[k.value.value] + {id}]; }
      }
      among := among + {id};
    }
    assert ids[..|ids|] == ids && among == drawing.nodes.Keys;
    inside := Some(sets);
  }

  /** Group k of the drawing is among the groups kept, with what is inside it. */
  ghost predicate Kept(drawing: Drawing, inside: seq<set<string>>, groups: seq<RemoteGroup>, which: seq<nat>) {
    && |groups| == |which| && |inside| == |drawing.groups|
    && (forall i, j :: 0 <= i < j < |which| ==> which[i] < which[j])
    && (forall k: nat :: k in which <==> k < |inside| && inside[k] != {})
    && forall i :: 0 <= i < |which| ==>
         which[i] < |inside| && groups[i] == RemoteGroup(drawing.groups[which[i]].target, inside[which[i]])
  }

  /** `_remote_groups`: the non-empty groups in drawing order. */
  method RemoteGroups(drawing: Drawing, prompt: Prompt)
    returns (groups: Option<seq<RemoteGroup>>, ghost inside: seq<set<string>>, ghost which: seq<nat>)
    ensures groups.Some? <==> forall id :: Considered(drawing, prompt, id) ==> WellPlaced(drawing, id)
    ensures groups.Some? ==>
            InsideSets(drawing, prompt, drawing.nodes.Keys, inside) && Kept(drawing, inside, groups.value, which)
    ensures groups.Some? ==> GoodGroups(prompt, groups.value)
  {
    hide InsideSets, WellPlaced;
    inside, which := [], [];
    var sets := AssignNodes(drawing, prompt);
    if sets.None? { return None, [], []; }
    inside := sets.value;
    InsideSetsMatch(drawing, prompt, inside);
    var kept: seq<RemoteGroup> := [];
    for k := 0 to |sets.value|
      invariant |kept| == |which|
      invariant forall i, j :: 0 <= i < j < |which| ==> which[i] < which[j] < k
      invariant forall j: nat :: j in which <==> j < k && inside[j] != {}
      invariant forall i :: 0 <= i < |which| ==>
                  which[i] < k && kept[i] == RemoteGroup(drawing.groups[which[i]].target, inside[which[i]])
    {
      if sets.value[k] != {} {
        kept := kept + [RemoteGroup(drawing.groups[k].target, sets.value[k])];
        which := which + [k];
      }
    }
    KeptAreGood(drawing, prompt, inside, kept, which);
    groups := Some(kept);
  }

  lemma InsideSetsMatch(drawing: Drawing, prompt: Prompt, inside: seq<set<string>>)
    requires InsideSets(drawing, prompt, drawing.nodes.Keys, inside)
    ensures |inside| == |drawing.groups|
  {
  }

  lemma InsideFact(drawing: Drawing, prompt: Prompt, inside: seq<set<string>>, k: nat, id: string)
    requires InsideSets(drawing, prompt, drawing.nodes.Keys, inside) && k < |inside|
    ensures k < |drawing.groups| && (id in inside[k] <==> Considered(drawing, prompt, id) && Within(drawing, id, k))
  {
  }

  /**
   * A node is inside a group exactly if it is drawn in the group's graph, wholly within its bounds, and is in the
   * prompt with the same class. It is badly placed exactly if it lies across the border of a group of its graph, or
   * within two.
   */
  lemma InsideExactly(drawing: Drawing, prompt: Prompt, inside: seq<set<string>>, id: string)
    requires InsideSets(drawing, prompt, drawing.nodes.Keys, inside)
    ensures forall k :: 0 <= k < |inside| ==>
              (id in inside[k] <==>
                 && id in drawing.nodes && id in prompt.nodes && prompt.nodes[id].kind == drawing.nodes[id].kind
                 && id in drawing.groups[k].nodeIds && drawing.groups[k].bounds.Contains(drawing.nodes[id].bounds))
    ensures Considered(drawing, prompt, id) ==>
              (!WellPlaced(drawing, id) <==>
                 || (exists k :: 0 <= k < |inside| && id in drawing.groups[k].nodeIds && id !in inside[k]
                                 && drawing.groups[k].bounds.Overlaps(drawing.nodes[id].bounds))
                 || exists j, k :: 0 <= j < k < |inside| && id in inside[j] && id in inside[k])
  {
    forall k: nat | k < |inside|
      ensures id in inside[k] <==> Considered(drawing, prompt, id) && Within(drawing, id, k)
    {
      InsideFact(drawing, prompt, inside, k, id);
    }
    InsideSetsMatch(drawing, prompt, inside);
    hide InsideSets;
    if Considered(drawing, prompt, id) {
      if k: nat :| k < |inside| && Straddles(drawing, id, k) {
        assert id in drawing.groups[k].nodeIds && id !in inside[k];
      } else if !WellPlaced(drawing, id) {
        var j: nat, k: nat :|
          j < |inside| && k < |inside| && j != k && Within(drawing, id, j) && Within(drawing, id, k);
        assert id in inside[j] && id in inside[k];
      } else {
        forall k | 0 <= k < |inside| && id in drawing.groups[k].nodeIds && id !in inside[k]
          ensures !drawing.groups[k].bounds.Overlaps(drawing.nodes[id].bounds)
        {
          assert !Straddles(drawing, id, k) && !Within(drawing, id, k);
        }
        forall j, k | 0 <= j < k < |inside| && id in inside[j] ensures id !in inside[k] {
          assert Within(drawing, id, j);
          assert Within(drawing, id, k) ==> j == k;
        }
      }
    }
  }

  /** Groups share no node, and have only nodes of the prompt. */
  lemma KeptAreGood(drawing: Drawing, prompt: Prompt, inside: seq<set<string>>, groups: seq<RemoteGroup>,
                    which: seq<nat>)
    requires InsideSets(drawing, prompt, drawing.nodes.Keys, inside) && Kept(drawing, inside, groups, which)
    requires forall id :: Considered(drawing, prompt, id) ==> WellPlaced(drawing, id)
    ensures GoodGroups(prompt, groups)
  {
    hide Within, Straddles;
    forall i, j | 0 <= i < j < |groups| ensures groups[i].inside !! groups[j].inside {
      forall id | id in groups[i].inside ensures id !in groups[j].inside {
        InsideFact(drawing, prompt, inside, which[i], id);
        InsideFact(drawing, prompt, inside, which[j], id);
      }
    }
    forall i | 0 <= i < |groups| ensures groups[i].inside <= prompt.nodes.Keys {
      forall id <- groups[i].inside ensures id in prompt.nodes { InsideFact(drawing, prompt, inside, which[i], id); }
    }
  }

  /** A considered node is within exactly one group kept, or overlaps no group of its graph. */
  lemma InsideOneOrApart(drawing: Drawing, prompt: Prompt, inside: seq<set<string>>, groups: seq<RemoteGroup>,
                         which: seq<nat>, id: string)
    requires InsideSets(drawing, prompt, drawing.nodes.Keys, inside) && Kept(drawing, inside, groups, which)
    requires Considered(drawing, prompt, id) && WellPlaced(drawing, id)
    ensures (exists i :: 0 <= i < |groups| && id in groups[i].inside)
            || forall k: nat :: k < |drawing.groups| && id in drawing.groups[k].nodeIds ==>
                 !drawing.groups[k].bounds.Overlaps(drawing.nodes[id].bounds)
    ensures forall i, j ::
              0 <= i < |groups| && 0 <= j < |groups| && id in groups[i].inside && id in groups[j].inside ==> i == j
  {
    if k: nat :| k < |drawing.groups| && Within(drawing, id, k) {
      assert id in inside[k] && k in which;
      var i :| 0 <= i < |which| && which[i] == k;
      assert id in groups[i].inside;
    } else {
      forall k: nat | k < |drawing.groups| && id in drawing.groups[k].nodeIds
        ensures !drawing.groups[k].bounds.Overlaps(drawing.nodes[id].bounds)
      {
        assert !Straddles(drawing, id, k) && !Within(drawing, id, k);
      }
    }
    hide Within, Straddles;
    forall i, j | 0 <= i < |groups| && 0 <= j < |groups| && id in groups[i].inside && id in groups[j].inside
      ensures i == j
    {
      assert id in inside[which[i]] && id in inside[which[j]];
    }
  }

  // ---- from the editor to the compiled prompt ----

  /** The sockets and links that the compiler looks at. */
  function ProjectionOf(drawing: Drawing): Projection {
    Projection(map id | id in drawing.nodes :: drawing.nodes[id].sockets, drawing.links)
  }

  datatype EditorRefusal = Misplaced | Refused(refusal: Refusal)

  /** The compilation of the groups that are drawn around the prompt's nodes. */
  ghost predicate IsEditorCompilation(lib: Library, workflow: Graph, p: Prompt, resolvers: string -> Resolver,
                                      partial: set<string>, drawing: Drawing, groups: seq<RemoteGroup>, k: Compilation)
  {
    && drawing == Drawn(lib, workflow)
    && (exists inside, which :: InsideSets(drawing, p, drawing.nodes.Keys, inside)
          && Kept(drawing, inside, groups, which))
    && exists stages :: IsResult(p, ProjectionOf(drawing), resolvers, partial, groups, stages, k)
  }

  /** The compiler's refusal of what is drawn. */
  ghost predicate IsEditorRefusal(lib: Library, workflow: Graph, p: Prompt, resolvers: string -> Resolver,
                                  drawing: Drawing, groups: seq<RemoteGroup>, e: Refusal)
  {
    && drawing == Drawn(lib, workflow)
    && (exists inside, which :: InsideSets(drawing, p, drawing.nodes.Keys, inside)
          && Kept(drawing, inside, groups, which))
    && exists stages :: IsRefusal(p, ProjectionOf(drawing), resolvers, groups, stages, e)
  }

  /** `compile_editor_remote_groups_detailed`. */
  method CompileEditorRemoteGroups(lib: Library, workflow: Graph, p: Prompt, resolvers: string -> Resolver,
                                   partial: set<string>)
    returns (r: Result<Compilation, EditorRefusal>)
    requires p.Valid()
    ensures r.Success? ==>
            exists drawing, groups ::
              IsEditorCompilation(lib, workflow, p, resolvers, partial, drawing, groups, r.value)
    ensures r.Failure? && r.error.Misplaced? ==>
              exists id :: Considered(Drawn(lib, workflow), p, id) && !WellPlaced(Drawn(lib, workflow), id)
    ensures r.Failure? && r.error.Refused? ==>
              exists drawing, groups :: IsEditorRefusal(lib, workflow, p, resolvers, drawing, groups, r.error.refusal)
  {
    hide Drawn, InsideSets, Kept, WellPlaced, IsResult, IsRefusal, GoodGroups;
    var drawing := Project(lib, workflow);
    var found, inside, which := RemoteGroups(drawing, p);
    if found.None? { return Failure(Misplaced); }
    var compiled := CompileRemoteGroups(p, ProjectionOf(drawing), resolvers, partial, found.value);
    if compiled.Failure? {
      assert IsEditorRefusal(lib, workflow, p, resolvers, drawing, found.value, compiled.error);
      return Failure(Refused(compiled.error));
    }
    assert IsEditorCompilation(lib, workflow, p, resolvers, partial, drawing, found.value, compiled.value);
    r := Success(compiled.value);
  }
}
