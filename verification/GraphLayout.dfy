/** Colouring by weakly connected component (`componentColors` of dashboard/src/graphLayout.ts). */
module GraphLayout {
  import opened Walks
  import GraphColors

  type Id = string

  datatype Edge = Edge(source: Id, target: Id)

  type Parents = map<Id, Id>

  function NodeSet(ids: seq<Id>): set<Id> {
    set id <- ids
  }

  /** The links that count: edges with both ends among the nodes, usable in both directions. */
  ghost function Links(nodes: set<Id>, edges: seq<Edge>): Arcs<Id> {
    (set e <- edges | e.source in nodes && e.target in nodes :: (e.source, e.target)) +
    (set e <- edges | e.source in nodes && e.target in nodes :: (e.target, e.source))
  }

  ghost predicate Connected(nodes: set<Id>, edges: seq<Edge>, a: Id, b: Id) {
    Reaches(Links(nodes, edges), a, b)
  }

  lemma ConnectedThrough(nodes: set<Id>, edges: seq<Edge>, a: Id, b: Id, c: Id)
    requires Connected(nodes, edges, a, b) && Connected(nodes, edges, b, c)
    ensures Connected(nodes, edges, a, c)
  {
    ReachesJoin(Links(nodes, edges), a, b, c);
  }

  // ---------------------------------------------------------------- the forest

  /**
   The parent table is a forest: `rep` names the root of every node, and `height` grows strictly towards the
   root, so that following parents can neither cycle nor go on for ever.
   */
  ghost predicate Forest(parent: Parents, rep: map<Id, Id>, height: map<Id, nat>) {
    && rep.Keys == parent.Keys && height.Keys == parent.Keys
    && forall x {:trigger Rooted(parent, rep, height, x)} :: x in parent ==> Rooted(parent, rep, height, x)
  }

  ghost predicate Rooted(parent: Parents, rep: map<Id, Id>, height: map<Id, nat>, x: Id)
    requires x in parent && rep.Keys == parent.Keys && height.Keys == parent.Keys
  {
    var p, r := parent[x], rep[x];
    && p in parent && r in parent
    && parent[r] == r && rep[p] == r
    && (p == x <==> r == x)
    && (p != x ==> height[x] < height[p])
    && (r != x ==> height[x] < height[r])
  }

  /** One step up stays in the tree and gets strictly higher, unless it is the root. */
  lemma Climb(parent: Parents, rep: map<Id, Id>, height: map<Id, nat>, x: Id)
    requires Forest(parent, rep, height) && x in parent
    ensures parent[x] in parent && rep[parent[x]] == rep[x] && rep[x] in parent && parent[rep[x]] == rep[x]
    ensures rep[rep[x]] == rep[x]
    ensures parent[x] == x <==> rep[x] == x
    ensures parent[x] != x ==> height[x] < height[parent[x]]
  {
    assert Rooted(parent, rep, height, x);
    assert Rooted(parent, rep, height, rep[x]);
  }

  /** Pointing a node at its root keeps the forest and every root. */
  lemma Compress(parent: Parents, rep: map<Id, Id>, height: map<Id, nat>, x: Id)
    requires Forest(parent, rep, height) && x in parent
    ensures Forest(parent[x := rep[x]], rep, height)
  {
    var next := parent[x := rep[x]];
    assert Rooted(parent, rep, height, x);
    assert Rooted(parent, rep, height, rep[x]);
    forall y | y in next ensures Rooted(next, rep, height, y) {
      assert Rooted(parent, rep, height, y);
      assert Rooted(parent, rep, height, rep[y]);
    }
  }

  ghost function Merged(rep: map<Id, Id>, ra: Id, rb: Id): map<Id, Id> {
    map x <- rep :: if rep[x] == rb then ra else rep[x]
  }

  ghost function Raised(height: map<Id, nat>, ra: Id, rb: Id): map<Id, nat>
    requires ra in height && rb in height
  {
    height[ra := height[ra] + height[rb] + 1]
  }

  lemma LinkOne(parent: Parents, rep: map<Id, Id>, height: map<Id, nat>, ra: Id, rb: Id, y: Id)
    requires rep.Keys == parent.Keys && height.Keys == parent.Keys && ra in parent && rb in parent && ra != rb
               && y in parent
    requires Rooted(parent, rep, height, y) && Rooted(parent, rep, height, rep[y]) && Rooted(parent, rep, height, ra)
    requires rep[ra] == ra && rep[rb] == rb
    ensures Rooted(parent[rb := ra], Merged(rep, ra, rb), Raised(height, ra, rb), y)
  {
    var next, merged, raised := parent[rb := ra], Merged(rep, ra, rb), Raised(height, ra, rb);
    assert raised[ra] > height[ra] && raised[ra] > height[rb];
    if y == rb {
      assert merged[y] == ra;
    } else if rep[y] == rb {
      assert merged[y] == ra && merged[parent[y]] == ra;
    } else {
      assert merged[y] == rep[y] && merged[parent[y]] == rep[y];
    }
  }

  /** Hanging one root under another merges their classes. */
  lemma Link(parent: Parents, rep: map<Id, Id>, height: map<Id, nat>, ra: Id, rb: Id)
    requires Forest(parent, rep, height) && ra in parent && rb in parent && ra != rb
    requires rep[ra] == ra && rep[rb] == rb
    ensures Forest(parent[rb := ra], Merged(rep, ra, rb), Raised(height, ra, rb))
  {
    var next, merged, raised := parent[rb := ra], Merged(rep, ra, rb), Raised(height, ra, rb);
    assert Rooted(parent, rep, height, ra);
    forall y | y in next ensures Rooted(next, merged, raised, y) {
      assert Rooted(parent, rep, height, y);
      assert Rooted(parent, rep, height, rep[y]);
      LinkOne(parent, rep, height, ra, rb, y);
    }
  }

  ghost function Highest(height: map<Id, nat>): (top: nat)
    ensures forall x <- height :: height[x] <= top
  {
    if height == map[] then 0
    else
      var x :| x in height;
      var rest := Highest(height - {x});
      assert forall y <- height :: y == x || (y in height - {x} && height[y] == (height - {x})[y]);
      if height[x] > rest then height[x] else rest
  }

  /** The classes of the forest are the components of the edges that have been processed. */
  ghost predicate Components(nodes: set<Id>, edges: seq<Edge>, rep: map<Id, Id>) {
    && rep.Keys == nodes
    && forall a, b | a in nodes && b in nodes :: rep[a] == rep[b] <==> Connected(nodes, edges, a, b)
  }

  /** The disjoint-set table of one colouring; `find` compresses paths in place. */
  class DisjointSets {
    var parent: Parents
    ghost var rep: map<Id, Id>
    ghost var height: map<Id, nat>

    ghost predicate Valid()
      reads this
    {
      Forest(parent, rep, height)
    }

    constructor (ids: seq<Id>)
      ensures Valid() && parent.Keys == NodeSet(ids)
      ensures forall id <- parent :: rep[id] == id
    {
      parent := map id <- ids :: id;
      rep := map id <- ids :: id;
      height := map id <- ids :: 0;
    }

    /** The root of a node. Compression rewrites parents but changes the root of no node. */
    method Find(id: Id) returns (root: Id)
      requires Valid() && id in parent
      modifies this`parent
      ensures Valid() && parent.Keys == old(parent.Keys)
      ensures root == rep[id] && root in rep && rep[root] == root
    {
      root := id;
      while parent[root] != root
        invariant Valid() && parent == old(parent)
        invariant root in parent && rep[root] == rep[id]
        decreases Highest(height) - height[root]
      {
        Climb(parent, rep, height, root);
        root := parent[root];
      }
      Climb(parent, rep, height, root);
      var cur := id;
      while parent[cur] != root
        invariant Valid() && parent.Keys == old(parent.Keys)
        invariant cur in parent && rep[cur] == root && rep[root] == root
        decreases Highest(height) - height[cur]
      {
        Climb(parent, rep, height, cur);
        var next := parent[cur];
        Compress(parent, rep, height, cur);
        parent := parent[cur := root];
        cur := next;
      }
    }

    /** Hang the root of `b` under the root of `a`: exactly the two classes merge. */
    method Unite(a: Id, b: Id)
      requires Valid() && a in parent && b in parent
      modifies this
      ensures Valid() && parent.Keys == old(parent.Keys)
      ensures rep == Merged(old(rep), old(rep)[a], old(rep)[b])
    {
      Climb(parent, rep, height, a);
      var ra := Find(a);
      var rb := Find(b);
      if ra != rb {
        Climb(parent, rep, height, a);
        Climb(parent, rep, height, b);
        Link(parent, rep, height, ra, rb);
        parent := parent[rb := ra];
        height := Raised(height, ra, rb);
        rep := Merged(rep, ra, rb);
      } else {
        assert Merged(rep, ra, rb) == rep;
      }
    }
  }

  /** One more edge inside the nodes merges exactly the components of its ends. */
  lemma ComponentsStep(nodes: set<Id>, edges: seq<Edge>, e: Edge, rep: map<Id, Id>)
    requires Components(nodes, edges, rep) && forall x <- nodes :: rep[x] in nodes && rep[rep[x]] == rep[x]
    requires e.source in nodes && e.target in nodes
    ensures Components(nodes, edges + [e], Merged(rep, rep[e.source], rep[e.target]))
  {
    var ra, rb := rep[e.source], rep[e.target];
    var merged := Merged(rep, ra, rb);
    var before, after := Links(nodes, edges), Links(nodes, edges + [e]);
    assert before <= after;
    assert (e.source, e.target) in after && (e.target, e.source) in after;
    forall a, b | a in nodes && b in nodes ensures merged[a] == merged[b] <==> Connected(nodes, edges + [e], a, b) {
      if merged[a] == merged[b] {
        MergedConnected(nodes, edges, e, rep, a, b);
      }
      if Reaches(after, a, b) {
        var n: nat :| Walk(after, a, b, n);
        WalkSameClass(nodes, edges, e, rep, a, b, n);
      }
    }
  }

  lemma MergedConnected(nodes: set<Id>, edges: seq<Edge>, e: Edge, rep: map<Id, Id>, a: Id, b: Id)
    requires Components(nodes, edges, rep) && e.source in nodes && e.target in nodes && a in nodes && b in nodes
    requires var merged := Merged(rep, rep[e.source], rep[e.target]); merged[a] == merged[b]
    ensures Connected(nodes, edges + [e], a, b)
  {
    var more := edges + [e];
    var before, after := Links(nodes, edges), Links(nodes, more);
    assert before <= after;
    ReachesSelf(after, e.source);
    ReachesSelf(after, e.target);
    assert (e.source, e.target) in after && (e.target, e.source) in after;
    ReachesStep(after, e.source, e.source, e.target);
    ReachesStep(after, e.target, e.target, e.source);
    if rep[a] == rep[b] {
      ReachesMonotone(before, after, a, b);
    } else if rep[a] == rep[e.source] {
      ReachesMonotone(before, after, a, e.source);
      ReachesMonotone(before, after, e.target, b);
      ConnectedThrough(nodes, more, a, e.source, e.target);
      ConnectedThrough(nodes, more, a, e.target, b);
    } else {
      ReachesMonotone(before, after, a, e.target);
      ReachesMonotone(before, after, e.source, b);
      ConnectedThrough(nodes, more, a, e.target, e.source);
      ConnectedThrough(nodes, more, a, e.source, b);
    }
  }

  lemma LinkSameClass(nodes: set<Id>, edges: seq<Edge>, e: Edge, rep: map<Id, Id>, m: Id, b: Id)
    requires Components(nodes, edges, rep) && e.source in nodes && e.target in nodes
    requires (m, b) in Links(nodes, edges + [e])
    ensures m in nodes && b in nodes
    ensures var merged := Merged(rep, rep[e.source], rep[e.target]); merged[m] == merged[b]
  {
    if (m, b) in Links(nodes, edges) {
      ReachesSelf(Links(nodes, edges), m);
      ReachesStep(Links(nodes, edges), m, m, b);
    } else {
      assert (m, b) == (e.source, e.target) || (m, b) == (e.target, e.source);
    }
  }

  lemma {:induction false} WalkSameClass(nodes: set<Id>, edges: seq<Edge>, e: Edge, rep: map<Id, Id>, a: Id, b: Id,
                                         n: nat)
    requires Components(nodes, edges, rep) && e.source in nodes && e.target in nodes && a in nodes
    requires Walk(Links(nodes, edges + [e]), a, b, n)
    ensures b in nodes
    ensures var merged := Merged(rep, rep[e.source], rep[e.target]); merged[a] == merged[b]
    decreases n
  {
    if n > 0 {
      var m :| Walk(Links(nodes, edges + [e]), a, m, n - 1) && (m, b) in Links(nodes, edges + [e]);
      WalkSameClass(nodes, edges, e, rep, a, m, n - 1);
      LinkSameClass(nodes, edges, e, rep, m, b);
    }
  }

  lemma ComponentsSkip(nodes: set<Id>, edges: seq<Edge>, e: Edge, rep: map<Id, Id>)
    requires Components(nodes, edges, rep) && !(e.source in nodes && e.target in nodes)
    ensures Components(nodes, edges + [e], rep)
  {
    assert Links(nodes, edges + [e]) == Links(nodes, edges);
  }

  lemma ComponentsStart(nodes: set<Id>, rep: map<Id, Id>)
    requires rep.Keys == nodes && forall x <- nodes :: rep[x] == x
    ensures Components(nodes, [], rep)
  {
    forall a, b | a in nodes && b in nodes ensures rep[a] == rep[b] <==> Connected(nodes, [], a, b) {
      ReachesSelf(Links(nodes, []), a);
      if Connected(nodes, [], a, b) {
        var n: nat :| Walk(Links(nodes, []), a, b, n);
        assert n == 0;
      }
    }
  }

  /** Process all edges: afterwards two nodes have one root exactly when they are connected. */
  method UniteAll(ids: seq<Id>, edges: seq<Edge>) returns (sets: DisjointSets)
    ensures fresh(sets) && sets.Valid() && Components(NodeSet(ids), edges, sets.rep)
  {
    ghost var nodes := NodeSet(ids);
    sets := new DisjointSets(ids);
    ComponentsStart(nodes, sets.rep);
    for i := 0 to |edges|
      invariant sets.Valid() && Components(nodes, edges[..i], sets.rep)
    {
      var e := edges[i];
      assert edges[..i + 1] == edges[..i] + [e];
      if e.source in sets.parent && e.target in sets.parent {
        forall x <- nodes ensures sets.rep[x] in nodes && sets.rep[sets.rep[x]] == sets.rep[x] {
          Climb(sets.parent, sets.rep, sets.height, x);
        }
        ComponentsStep(nodes, edges[..i], e, sets.rep);
        sets.Unite(e.source, e.target);
      } else {
        ComponentsSkip(nodes, edges[..i], e, sets.rep);
      }
    }
    assert edges[..|edges|] == edges;
  }

  // ---------------------------------------------------------------- numbering and colours

  ghost predicate IsLeader(roots: map<Id, nat>, leaders: seq<Id>, rep: map<Id, Id>, k: int) {
    0 <= k < |leaders| && leaders[k] in rep && rep[leaders[k]] in roots && roots[rep[leaders[k]]] == k
  }

  ghost predicate HasLeader(roots: map<Id, nat>, leaders: seq<Id>, rep: map<Id, Id>, r: Id) {
    r in roots && roots[r] < |leaders| && leaders[roots[r]] in rep && rep[leaders[roots[r]]] == r
  }

  /** Roots are numbered 0, 1, 2, ... in the order in which `leaders`, the first node of each component, come up. */
  ghost predicate Numbered(roots: map<Id, nat>, leaders: seq<Id>, rep: map<Id, Id>) {
    && |roots| == |leaders|
    && (forall k {:trigger IsLeader(roots, leaders, rep, k)} | 0 <= k < |leaders| :: IsLeader(roots, leaders, rep, k))
    && (forall r {:trigger HasLeader(roots, leaders, rep, r)} | r in roots :: HasLeader(roots, leaders, rep, r))
  }

  /** The nodes that come before every other node of their class. */
  ghost function FirstOfEachClass(rep: map<Id, Id>, ids: seq<Id>): seq<Id>
    requires forall id <- ids :: id in rep
    ensures forall id <- FirstOfEachClass(rep, ids) :: id in ids
  {
    if ids == [] then []
    else
      var before, last := FirstOfEachClass(rep, ids[..|ids| - 1]), ids[|ids| - 1];
      if exists l <- before :: rep[l] == rep[last] then before else before + [last]
  }

  /** The nodes that come before every other node of their component. */
  ghost function Leaders(nodes: set<Id>, edges: seq<Edge>, ids: seq<Id>): seq<Id>
    ensures forall id <- Leaders(nodes, edges, ids) :: id in ids
  {
    if ids == [] then []
    else
      var before, last := Leaders(nodes, edges, ids[..|ids| - 1]), ids[|ids| - 1];
      if exists l <- before :: Connected(nodes, edges, l, last) then before else before + [last]
  }

  lemma {:induction false} ClassesAreComponents(nodes: set<Id>, edges: seq<Edge>, rep: map<Id, Id>, ids: seq<Id>)
    requires Components(nodes, edges, rep) && forall id <- ids :: id in nodes
    ensures FirstOfEachClass(rep, ids) == Leaders(nodes, edges, ids)
  {
    if ids != [] {
      ClassesAreComponents(nodes, edges, rep, ids[..|ids| - 1]);
      var before, last := Leaders(nodes, edges, ids[..|ids| - 1]), ids[|ids| - 1];
      assert forall l <- before :: rep[l] == rep[last] <==> Connected(nodes, edges, l, last);
    }
  }

  lemma NumberedKnows(roots: map<Id, nat>, leaders: seq<Id>, rep: map<Id, Id>, r: Id)
    requires Numbered(roots, leaders, rep)
    ensures r in roots <==> exists l <- leaders :: l in rep && rep[l] == r
  {
    if r in roots {
      assert HasLeader(roots, leaders, rep, r);
      assert leaders[roots[r]] in leaders;
    }
    if l :| l in leaders && l in rep && rep[l] == r {
      var k :| 0 <= k < |leaders| && leaders[k] == l;
      assert IsLeader(roots, leaders, rep, k);
    }
  }

  lemma NumberedNext(roots: map<Id, nat>, leaders: seq<Id>, rep: map<Id, Id>, id: Id)
    requires Numbered(roots, leaders, rep) && id in rep && rep[id] !in roots
    ensures Numbered(roots[rep[id] := |roots|], leaders + [id], rep)
  {
    var roots', leaders' := roots[rep[id] := |roots|], leaders + [id];
    forall k | 0 <= k < |leaders'| ensures IsLeader(roots', leaders', rep, k) {
      assert k < |leaders| ==> IsLeader(roots, leaders, rep, k);
    }
    forall r | r in roots' ensures HasLeader(roots', leaders', rep, r) {
      assert r in roots ==> HasLeader(roots, leaders, rep, r);
    }
  }

  /** The state of the numbering after the nodes `ids`. */
  ghost predicate Numbering(rep: map<Id, Id>, ids: seq<Id>, roots: map<Id, nat>, leaders: seq<Id>) {
    && (forall id <- ids :: id in rep && rep[id] in roots)
    && Numbered(roots, leaders, rep) && leaders == FirstOfEachClass(rep, ids)
  }

  lemma NumberingNext(rep: map<Id, Id>, ids: seq<Id>, roots: map<Id, nat>, leaders: seq<Id>, id: Id)
    requires Numbering(rep, ids, roots, leaders) && id in rep
    ensures if rep[id] in roots then Numbering(rep, ids + [id], roots, leaders)
            else Numbering(rep, ids + [id], roots[rep[id] := |roots|], leaders + [id])
  {
    assert (ids + [id])[..|ids|] == ids;
    NumberedKnows(roots, leaders, rep, rep[id]);
    if rep[id] !in roots {
      NumberedNext(roots, leaders, rep, id);
    }
  }

  /** Number the class of one more node, unless it has a number already. */
  method NumberOne(ghost seen: seq<Id>, id: Id, sets: DisjointSets, roots: map<Id, nat>, ghost leaders: seq<Id>)
    returns (roots': map<Id, nat>, ghost leaders': seq<Id>)
    requires sets.Valid() && id in sets.parent && Numbering(sets.rep, seen, roots, leaders)
    modifies sets`parent
    ensures sets.Valid() && sets.parent.Keys == old(sets.parent.Keys)
    ensures Numbering(sets.rep, seen + [id], roots', leaders')
  {
    roots', leaders' := roots, leaders;
    NumberingNext(sets.rep, seen, roots, leaders, id);
    var r := sets.Find(id);
    if r !in roots {
      roots' := roots[r := |roots|];
      leaders' := leaders + [id];
    }
  }

  method NumberRoots(ids: seq<Id>, sets: DisjointSets) returns (roots: map<Id, nat>, ghost leaders: seq<Id>)
    requires sets.Valid() && forall i | 0 <= i < |ids| :: ids[i] in sets.parent
    modifies sets`parent
    ensures sets.Valid() && sets.parent.Keys == old(sets.parent.Keys)
    ensures Numbering(sets.rep, ids, roots, leaders)
  {
    roots, leaders := map[], [];
    ghost var seen: seq<Id> := [];
    for i := 0 to |ids|
      invariant sets.Valid() && sets.parent.Keys == old(sets.parent.Keys)
      invariant seen == ids[..i] && Numbering(sets.rep, seen, roots, leaders)
    {
      roots, leaders := NumberOne(seen, ids[i], sets, roots, leaders);
      seen := seen + [ids[i]];
    }
    assert seen == ids;
  }

  /** Colours follow component numbers, and component numbers are dense and follow connectedness. */
  ghost predicate ColoredByComponent(nodes: set<Id>, edges: seq<Edge>, palette: nat -> string, colors: map<Id, string>,
                                     number: map<Id, nat>, leaders: seq<Id>) {
    && NumberedByComponent(nodes, edges, number, leaders)
    && colors.Keys == nodes && forall id <- nodes :: colors[id] == palette(number[id])
  }

  /**
   Every node has the palette colour of its component's number; components are numbered as their first nodes come up.
   */
  ghost predicate IsColoring(ids: seq<Id>, edges: seq<Edge>, palette: nat -> string, colors: map<Id, string>) {
    exists number :: ColoredByComponent(NodeSet(ids), edges, palette, colors, number, Leaders(NodeSet(ids), edges, ids))
  }

  /** The colouring of the nodes by their components. */
  method ComponentColors(ids: seq<Id>, edges: seq<Edge>) returns (colors: map<Id, string>)
    ensures IsColoring(ids, edges, GraphColors.CommunityColorHex, colors)
  {
    colors := ColorWith(ids, edges, GraphColors.CommunityColorHex);
  }

  method ColorWith(ids: seq<Id>, edges: seq<Edge>, palette: nat -> string) returns (colors: map<Id, string>)
    ensures IsColoring(ids, edges, palette, colors)
  {
    var sets := UniteAll(ids, edges);
    var roots, leaders := NumberRoots(ids, sets);
    ClassesAreComponents(NodeSet(ids), edges, sets.rep, ids);
    ghost var number := Numbers(ids, roots, sets.rep);
    NumbersFollowComponents(edges, sets.rep, ids, roots, leaders);
    colors := PaintAll(ids, sets, roots, palette, number);
    assert ColoredByComponent(NodeSet(ids), edges, palette, colors, number, leaders);
  }

  /** Nodes have the same number exactly when they are connected, and every leader has its own position as number. */
  ghost predicate NumberedByComponent(nodes: set<Id>, edges: seq<Edge>, number: map<Id, nat>, leaders: seq<Id>) {
    && number.Keys == nodes && (forall id <- nodes :: number[id] < |leaders|)
    && (forall a, b | a in nodes && b in nodes :: number[a] == number[b] <==> Connected(nodes, edges, a, b))
    && (forall k | 0 <= k < |leaders| :: leaders[k] in nodes && number[leaders[k]] == k)
  }

  lemma NumbersFollowComponents(edges: seq<Edge>, rep: map<Id, Id>, ids: seq<Id>, roots: map<Id, nat>, leaders: seq<Id>)
    requires Components(NodeSet(ids), edges, rep) && Numbering(rep, ids, roots, leaders)
    ensures NumberedByComponent(NodeSet(ids), edges, Numbers(ids, roots, rep), leaders)
  {
    var nodes, number := NodeSet(ids), Numbers(ids, roots, rep);
    forall id <- nodes ensures number[id] < |leaders| {
      assert HasLeader(roots, leaders, rep, rep[id]);
    }
    forall a, b | a in nodes && b in nodes ensures number[a] == number[b] <==> Connected(nodes, edges, a, b) {
      assert HasLeader(roots, leaders, rep, rep[a]) && HasLeader(roots, leaders, rep, rep[b]);
    }
    forall k | 0 <= k < |leaders| ensures leaders[k] in nodes && number[leaders[k]] == k {
      assert IsLeader(roots, leaders, rep, k);
    }
  }

  ghost function Numbers(ids: seq<Id>, roots: map<Id, nat>, rep: map<Id, Id>): map<Id, nat>
    requires forall id <- ids :: id in rep && rep[id] in roots
  {
    map id <- ids :: roots[rep[id]]
  }

  method PaintAll(ids: seq<Id>, sets: DisjointSets, roots: map<Id, nat>, palette: nat -> string,
                  ghost number: map<Id, nat>)
    returns (colors: map<Id, string>)
    requires sets.Valid() && forall id <- ids :: id in sets.parent && sets.rep[id] in roots
    requires number == Numbers(ids, roots, sets.rep)
    modifies sets`parent
    ensures colors.Keys == NodeSet(ids)
    ensures forall id <- ids :: colors[id] == palette(number[id])
  {
    colors := map[];
    for i := 0 to |ids|
      invariant sets.Valid() && sets.parent.Keys == old(sets.parent.Keys)
      invariant colors.Keys == NodeSet(ids[..i])
      invariant forall id <- colors :: id in number && colors[id] == palette(number[id])
    {
      assert ids[i] in ids;
      assert ids[..i + 1] == ids[..i] + [ids[i]];
      var root := sets.Find(ids[i]);
      var idx := if root in roots then roots[root] else 0;
      colors := colors[ids[i] := palette(idx)];
    }
    assert ids[..|ids|] == ids;
  }

  /** The palette repeats after 360 colours and no sooner. */
  ghost predicate RepeatsAfter360(palette: nat -> string) {
    forall i: nat, j: nat :: palette(i) == palette(j) <==> i % 360 == j % 360
  }

  lemma CommunityPaletteRepeats()
    ensures RepeatsAfter360(GraphColors.CommunityColorHex)
  {
    forall i: nat, j: nat
      ensures GraphColors.CommunityColorHex(i) == GraphColors.CommunityColorHex(j) <==> i % 360 == j % 360
    {
      GraphColors.ColorsRepeat(i, j);
    }
  }

  /** Two nodes share a colour exactly when they are connected. */
  ghost predicate Separates(nodes: set<Id>, edges: seq<Edge>, colors: map<Id, string>)
    requires colors.Keys == nodes
  {
    forall a, b | a in nodes && b in nodes :: colors[a] == colors[b] <==> Connected(nodes, edges, a, b)
  }

  /** The colours tell the components apart exactly when there are at most 360 of them. */
  lemma {:induction false} ColorsSeparateComponents(ids: seq<Id>, edges: seq<Edge>, colors: map<Id, string>)
    requires IsColoring(ids, edges, GraphColors.CommunityColorHex, colors)
    ensures colors.Keys == NodeSet(ids)
    ensures Separates(NodeSet(ids), edges, colors) <==> |Leaders(NodeSet(ids), edges, ids)| <= 360
  {
    CommunityPaletteRepeats();
    PaletteSeparates(ids, edges, GraphColors.CommunityColorHex, colors);
  }

  lemma {:induction false} PaletteSeparates(ids: seq<Id>, edges: seq<Edge>, palette: nat -> string,
                                            colors: map<Id, string>)
    requires IsColoring(ids, edges, palette, colors) && RepeatsAfter360(palette)
    ensures colors.Keys == NodeSet(ids)
    ensures Separates(NodeSet(ids), edges, colors) <==> |Leaders(NodeSet(ids), edges, ids)| <= 360
  {
    var nodes, leaders := NodeSet(ids), Leaders(NodeSet(ids), edges, ids);
    var number :| ColoredByComponent(nodes, edges, palette, colors, number, leaders);
    if |leaders| <= 360 {
      FewComponentsSeparate(nodes, edges, palette, colors, number, leaders);
    } else {
      ManyComponentsCollide(nodes, edges, palette, colors, number, leaders);
    }
  }

  lemma FewComponentsSeparate(nodes: set<Id>, edges: seq<Edge>, palette: nat -> string, colors: map<Id, string>,
                              number: map<Id, nat>, leaders: seq<Id>)
    requires ColoredByComponent(nodes, edges, palette, colors, number, leaders) && RepeatsAfter360(palette)
    requires |leaders| <= 360
    ensures Separates(nodes, edges, colors)
  {
    forall a, b | a in nodes && b in nodes ensures colors[a] == colors[b] <==> Connected(nodes, edges, a, b) {
      SmallIndices(palette, number[a], number[b]);
    }
  }

  lemma SmallIndices(palette: nat -> string, i: nat, j: nat)
    requires RepeatsAfter360(palette) && i < 360 && j < 360
    ensures palette(i) == palette(j) <==> i == j
  {
    assert palette(i) == palette(j) <==> i % 360 == j % 360;
  }

  /** From 361 components on the guarantee is lost: the nodes that lead components 0 and 360 get one colour. */
  lemma ManyComponentsCollide(nodes: set<Id>, edges: seq<Edge>, palette: nat -> string, colors: map<Id, string>,
                              number: map<Id, nat>, leaders: seq<Id>)
    requires ColoredByComponent(nodes, edges, palette, colors, number, leaders) && RepeatsAfter360(palette)
    requires |leaders| > 360
    ensures leaders[0] in nodes && leaders[360] in nodes
    ensures !Connected(nodes, edges, leaders[0], leaders[360]) && colors[leaders[0]] == colors[leaders[360]]
  {
    var a, b := leaders[0], leaders[360];
    assert number[a] == 0 && number[b] == 360;
    assert palette(0) == palette(360);
  }

  /** The node at position `i` comes before every other node of its component. */
  ghost predicate ComesFirst(nodes: set<Id>, edges: seq<Edge>, ids: seq<Id>, i: nat) {
    i < |ids| && forall j | 0 <= j < i :: !Connected(nodes, edges, ids[j], ids[i])
  }

  /** The leaders are all the nodes that come first in their components, listed as they come up. */
  ghost predicate ListsFirsts(nodes: set<Id>, edges: seq<Edge>, ids: seq<Id>, at: seq<nat>, leaders: seq<Id>) {
    && |at| == |leaders| && (forall k | 0 <= k < |at| :: at[k] < |ids| && leaders[k] == ids[at[k]])
    && (forall k, l | 0 <= k < l < |at| :: at[k] < at[l])
    && (forall i | 0 <= i < |ids| :: i in at <==> ComesFirst(nodes, edges, ids, i))
  }

  /** Some earlier node is connected to the last one exactly if some leader of the earlier nodes is. */
  lemma {:induction false} LeaderOrEarlier(nodes: set<Id>, edges: seq<Edge>, ids: seq<Id>, id: Id)
    ensures (exists l <- Leaders(nodes, edges, ids) :: Connected(nodes, edges, l, id))
       <==> exists j | 0 <= j < |ids| :: Connected(nodes, edges, ids[j], id)
  {
    if ids != [] {
      var n := |ids| - 1;
      var before := Leaders(nodes, edges, ids[..n]);
      LeaderOrEarlier(nodes, edges, ids[..n], id);
      assert Leaders(nodes, edges, ids) == before || Leaders(nodes, edges, ids) == before + [ids[n]];
      if Connected(nodes, edges, ids[n], id) && Leaders(nodes, edges, ids) == before {
        var l :| l in before && Connected(nodes, edges, l, ids[n]);
        ConnectedThrough(nodes, edges, l, ids[n], id);
      }
      if l :| l in Leaders(nodes, edges, ids) && Connected(nodes, edges, l, id) {
        var j :| 0 <= j < |ids| && ids[j] == l;
      }
      if j :| 0 <= j < n && Connected(nodes, edges, ids[j], id) {
        assert ids[..n][j] == ids[j];
        var l :| l in before && Connected(nodes, edges, l, id);
      }
    }
  }

  lemma {:induction false} FirstsOneMore(nodes: set<Id>, edges: seq<Edge>, ids: seq<Id>, at: seq<nat>, leaders: seq<Id>)
    requires ids != [] && ListsFirsts(nodes, edges, ids[..|ids| - 1], at, leaders)
    ensures var n := |ids| - 1;
            if ComesFirst(nodes, edges, ids, n) then ListsFirsts(nodes, edges, ids, at + [n], leaders + [ids[n]])
            else ListsFirsts(nodes, edges, ids, at, leaders)
  {
    var n := |ids| - 1;
    forall i | 0 <= i < n ensures ComesFirst(nodes, edges, ids, i) <==> ComesFirst(nodes, edges, ids[..n], i) {
      assert ids[i] == ids[..n][i] && forall j | 0 <= j < i :: ids[j] == ids[..n][j];
    }
  }

  lemma {:induction false} LeadersComeFirst(nodes: set<Id>, edges: seq<Edge>, ids: seq<Id>) returns (at: seq<nat>)
    ensures ListsFirsts(nodes, edges, ids, at, Leaders(nodes, edges, ids))
  {
    at := [];
    if ids != [] {
      var n := |ids| - 1;
      at := LeadersComeFirst(nodes, edges, ids[..n]);
      LeaderOrEarlier(nodes, edges, ids[..n], ids[n]);
      assert ComesFirst(nodes, edges, ids, n)
        <==> !exists j | 0 <= j < n :: Connected(nodes, edges, ids[..n][j], ids[n]);
      FirstsOneMore(nodes, edges, ids, at, Leaders(nodes, edges, ids[..n]));
      if ComesFirst(nodes, edges, ids, n) {
        at := at + [n];
      }
    }
  }

  /** All nodes of the `k`-th component to come up have the `k`-th colour of the palette. */
  lemma {:induction false} ComponentColor(ids: seq<Id>, edges: seq<Edge>, palette: nat -> string,
                                          colors: map<Id, string>, k: nat, id: Id)
    requires IsColoring(ids, edges, palette, colors) && k < |Leaders(NodeSet(ids), edges, ids)|
    requires id in ids && Connected(NodeSet(ids), edges, Leaders(NodeSet(ids), edges, ids)[k], id)
    ensures id in colors && colors[id] == palette(k)
  {
    var leaders := Leaders(NodeSet(ids), edges, ids);
    var number :| ColoredByComponent(NodeSet(ids), edges, palette, colors, number, leaders);
    assert leaders[k] in NodeSet(ids) && number[leaders[k]] == k;
  }

  lemma NoLinks(nodes: set<Id>, a: Id, b: Id)
    requires Connected(nodes, [], a, b)
    ensures a == b
  {
    var n: nat :| Walk(Links(nodes, []), a, b, n);
    assert Links(nodes, []) == {};
  }

  /** Without edges every node is a component of its own. */
  lemma {:induction false} LonelyLeaders(nodes: set<Id>, ids: seq<Id>)
    requires forall i, j | 0 <= i < j < |ids| :: ids[i] != ids[j]
    ensures Leaders(nodes, [], ids) == ids
  {
    if ids != [] {
      var n := |ids| - 1;
      LonelyLeaders(nodes, ids[..n]);
      forall l <- ids[..n] | Connected(nodes, [], l, ids[n]) ensures l == ids[n] {
        NoLinks(nodes, l, ids[n]);
      }
      assert ids == ids[..n] + [ids[n]];
    }
  }

  /** There are nodes that the colours do not tell apart: 361 of them without edges, whatever their colouring. */
  lemma ColorsCanCollide() returns (ids: seq<Id>)
    ensures |ids| == 361
    ensures forall colors | IsColoring(ids, [], GraphColors.CommunityColorHex, colors) ::
              colors.Keys == NodeSet(ids) && !Separates(NodeSet(ids), [], colors)
  {
    ids := seq(361, i requires 0 <= i => seq(i, _ => 'a'));
    assert forall i | 0 <= i < |ids| :: |ids[i]| == i;
    LonelyLeaders(NodeSet(ids), ids);
    forall colors | IsColoring(ids, [], GraphColors.CommunityColorHex, colors)
      ensures colors.Keys == NodeSet(ids) && !Separates(NodeSet(ids), [], colors)
    {
      ColorsSeparateComponents(ids, [], colors);
    }
  }
}
