/** The program slicer of the dashboard (dashboard/src/sliceEngine.ts). */
module SliceEngine {
  import opened Wrappers
  import opened Walks
  import opened Ordering

  datatype PdgNode = PdgNode(
    id: string, line: int, text: string, kind: string, blockIndex: Option<int>, defined: seq<string>, used: seq<string>)

  datatype PdgEdge = PdgEdge(source: string, target: string, kind: string, variable: Option<string>)
  {
    function Flipped(): PdgEdge {
      PdgEdge(target, source, kind, variable)
    }
  }

  datatype Direction = Backward | Forward

  datatype Slice = Slice(
    line: int, variable: string, direction: Direction, reductionPercent: real,
    lines: seq<int>, nodes: seq<PdgNode>, edges: seq<PdgEdge>)

  predicate Matches(n: PdgNode, line: int, variable: string) {
    n.line == line && (variable in n.defined || variable in n.used)
  }

  /** The arcs along which a slice grows: forwards from source to target, backwards from target to source. */
  ghost function SliceArcs(edges: seq<PdgEdge>, direction: Direction): Arcs<string> {
    match direction
    case Forward => set e <- edges :: (e.source, e.target)
    case Backward => set e <- edges :: (e.target, e.source)
  }

  /** The ids that the slice of one criterion is made of. */
  ghost predicate InSlice(edges: seq<PdgEdge>, direction: Direction, criterion: string, id: string) {
    Reaches(SliceArcs(edges, direction), criterion, id)
  }

  function FilterNodes(nodes: seq<PdgNode>, ids: set<string>): seq<PdgNode> {
    if nodes == [] then []
    else FilterNodes(nodes[..|nodes| - 1], ids) + if nodes[|nodes| - 1].id in ids then [nodes[|nodes| - 1]] else []
  }

  function FilterEdges(edges: seq<PdgEdge>, ids: set<string>): seq<PdgEdge> {
    if edges == [] then []
    else
      var e := edges[|edges| - 1];
      FilterEdges(edges[..|edges| - 1], ids) + if e.source in ids && e.target in ids then [e] else []
  }

  /** `picked` are the elements of `all` at the positions `at`, in their given order. */
  ghost predicate Picks<T>(all: seq<T>, picked: seq<T>, at: seq<nat>) {
    && |at| == |picked| && (forall k | 0 <= k < |at| :: at[k] < |all| && picked[k] == all[at[k]])
    && (forall k, l | 0 <= k < l < |at| :: at[k] < at[l])
  }

  lemma PicksMore<T>(all: seq<T>, picked: seq<T>, at: seq<nat>, last: bool)
    requires all != [] && Picks(all[..|all| - 1], picked, at)
    ensures var n := |all| - 1;
            && Picks(all, picked + if last then [all[n]] else [], at + if last then [n] else [])
            && (n in at + (if last then [n] else []) <==> last)
            && (forall i | 0 <= i < n :: i in at + (if last then [n] else []) <==> i in at)
  {
  }

  lemma {:induction false} FilterNodesPicks(nodes: seq<PdgNode>, ids: set<string>) returns (at: seq<nat>)
    ensures Picks(nodes, FilterNodes(nodes, ids), at)
    ensures forall i | 0 <= i < |nodes| :: i in at <==> nodes[i].id in ids
  {
    at := [];
    if nodes != [] {
      var n := |nodes| - 1;
      var before := FilterNodesPicks(nodes[..n], ids);
      var last := nodes[n].id in ids;
      PicksMore(nodes, FilterNodes(nodes[..n], ids), before, last);
      at := before + if last then [n] else [];
    }
  }

  lemma {:induction false} FilterEdgesPicks(edges: seq<PdgEdge>, ids: set<string>) returns (at: seq<nat>)
    ensures Picks(edges, FilterEdges(edges, ids), at)
    ensures forall i | 0 <= i < |edges| :: i in at <==> Between(edges[i], ids)
  {
    at := [];
    if edges != [] {
      var n := |edges| - 1;
      var before := FilterEdgesPicks(edges[..n], ids);
      var last := Between(edges[n], ids);
      PicksMore(edges, FilterEdges(edges[..n], ids), before, last);
      at := before + if last then [n] else [];
    }
  }

  predicate Between(e: PdgEdge, ids: set<string>) {
    e.source in ids && e.target in ids
  }

  lemma {:induction false} FilterNodesKeeps(nodes: seq<PdgNode>, ids: set<string>)
    ensures forall n :: n in FilterNodes(nodes, ids) <==> n in nodes && n.id in ids
  {
    if nodes != [] {
      var rest := nodes[..|nodes| - 1];
      FilterNodesKeeps(rest, ids);
      assert nodes == rest + [nodes[|nodes| - 1]];
    }
  }

  lemma {:induction false} FilterEdgesInduced(edges: seq<PdgEdge>, ids: set<string>)
    ensures forall e :: e in FilterEdges(edges, ids) <==> e in edges && e.source in ids && e.target in ids
  {
    if edges != [] {
      var rest := edges[..|edges| - 1];
      FilterEdgesInduced(rest, ids);
      assert edges == rest + [edges[|edges| - 1]];
    }
  }

  /** The first node at the line that touches the variable. */
  method FindCriterion(nodes: seq<PdgNode>, line: int, variable: string) returns (found: Option<PdgNode>)
    ensures found.None? <==> forall n <- nodes :: !Matches(n, line, variable)
    ensures found.Some? ==> IsCriterion(nodes, line, variable, found.value)
  {
    for i := 0 to |nodes|
      invariant forall j | 0 <= j < i :: !Matches(nodes[j], line, variable)
    {
      if Matches(nodes[i], line, variable) {
        return Some(nodes[i]);
      }
    }
    return None;
  }

  ghost predicate IsCriterion(nodes: seq<PdgNode>, line: int, variable: string, n: PdgNode) {
    exists i | 0 <= i < |nodes| ::
      && nodes[i] == n && Matches(n, line, variable)
      && forall j | 0 <= j < i :: !Matches(nodes[j], line, variable)
  }

  lemma CriterionUnique(nodes: seq<PdgNode>, line: int, variable: string, n: PdgNode, m: PdgNode)
    requires IsCriterion(nodes, line, variable, n) && IsCriterion(nodes, line, variable, m)
    ensures n == m
  {
  }

  /** Push the far ends of the edges at `id`, in edge order; the queue may hold an id many times. */
  method Enqueue(edges: seq<PdgEdge>, direction: Direction, id: string, queue: seq<string>) returns (grown: seq<string>)
    ensures |grown| >= |queue| && grown[..|queue|] == queue
    ensures forall x :: x in grown <==> x in queue || (id, x) in SliceArcs(edges, direction)
  {
    grown := queue;
    for i := 0 to |edges|
      invariant |grown| >= |queue| && grown[..|queue|] == queue
      invariant forall x :: x in grown <==> x in queue || (id, x) in SliceArcs(edges[..i], direction)
    {
      var e := edges[i];
      assert edges[..i + 1] == edges[..i] + [e];
      if direction.Backward? {
        if e.target == id {
          grown := grown + [e.source];
        }
      } else {
        if e.source == id {
          grown := grown + [e.target];
        }
      }
    }
    assert edges[..|edges|] == edges;
  }

  /** The worklist: every id reachable from the criterion, and no other. */
  method Closure(edges: seq<PdgEdge>, direction: Direction, criterion: string) returns (sliceNodes: set<string>)
    ensures forall id :: id in sliceNodes <==> InSlice(edges, direction, criterion, id)
  {
    ghost var arcs := SliceArcs(edges, direction);
    ghost var universe := {criterion} + (set arc <- arcs :: arc.1);
    ReachesSelf(arcs, criterion);
    sliceNodes := {};
    var queue := [criterion];
    while queue != []
      invariant criterion in sliceNodes || criterion in queue
      invariant forall id | id in sliceNodes || id in queue :: id in universe && Reaches(arcs, criterion, id)
      invariant forall arc <- arcs | arc.0 in sliceNodes :: arc.1 in sliceNodes || arc.1 in queue
      decreases |universe - sliceNodes|, |queue|
    {
      var id := queue[0];
      assert forall x :: x in queue <==> x == id || x in queue[1..];
      queue := queue[1..];
      if id in sliceNodes {
        continue;
      }
      assert universe - sliceNodes == (universe - (sliceNodes + {id})) + {id};
      sliceNodes := sliceNodes + {id};
      forall x | (id, x) in arcs ensures Reaches(arcs, criterion, x) {
        ReachesStep(arcs, criterion, id, x);
      }
      queue := Enqueue(edges, direction, id, queue);
    }
    forall id | InSlice(edges, direction, criterion, id) ensures id in sliceNodes {
      ReachesStaysInside(arcs, sliceNodes, criterion, id);
    }
  }

  /** What a slice of a criterion node is, whichever way it was computed. */
  ghost predicate IsSlice(nodes: seq<PdgNode>, edges: seq<PdgEdge>, totalLines: int, criterion: PdgNode, s: Slice) {
    && (forall n :: n in s.nodes <==> n in nodes && InSlice(edges, s.direction, criterion.id, n.id))
    && (forall e :: e in s.edges <==>
          e in edges && InSlice(edges, s.direction, criterion.id, e.source)
            && InSlice(edges, s.direction, criterion.id, e.target))
    && StrictlyIncreasing(s.lines)
    && (forall l :: l in s.lines <==> exists n <- s.nodes :: n.line == l)
    && (s.reductionPercent == if totalLines <= 0 then 0.0 else 100.0 * (1.0 - |s.lines| as real / totalLines as real))
  }

  /** Nodes and edges stand in their given order. */
  ghost predicate InOrder(nodes: seq<PdgNode>, edges: seq<PdgEdge>, s: Slice) {
    exists ids :: s.nodes == FilterNodes(nodes, ids) && s.edges == FilterEdges(edges, ids)
  }

  /** The slice that a request asks for. */
  ghost predicate IsSliceOf(nodes: seq<PdgNode>, edges: seq<PdgEdge>, line: int, variable: string,
                            direction: Direction, totalLines: int, s: Slice) {
    && s.line == line && s.variable == variable && s.direction == direction
    && line in s.lines && InOrder(nodes, edges, s)
    && exists criterion ::
         IsCriterion(nodes, line, variable, criterion) && IsSlice(nodes, edges, totalLines, criterion, s)
  }

  /** The slice: nodes and edges of the induced subgraph in their given order, and its lines sorted. */
  method ComputeSlice(nodes: seq<PdgNode>, edges: seq<PdgEdge>, line: int, variable: string, direction: Direction,
                      totalLines: int)
    returns (r: Result<Slice>)
    ensures r.Err? <==> !exists n <- nodes :: n.line == line && (variable in n.defined || variable in n.used)
    ensures r.Ok? ==> IsSliceOf(nodes, edges, line, variable, direction, totalLines, r.value)
  {
    var found := FindCriterion(nodes, line, variable);
    if found.None? {
      return Err("No PDG node for the variable at the line");
    }
    var criterion := found.value;
    var sliceNodes := Closure(edges, direction, criterion.id);

    var lineSet: set<int> := {};
    for i := 0 to |nodes|
      invariant forall l :: l in lineSet <==> exists j | 0 <= j < i :: nodes[j].id in sliceNodes && nodes[j].line == l
    {
      if nodes[i].id in sliceNodes {
        lineSet := lineSet + {nodes[i].line};
      }
    }
    var lines := Ascending(lineSet);
    var reduction := if totalLines <= 0 then 0.0 else 100.0 * (1.0 - |lineSet| as real / totalLines as real);
    var slice := Slice(line, variable, direction, reduction, lines, FilterNodes(nodes, sliceNodes),
      FilterEdges(edges, sliceNodes));
    FilterNodesKeeps(nodes, sliceNodes);
    FilterEdgesInduced(edges, sliceNodes);
    forall l ensures l in slice.lines <==> exists n <- slice.nodes :: n.line == l {
      if l in slice.lines {
        var j :| 0 <= j < |nodes| && nodes[j].id in sliceNodes && nodes[j].line == l;
        assert nodes[j] in slice.nodes;
      }
    }
    assert criterion in slice.nodes by {
      ReachesSelf(SliceArcs(edges, direction), criterion.id);
    }
    assert IsSlice(nodes, edges, totalLines, criterion, slice);
    r := Ok(slice);
  }

  // ---------------------------------------------------------------- the slice, from nodes and edges alone

  /** Closed under the edges that the direction follows: backwards to their sources, forwards to their targets. */
  ghost predicate Closed(edges: seq<PdgEdge>, direction: Direction, ids: set<string>) {
    match direction
    case Backward => forall e <- edges :: e.target in ids ==> e.source in ids
    case Forward => forall e <- edges :: e.source in ids ==> e.target in ids
  }

  ghost predicate LeastClosed(edges: seq<PdgEdge>, direction: Direction, start: string, ids: set<string>) {
    && start in ids && Closed(edges, direction, ids)
    && forall other | start in other && Closed(edges, direction, other) :: ids <= other
  }

  lemma ReachableIsLeast(edges: seq<PdgEdge>, direction: Direction, start: string) returns (ids: set<string>)
    ensures forall id :: id in ids <==> InSlice(edges, direction, start, id)
    ensures LeastClosed(edges, direction, start, ids)
  {
    var arcs := SliceArcs(edges, direction);
    var universe := {start} + (set arc <- arcs :: arc.1);
    ReachesSelf(arcs, start);
    forall id | InSlice(edges, direction, start, id) ensures id in universe {
      ReachesStaysInside(arcs, universe, start, id);
    }
    ids := set id <- universe | InSlice(edges, direction, start, id);
    forall arc <- arcs | arc.0 in ids ensures arc.1 in ids {
      ReachesStep(arcs, start, arc.0, arc.1);
    }
    forall e <- edges ensures match direction
                              case Backward => (e.target, e.source) in arcs
                              case Forward => (e.source, e.target) in arcs
    {
    }
    forall other | start in other && Closed(edges, direction, other) ensures ids <= other {
      forall id <- ids ensures id in other {
        ReachesStaysInside(arcs, other, start, id);
      }
    }
  }

  /** The first node of the line that defines or uses the variable. */
  ghost predicate FirstTouching(nodes: seq<PdgNode>, line: int, variable: string, n: PdgNode) {
    exists i | 0 <= i < |nodes| ::
      && nodes[i] == n && n.line == line && (variable in n.defined || variable in n.used)
      && forall j | 0 <= j < i && nodes[j].line == line :: variable !in nodes[j].defined && variable !in nodes[j].used
  }

  /** The slice has all nodes with these ids and all edges between them, each where it stands among the given ones. */
  ghost predicate Induced(nodes: seq<PdgNode>, edges: seq<PdgEdge>, ids: set<string>, s: Slice) {
    && (exists at :: Picks(nodes, s.nodes, at) && forall i | 0 <= i < |nodes| :: i in at <==> nodes[i].id in ids)
    && (exists at :: Picks(edges, s.edges, at) && forall i | 0 <= i < |edges| :: i in at <==> Between(edges[i], ids))
  }

  lemma {:induction false} FilteredIsInduced(nodes: seq<PdgNode>, edges: seq<PdgEdge>, ids: set<string>, s: Slice)
    requires s.nodes == FilterNodes(nodes, ids) && s.edges == FilterEdges(edges, ids)
    ensures Induced(nodes, edges, ids, s)
  {
    var at := FilterNodesPicks(nodes, ids);
    var edgesAt := FilterEdgesPicks(edges, ids);
  }

  lemma SliceIsInduced(nodes: seq<PdgNode>, edges: seq<PdgEdge>, totalLines: int, criterion: PdgNode, ids: set<string>,
                       s: Slice)
    requires IsSlice(nodes, edges, totalLines, criterion, s) && InOrder(nodes, edges, s)
    requires forall id :: id in ids <==> InSlice(edges, s.direction, criterion.id, id)
    ensures Induced(nodes, edges, ids, s)
  {
    var t := s.(nodes := FilterNodes(nodes, ids), edges := FilterEdges(edges, ids));
    FilterNodesKeeps(nodes, ids);
    FilterEdgesInduced(edges, ids);
    OrderedSame(nodes, edges, s, t);
    FilteredIsInduced(nodes, edges, ids, s);
  }

  lemma SliceLines(nodes: seq<PdgNode>, edges: seq<PdgEdge>, totalLines: int, criterion: PdgNode, ids: set<string>,
                   s: Slice)
    requires IsSlice(nodes, edges, totalLines, criterion, s)
    requires forall id :: id in ids <==> InSlice(edges, s.direction, criterion.id, id)
    ensures forall l :: l in s.lines <==> exists n <- nodes :: n.id in ids && n.line == l
  {
  }

  lemma SliceReduction(nodes: seq<PdgNode>, edges: seq<PdgEdge>, totalLines: int, criterion: PdgNode, s: Slice)
    requires IsSlice(nodes, edges, totalLines, criterion, s)
    ensures totalLines <= 0 ==> s.reductionPercent == 0.0
    ensures totalLines > 0 ==>
              s.reductionPercent * totalLines as real == 100.0 * (totalLines as real - |s.lines| as real)
  {
  }

  /** A slice is the least set that has the criterion and follows the edges, with all its nodes, edges and lines. */
  lemma SliceIsLeast(nodes: seq<PdgNode>, edges: seq<PdgEdge>, line: int, variable: string, direction: Direction,
                     totalLines: int, s: Slice) returns (criterion: PdgNode, ids: set<string>)
    requires IsSliceOf(nodes, edges, line, variable, direction, totalLines, s)
    ensures s.line == line && s.variable == variable && s.direction == direction
    ensures FirstTouching(nodes, line, variable, criterion) && LeastClosed(edges, direction, criterion.id, ids)
    ensures Induced(nodes, edges, ids, s)
    ensures StrictlyIncreasing(s.lines) && forall l :: l in s.lines <==> exists n <- nodes :: n.id in ids && n.line == l
    ensures totalLines <= 0 ==> s.reductionPercent == 0.0
    ensures totalLines > 0 ==>
              s.reductionPercent * totalLines as real == 100.0 * (totalLines as real - |s.lines| as real)
  {
    criterion :| IsCriterion(nodes, line, variable, criterion) && IsSlice(nodes, edges, totalLines, criterion, s);
    ids := ReachableIsLeast(edges, direction, criterion.id);
    SliceIsInduced(nodes, edges, totalLines, criterion, ids, s);
    SliceLines(nodes, edges, totalLines, criterion, ids, s);
    SliceReduction(nodes, edges, totalLines, criterion, s);
  }

  function FlippedEdges(edges: seq<PdgEdge>): (r: seq<PdgEdge>)
    ensures |r| == |edges| && forall i | 0 <= i < |edges| :: r[i] == edges[i].Flipped()
  {
    seq(|edges|, i requires 0 <= i < |edges| => edges[i].Flipped())
  }

  lemma ArcsFlip(edges: seq<PdgEdge>)
    ensures SliceArcs(edges, Backward) == Reversed(SliceArcs(edges, Forward))
    ensures SliceArcs(FlippedEdges(edges), Forward) == SliceArcs(edges, Backward)
  {
    var forwards := SliceArcs(edges, Forward);
    forall arc ensures arc in SliceArcs(edges, Backward) <==> arc in Reversed(forwards) {
      if arc in SliceArcs(edges, Backward) {
        assert (arc.1, arc.0) in forwards;
      }
    }
    var flipped := FlippedEdges(edges);
    forall arc ensures arc in SliceArcs(flipped, Forward) <==> arc in SliceArcs(edges, Backward) {
      if arc in SliceArcs(flipped, Forward) {
        var e :| e in flipped && arc == (e.source, e.target);
        var i :| 0 <= i < |flipped| && flipped[i] == e;
        assert edges[i] in edges;
      }
      if arc in SliceArcs(edges, Backward) {
        var e :| e in edges && arc == (e.target, e.source);
        var i :| 0 <= i < |edges| && edges[i] == e;
        assert flipped[i] in flipped;
      }
    }
  }

  /** `u` is in the backward slice of `v` exactly when `v` is in the forward slice of `u`. */
  lemma SlicingDual(edges: seq<PdgEdge>, u: string, v: string)
    ensures InSlice(edges, Backward, v, u) <==> InSlice(edges, Forward, u, v)
  {
    ArcsFlip(edges);
    ReachesBack(SliceArcs(edges, Forward), u, v);
  }

  lemma {:induction false} FilterFlipped(edges: seq<PdgEdge>, ids: set<string>)
    ensures FilterEdges(FlippedEdges(edges), ids) == FlippedEdges(FilterEdges(edges, ids))
  {
    if edges != [] {
      var rest, e := edges[..|edges| - 1], edges[|edges| - 1];
      FilterFlipped(rest, ids);
      assert FlippedEdges(edges)[..|edges| - 1] == FlippedEdges(rest);
      var kept := if e.source in ids && e.target in ids then [e] else [];
      assert FlippedEdges(FilterEdges(rest, ids) + kept) == FlippedEdges(FilterEdges(rest, ids)) + FlippedEdges(kept);
    }
  }

  lemma {:induction false} FilterNodesSame(nodes: seq<PdgNode>, ids: set<string>, others: set<string>)
    requires forall n <- nodes :: n.id in ids <==> n.id in others
    ensures FilterNodes(nodes, ids) == FilterNodes(nodes, others)
  {
    if nodes != [] {
      assert nodes[|nodes| - 1] in nodes;
      FilterNodesSame(nodes[..|nodes| - 1], ids, others);
    }
  }

  lemma {:induction false} FilterEdgesSame(edges: seq<PdgEdge>, ids: set<string>, others: set<string>)
    requires forall e <- edges :: e.source in ids && e.target in ids <==> e.source in others && e.target in others
    ensures FilterEdges(edges, ids) == FilterEdges(edges, others)
  {
    if edges != [] {
      assert edges[|edges| - 1] in edges;
      FilterEdgesSame(edges[..|edges| - 1], ids, others);
    }
  }

  /** In their given order, lists of the same nodes and edges are the same lists. */
  lemma OrderedSame(nodes: seq<PdgNode>, edges: seq<PdgEdge>, a: Slice, b: Slice)
    requires InOrder(nodes, edges, a) && InOrder(nodes, edges, b)
    requires forall n :: n in a.nodes <==> n in b.nodes
    requires forall e :: e in a.edges <==> e in b.edges
    ensures a.nodes == b.nodes && a.edges == b.edges
  {
    var ids :| a.nodes == FilterNodes(nodes, ids) && a.edges == FilterEdges(edges, ids);
    var others :| b.nodes == FilterNodes(nodes, others) && b.edges == FilterEdges(edges, others);
    FilterNodesKeeps(nodes, ids);
    FilterNodesKeeps(nodes, others);
    FilterEdgesInduced(edges, ids);
    FilterEdgesInduced(edges, others);
    FilterNodesSame(nodes, ids, others);
    FilterEdgesSame(edges, ids, others);
  }

  /** A request has only one slice. */
  lemma SliceUnique(nodes: seq<PdgNode>, edges: seq<PdgEdge>, line: int, variable: string, direction: Direction,
                    totalLines: int, a: Slice, b: Slice)
    requires IsSliceOf(nodes, edges, line, variable, direction, totalLines, a)
    requires IsSliceOf(nodes, edges, line, variable, direction, totalLines, b)
    ensures a == b
  {
    var n :| IsCriterion(nodes, line, variable, n) && IsSlice(nodes, edges, totalLines, n, a);
    var m :| IsCriterion(nodes, line, variable, m) && IsSlice(nodes, edges, totalLines, m, b);
    CriterionUnique(nodes, line, variable, n, m);
    OrderedSame(nodes, edges, a, b);
    AscendingUnique(a.lines, b.lines);
  }

  /** A slice with every edge turned round, read in the other direction. */
  function TurnedRound(s: Slice): Slice {
    s.(direction := if s.direction == Backward then Forward else Backward, edges := FlippedEdges(s.edges))
  }

  lemma FlippedIn(edges: seq<PdgEdge>, e: PdgEdge)
    ensures e in edges <==> e.Flipped() in FlippedEdges(edges)
  {
    if e in edges {
      var i :| 0 <= i < |edges| && edges[i] == e;
      assert FlippedEdges(edges)[i] == e.Flipped();
    }
    if e.Flipped() in FlippedEdges(edges) {
      var i :| 0 <= i < |edges| && FlippedEdges(edges)[i] == e.Flipped();
      assert edges[i] == e;
    }
  }

  lemma TurnedIsSlice(nodes: seq<PdgNode>, edges: seq<PdgEdge>, totalLines: int, criterion: PdgNode, s: Slice)
    requires s.direction == Backward && IsSlice(nodes, edges, totalLines, criterion, s)
    ensures IsSlice(nodes, FlippedEdges(edges), totalLines, criterion, TurnedRound(s))
  {
    ArcsFlip(edges);
    var flipped, t := FlippedEdges(edges), TurnedRound(s);
    assert forall id :: InSlice(edges, Backward, criterion.id, id) <==> InSlice(flipped, Forward, criterion.id, id);
    forall e ensures e in t.edges <==>
        e in flipped && InSlice(flipped, Forward, criterion.id, e.source)
          && InSlice(flipped, Forward, criterion.id, e.target)
    {
      assert e.Flipped().Flipped() == e;
      FlippedIn(edges, e.Flipped());
      FlippedIn(s.edges, e.Flipped());
    }
  }

  /**
   A backward slice is the forward slice of the graph with every edge turned round, its own edges turned round too.
   */
  lemma BackwardIsForwardReversed(nodes: seq<PdgNode>, edges: seq<PdgEdge>, line: int, variable: string,
                                  totalLines: int, back: Slice, forth: Slice)
    requires IsSliceOf(nodes, edges, line, variable, Backward, totalLines, back)
    requires IsSliceOf(nodes, FlippedEdges(edges), line, variable, Forward, totalLines, forth)
    ensures forth == TurnedRound(back)
  {
    var criterion :|
      IsCriterion(nodes, line, variable, criterion) && IsSlice(nodes, edges, totalLines, criterion, back);
    TurnedIsSlice(nodes, edges, totalLines, criterion, back);
    var ids :| back.nodes == FilterNodes(nodes, ids) && back.edges == FilterEdges(edges, ids);
    FilterFlipped(edges, ids);
    assert InOrder(nodes, FlippedEdges(edges), TurnedRound(back));
    SliceUnique(nodes, FlippedEdges(edges), line, variable, Forward, totalLines, forth, TurnedRound(back));
  }
}
