/** The layered drawing of a control flow graph (`layoutCfg` of dashboard/src/CfgView.tsx). */
module CfgView {
  import opened Walks

  datatype Block = Block(id: int)

  datatype CfgEdge = CfgEdge(from: int, to: int)

  datatype CfgDetail = CfgDetail(entry: int, blocks: seq<Block>, edges: seq<CfgEdge>)

  datatype Position = Position(x: real, y: real)

  function FlowArcs(edges: seq<CfgEdge>): Arcs<int> {
    set e <- edges :: (e.from, e.to)
  }

  function Targets(adj: map<int, seq<int>>, n: int): seq<int> {
    if n in adj then adj[n] else []
  }

  /** The lists name exactly the targets of the arcs out of each block. */
  ghost predicate IsAdjacency(adj: map<int, seq<int>>, arcs: Arcs<int>) {
    forall n, t :: t in Targets(adj, n) <==> (n, t) in arcs
  }

  method BuildAdjacency(edges: seq<CfgEdge>) returns (adj: map<int, seq<int>>)
    ensures IsAdjacency(adj, FlowArcs(edges))
  {
    adj := map[];
    for i := 0 to |edges|
      invariant IsAdjacency(adj, FlowArcs(edges[..i]))
    {
      assert edges[..i + 1] == edges[..i] + [edges[i]];
      var e := edges[i];
      if e.from !in adj {
        adj := adj[e.from := []];
      }
      adj := adj[e.from := adj[e.from] + [e.to]];
    }
    assert edges[..|edges|] == edges;
  }

  /** Depths never decrease along the queue and differ by at most one. */
  ghost predicate Layered(depth: map<int, nat>, queue: seq<int>, low: nat) {
    && (forall b <- queue :: b in depth && low <= depth[b] <= low + 1)
    && (forall i, j | 0 <= i < j < |queue| ::
         queue[i] in depth && queue[j] in depth && depth[queue[i]] <= depth[queue[j]])
  }

  /** Give every neighbour that has no depth yet the next depth, and queue it. */
  method Discover(ghost arcs: Arcs<int>, ghost entry: int, n: int, neighbours: seq<int>, known: map<int, nat>,
                  queue: seq<int>)
    returns (depth: map<int, nat>, grown: seq<int>)
    requires n in known && Walk(arcs, entry, n, known[n])
    requires forall t <- neighbours :: (n, t) in arcs
    requires Layered(known, queue, known[n])
    ensures known.Keys <= depth.Keys && forall b <- known :: depth[b] == known[b]
    ensures depth.Keys == known.Keys + (set t <- neighbours)
    ensures forall b <- depth | b !in known :: depth[b] == known[n] + 1 && Walk(arcs, entry, b, depth[b]) && b in grown
    ensures forall b <- queue :: b in grown
    ensures Layered(depth, grown, known[n])
    ensures depth.Keys == known.Keys ==> grown == queue
  {
    var d := known[n];
    depth, grown := known, queue;
    for k := 0 to |neighbours|
      invariant known.Keys <= depth.Keys && forall b <- known :: depth[b] == known[b]
      invariant depth.Keys == known.Keys + (set t <- neighbours[..k])
      invariant forall b <- depth | b !in known :: depth[b] == d + 1 && Walk(arcs, entry, b, depth[b]) && b in grown
      invariant forall b <- queue :: b in grown
      invariant Layered(depth, grown, d)
      invariant depth.Keys == known.Keys ==> grown == queue
    {
      var next := neighbours[k];
      assert neighbours[..k + 1] == neighbours[..k] + [next];
      if next !in depth {
        WalkStep(arcs, entry, n, next, d);
        depth := depth[next := d + 1];
        grown := grown + [next];
      }
    }
    assert neighbours[..|neighbours|] == neighbours;
  }

  /** Every arc out of a finished block leads to a block at most one layer deeper. */
  ghost predicate Relaxed(arcs: Arcs<int>, depth: map<int, nat>, done: set<int>) {
    forall a, b | (a, b) in arcs && a in done :: a in depth && b in depth && depth[b] <= depth[a] + 1
  }

  lemma {:induction false} RelaxedIsShortest(arcs: Arcs<int>, entry: int, depth: map<int, nat>, b: int, n: nat)
    requires entry in depth && depth[entry] == 0 && Relaxed(arcs, depth, depth.Keys)
    requires Walk(arcs, entry, b, n)
    ensures b in depth && depth[b] <= n
    decreases n
  {
    if n > 0 {
      var m :| Walk(arcs, entry, m, n - 1) && (m, b) in arcs;
      RelaxedIsShortest(arcs, entry, depth, m, n - 1);
    }
  }

  /** The state of the search: what has been discovered, what waits in the queue, and what is finished. */
  ghost predicate Searching(arcs: Arcs<int>, entry: int, depth: map<int, nat>, queue: seq<int>, done: set<int>) {
    && entry in depth && depth[entry] == 0
    && (forall b <- depth :: Walk(arcs, entry, b, depth[b]) && (b in done || b in queue))
    && done <= depth.Keys && Relaxed(arcs, depth, done)
    && (queue != [] ==>
          && queue[0] in depth && Layered(depth, queue, depth[queue[0]])
          && forall b <- done :: depth[b] <= depth[queue[0]])
  }

  lemma {:induction false} SearchStep(arcs: Arcs<int>, entry: int, depth: map<int, nat>, queue: seq<int>,
                                      done: set<int>, depth': map<int, nat>, queue': seq<int>)
    requires queue != [] && Searching(arcs, entry, depth, queue, done)
    requires depth.Keys <= depth'.Keys && forall b <- depth :: depth'[b] == depth[b]
    requires forall b | (queue[0], b) in arcs :: b in depth'
    requires forall b <- depth' | b !in depth ::
        depth'[b] == depth[queue[0]] + 1 && Walk(arcs, entry, b, depth'[b]) && b in queue'
    requires forall b <- queue[1..] :: b in queue'
    requires Layered(depth', queue', depth[queue[0]])
    ensures Searching(arcs, entry, depth', queue', done + {queue[0]})
  {
    var n := queue[0];
    assert forall b :: b in queue <==> b == n || b in queue[1..];
    forall b <- depth' ensures Walk(arcs, entry, b, depth'[b]) && (b in done + {n} || b in queue') {
      assert b in depth ==> b in done || b in queue;
    }
    forall a, b | (a, b) in arcs && a in done + {n}
      ensures a in depth' && b in depth' && depth'[b] <= depth'[a] + 1
    {
      if a in done {
        assert a in depth && b in depth && depth[b] <= depth[a] + 1;
      } else if b in depth {
        assert b in done || b in queue;
        assert depth[b] <= depth[n] + 1;
      }
    }
    if queue' != [] {
      var head := queue'[0];
      assert head in queue';
      assert depth[n] <= depth'[head];
      forall b <- queue' ensures depth'[head] <= depth'[b] <= depth'[head] + 1 {
        var j :| 0 <= j < |queue'| && queue'[j] == b;
        assert depth'[b] <= depth[n] + 1;
      }
    }
  }

  lemma SearchStart(arcs: Arcs<int>, entry: int)
    ensures Searching(arcs, entry, map[entry := 0], [entry], {})
  {
    assert Walk(arcs, entry, entry, 0);
  }

  /** Take the first block off the queue and discover its neighbours. */
  method SearchRound(ghost arcs: Arcs<int>, ghost universe: set<int>, entry: int, adj: map<int, seq<int>>,
                     known: map<int, nat>, front: seq<int>, ghost done: set<int>)
    returns (depth: map<int, nat>, queue: seq<int>)
    requires IsAdjacency(adj, arcs) && forall arc <- arcs :: arc.1 in universe
    requires front != [] && known.Keys <= universe && Searching(arcs, entry, known, front, done)
    ensures depth.Keys <= universe && Searching(arcs, entry, depth, queue, done + {front[0]})
    ensures |universe - depth.Keys| < |universe - known.Keys|
         || (|universe - depth.Keys| == |universe - known.Keys| && |queue| < |front|)
  {
    var n := front[0];
    WithoutHead(known, front);
    depth, queue := Discover(arcs, entry, n, Targets(adj, n), known, front[1..]);
    FromTargets(arcs, adj, n, universe, known, depth);
    SearchStep(arcs, entry, known, front, done, depth, queue);
  }

  /** Breadth-first search: exactly the reachable blocks get a depth, and it is the length of a shortest walk. */
  method Depths(entry: int, edges: seq<CfgEdge>) returns (depth: map<int, nat>)
    ensures forall b :: b in depth <==> Reaches(FlowArcs(edges), entry, b)
    ensures forall b <- depth :: Distance(FlowArcs(edges), entry, b, depth[b])
  {
    ghost var arcs := FlowArcs(edges);
    ghost var universe := {entry} + (set arc <- arcs :: arc.1);
    var adj := BuildAdjacency(edges);
    var queue := [entry];
    depth := map[entry := 0];
    ghost var done: set<int> := {};
    SearchStart(arcs, entry);
    while queue != []
      invariant depth.Keys <= universe && Searching(arcs, entry, depth, queue, done)
      decreases |universe - depth.Keys|, |queue|
    {
      ghost var n := queue[0];
      depth, queue := SearchRound(arcs, universe, entry, adj, depth, queue, done);
      done := done + {n};
    }
    SearchDone(arcs, entry, depth, done);
  }

  lemma FromTargets(arcs: Arcs<int>, adj: map<int, seq<int>>, n: int, universe: set<int>, known: map<int, nat>,
                    depth: map<int, nat>)
    requires IsAdjacency(adj, arcs) && forall arc <- arcs :: arc.1 in universe
    requires known.Keys <= universe && depth.Keys == known.Keys + (set t <- Targets(adj, n))
    ensures forall b | (n, b) in arcs :: b in depth
    ensures depth.Keys <= universe
    ensures depth.Keys == known.Keys || |universe - depth.Keys| < |universe - known.Keys|
  {
    forall b | (n, b) in arcs ensures b in depth {
      assert b in Targets(adj, n);
    }
    forall b <- depth ensures b in universe {
      if b !in known {
        assert (n, b) in arcs;
      }
    }
    Narrowed(universe, known.Keys, depth.Keys);
  }

  lemma WithoutHead(depth: map<int, nat>, queue: seq<int>)
    requires queue != [] && queue[0] in depth && Layered(depth, queue, depth[queue[0]])
    ensures Layered(depth, queue[1..], depth[queue[0]])
  {
    assert forall i | 0 <= i < |queue| - 1 :: queue[1..][i] == queue[i + 1];
  }

  lemma SearchDone(arcs: Arcs<int>, entry: int, depth: map<int, nat>, done: set<int>)
    requires Searching(arcs, entry, depth, [], done)
    ensures forall b :: b in depth <==> Reaches(arcs, entry, b)
    ensures forall b <- depth :: Distance(arcs, entry, b, depth[b])
  {
    forall b ensures b in depth <==> b in done {
      if b in depth {
        assert Walk(arcs, entry, b, depth[b]);
      }
    }
    assert depth.Keys == done;
    forall b ensures b in depth <==> Reaches(arcs, entry, b) {
      if Reaches(arcs, entry, b) {
        var n: nat :| Walk(arcs, entry, b, n);
        RelaxedIsShortest(arcs, entry, depth, b, n);
      }
    }
    forall b <- depth, m: nat | Walk(arcs, entry, b, m) ensures depth[b] <= m {
      RelaxedIsShortest(arcs, entry, depth, b, m);
    }
  }

  lemma Narrowed(universe: set<int>, a: set<int>, b: set<int>)
    requires a <= b <= universe
    ensures a == b || |universe - b| < |universe - a|
  {
    if a != b {
      assert universe - a == (universe - b) + (b - a);
      assert (universe - b) * (b - a) == {};
      assert |b - a| > 0;
    }
  }

  // ---------------------------------------------------------------- positions

  /** Blocks that are not reachable share the layer of the entry. */
  function LayerOf(depth: map<int, nat>, b: Block): nat {
    if b.id in depth then depth[b.id] else 0
  }

  function LayerSize(blocks: seq<Block>, depth: map<int, nat>, layer: nat): nat {
    if blocks == [] then 0
    else
      var last := blocks[|blocks| - 1];
      LayerSize(blocks[..|blocks| - 1], depth, layer) + if LayerOf(depth, last) == layer then 1 else 0
  }

  /** Where the `i`-th block belongs: its layer across, and centred within the layer in block order. */
  function Place(blocks: seq<Block>, depth: map<int, nat>, i: nat): Position
    requires i < |blocks|
  {
    var layer := LayerOf(depth, blocks[i]);
    var rank, total := LayerSize(blocks[..i], depth, layer), LayerSize(blocks, depth, layer);
    Position(Across(layer), Down(rank, total))
  }

  function Across(layer: nat): real {
    layer as real * 120.0
  }

  /** The vertical position of one of `total` blocks that has `rank` blocks before it. */
  function Down(rank: nat, total: nat): real {
    (rank as real - (total as real - 1.0) / 2.0) * 80.0
  }

  function Lookup(m: map<nat, nat>, key: nat, default: nat): nat {
    if key in m then m[key] else default
  }

  /** The counters hold how many of the first `n` blocks each layer has. */
  ghost predicate Counted(counts: map<nat, nat>, blocks: seq<Block>, depth: map<int, nat>, n: nat)
    requires n <= |blocks|
  {
    forall layer :: Lookup(counts, layer, 0) == LayerSize(blocks[..n], depth, layer)
  }

  lemma CountedNext(counts: map<nat, nat>, blocks: seq<Block>, depth: map<int, nat>, i: nat)
    requires i < |blocks| && Counted(counts, blocks, depth, i)
    ensures var d := LayerOf(depth, blocks[i]);
            Counted(counts[d := Lookup(counts, d, 0) + 1], blocks, depth, i + 1)
  {
    var d := LayerOf(depth, blocks[i]);
    var next := counts[d := Lookup(counts, d, 0) + 1];
    forall layer ensures Lookup(next, layer, 0) == LayerSize(blocks[..i + 1], depth, layer) {
      assert blocks[..i + 1][..i] == blocks[..i];
    }
  }

  method CountLayers(blocks: seq<Block>, depth: map<int, nat>) returns (layers: map<nat, nat>)
    ensures Counted(layers, blocks, depth, |blocks|)
  {
    layers := map[];
    for i := 0 to |blocks|
      invariant Counted(layers, blocks, depth, i)
    {
      CountedNext(layers, blocks, depth, i);
      var d := LayerOf(depth, blocks[i]);
      layers := layers[d := Lookup(layers, d, 0) + 1];
    }
  }

  /** The first `n` blocks are placed, where `places` tells the place of each; of blocks with one id the last counts. */
  ghost predicate Placed(blocks: seq<Block>, places: seq<Position>, n: nat, out: map<int, Position>)
    requires n <= |blocks| == |places|
  {
    && out.Keys == (set j | 0 <= j < n :: blocks[j].id)
    && forall j | 0 <= j < n && LastOfItsId(blocks, j, n) ::
        blocks[j].id in out && out[blocks[j].id] == places[j]
  }

  lemma PlacedNext(blocks: seq<Block>, places: seq<Position>, n: nat, out: map<int, Position>)
    requires n < |blocks| == |places| && Placed(blocks, places, n, out)
    ensures Placed(blocks, places, n + 1, out[blocks[n].id := places[n]])
  {
    var next := out[blocks[n].id := places[n]];
    forall j | 0 <= j < n + 1 && LastOfItsId(blocks, j, n + 1)
      ensures blocks[j].id in next && next[blocks[j].id] == places[j]
    {
      if j < n {
        assert blocks[n].id != blocks[j].id;
        assert LastOfItsId(blocks, j, n);
      }
    }
  }

  function Places(blocks: seq<Block>, depth: map<int, nat>): (places: seq<Position>)
    ensures |places| == |blocks| && forall i | 0 <= i < |blocks| :: places[i] == Place(blocks, depth, i)
  {
    seq(|blocks|, i requires 0 <= i < |blocks| => Place(blocks, depth, i))
  }

  /** The counters give the place of the next block. */
  lemma CountersPlace(layers: map<nat, nat>, layerCounts: map<nat, nat>, blocks: seq<Block>, depth: map<int, nat>,
                      i: nat)
    requires i < |blocks| && Counted(layers, blocks, depth, |blocks|) && Counted(layerCounts, blocks, depth, i)
    ensures var d := LayerOf(depth, blocks[i]);
            Position(Across(d), Down(Lookup(layerCounts, d, 0), Lookup(layers, d, 1))) == Place(blocks, depth, i)
  {
    assert blocks[..|blocks|] == blocks;
    LayerNotEmpty(blocks, depth, i);
    assert Lookup(layers, LayerOf(depth, blocks[i]), 0) > 0;
  }

  method PlaceBlocks(blocks: seq<Block>, depth: map<int, nat>) returns (out: map<int, Position>)
    ensures Placed(blocks, Places(blocks, depth), |blocks|, out)
  {
    ghost var places := Places(blocks, depth);
    var layers := CountLayers(blocks, depth);
    var layerCounts: map<nat, nat> := map[];
    out := map[];
    for i := 0 to |blocks|
      invariant Counted(layerCounts, blocks, depth, i)
      invariant Placed(blocks, places, i, out)
    {
      var d := LayerOf(depth, blocks[i]);
      var idx := Lookup(layerCounts, d, 0);
      var total := Lookup(layers, d, 1);
      CountersPlace(layers, layerCounts, blocks, depth, i);
      CountedNext(layerCounts, blocks, depth, i);
      PlacedNext(blocks, places, i, out);
      layerCounts := layerCounts[d := idx + 1];
      out := out[blocks[i].id := Position(Across(d), Down(idx, total))];
    }
  }

  /** Exactly the blocks that the entry reaches have a depth, and it is their distance from the entry. */
  ghost predicate Layering(detail: CfgDetail, depth: map<int, nat>) {
    && (forall b :: b in depth <==> Reaches(FlowArcs(detail.edges), detail.entry, b))
    && (forall b <- depth :: Distance(FlowArcs(detail.edges), detail.entry, b, depth[b]))
  }

  ghost predicate LaidOut(detail: CfgDetail, depth: map<int, nat>, out: map<int, Position>) {
    Layering(detail, depth) && Placed(detail.blocks, Places(detail.blocks, depth), |detail.blocks|, out)
  }

  /** Every block is at the place that its distance from the entry and its rank in that layer give it. */
  ghost predicate IsLayout(detail: CfgDetail, out: map<int, Position>) {
    exists depth: map<int, nat> :: LaidOut(detail, depth, out)
  }

  ghost predicate DistinctIds(blocks: seq<Block>) {
    forall k, l | 0 <= k < l < |blocks| :: blocks[k].id != blocks[l].id
  }

  /** The layout: a position for every block, by breadth-first layer and then by block order. */
  method LayoutCfg(detail: CfgDetail) returns (out: map<int, Position>)
    ensures IsLayout(detail, out)
    ensures InColumns(detail, out)
  {
    var depth := Depths(detail.entry, detail.edges);
    out := PlaceBlocks(detail.blocks, depth);
    assert LaidOut(detail, depth, out);
    LayoutByPaths(detail, out);
  }

  lemma DrawnAtPlace(blocks: seq<Block>, places: seq<Position>, out: map<int, Position>, i: nat)
    requires i < |blocks| == |places| && DistinctIds(blocks) && Placed(blocks, places, |blocks|, out)
    ensures blocks[i].id in out && out[blocks[i].id] == places[i]
  {
    assert LastOfItsId(blocks, i, |blocks|);
  }

  /** In a layout of blocks with distinct ids, different blocks are drawn at different places. */
  lemma LayoutInjective(detail: CfgDetail, out: map<int, Position>, i: nat, j: nat)
    requires IsLayout(detail, out) && DistinctIds(detail.blocks) && i < j < |detail.blocks|
    ensures var a, b := detail.blocks[i].id, detail.blocks[j].id; a in out && b in out && out[a] != out[b]
  {
    var depth :| LaidOut(detail, depth, out);
    DrawnAtPlace(detail.blocks, Places(detail.blocks, depth), out, i);
    DrawnAtPlace(detail.blocks, Places(detail.blocks, depth), out, j);
    PlacesDistinct(detail.blocks, depth, i, j);
  }

  lemma {:induction false} LastWithId(blocks: seq<Block>, i: nat) returns (j: nat)
    requires i < |blocks|
    ensures i <= j < |blocks| && blocks[j].id == blocks[i].id && LastOfItsId(blocks, j, |blocks|)
    decreases |blocks| - i
  {
    if k :| i < k < |blocks| && blocks[k].id == blocks[i].id {
      j := LastWithId(blocks, k);
    } else {
      j := i;
    }
  }

  /** How far across a block is drawn depends on its id alone, so this holds of repeated ids too. */
  lemma DrawnInLayer(blocks: seq<Block>, depth: map<int, nat>, out: map<int, Position>, i: nat)
    requires i < |blocks| && Placed(blocks, Places(blocks, depth), |blocks|, out)
    ensures blocks[i].id in out && out[blocks[i].id].x == Across(LayerOf(depth, blocks[i]))
  {
    var j := LastWithId(blocks, i);
    assert blocks[j].id in out && out[blocks[j].id] == Places(blocks, depth)[j];
  }

  /** How far across a block is drawn is its distance from the entry; unreachable blocks are drawn beside the entry. */
  lemma LayersAreDistances(detail: CfgDetail, out: map<int, Position>, i: nat, n: nat)
    requires IsLayout(detail, out) && i < |detail.blocks|
    ensures detail.blocks[i].id in out
    ensures Distance(FlowArcs(detail.edges), detail.entry, detail.blocks[i].id, n) ==>
              out[detail.blocks[i].id].x == Across(n)
    ensures !Reaches(FlowArcs(detail.edges), detail.entry, detail.blocks[i].id) ==>
              out[detail.blocks[i].id].x == 0.0
  {
    var depth :| LaidOut(detail, depth, out);
    DrawnInLayer(detail.blocks, depth, out, i);
    var b := detail.blocks[i].id;
    if Distance(FlowArcs(detail.edges), detail.entry, b, n) {
      assert Reaches(FlowArcs(detail.edges), detail.entry, b);
      assert Distance(FlowArcs(detail.edges), detail.entry, b, depth[b]);
    }
  }

  ghost predicate LastOfItsId(blocks: seq<Block>, i: nat, n: nat)
    requires i < n <= |blocks|
  {
    forall k | i < k < n :: blocks[k].id != blocks[i].id
  }

  /** Within its layer a block comes after all earlier ones. */
  lemma {:induction false} RankGrows(blocks: seq<Block>, depth: map<int, nat>, layer: nat, i: nat, j: nat)
    requires i <= j <= |blocks|
    ensures LayerSize(blocks[..i], depth, layer) <= LayerSize(blocks[..j], depth, layer)
    ensures i < j && LayerOf(depth, blocks[i]) == layer ==>
              LayerSize(blocks[..i], depth, layer) < LayerSize(blocks[..j], depth, layer)
  {
    if i < j {
      assert blocks[..j][..j - 1] == blocks[..j - 1];
      RankGrows(blocks, depth, layer, i, j - 1);
    }
  }

  lemma {:induction false} LayerNotEmpty(blocks: seq<Block>, depth: map<int, nat>, i: nat)
    requires i < |blocks|
    ensures LayerSize(blocks, depth, LayerOf(depth, blocks[i])) > 0
  {
    RankGrows(blocks, depth, LayerOf(depth, blocks[i]), i, |blocks|);
    assert blocks[..|blocks|] == blocks;
  }

  /** No two blocks are drawn at the same place. */
  lemma PlacesDistinct(blocks: seq<Block>, depth: map<int, nat>, i: nat, j: nat)
    requires i < j < |blocks|
    ensures Place(blocks, depth, i) != Place(blocks, depth, j)
  {
    var layer := LayerOf(depth, blocks[i]);
    if LayerOf(depth, blocks[j]) == layer {
      RankGrows(blocks, depth, layer, i, j);
    }
  }

  /** The sum of the vertical positions of one layer, over the first `n` blocks. */
  function LayerSumY(blocks: seq<Block>, depth: map<int, nat>, layer: nat, n: nat): real
    requires n <= |blocks|
  {
    if n == 0 then 0.0
    else
      LayerSumY(blocks, depth, layer, n - 1) +
      if LayerOf(depth, blocks[n - 1]) == layer then Place(blocks, depth, n - 1).y else 0.0
  }

  /** The sum of the first `count` of `total` centred positions. */
  function SumDown(count: nat, total: nat): real {
    if count == 0 then 0.0 else SumDown(count - 1, total) + Down(count - 1, total)
  }

  lemma {:induction false} SumDownClosed(count: nat, total: nat)
    ensures SumDown(count, total) == 40.0 * count as real * (count as real - total as real)
  {
    if count > 0 {
      SumDownClosed(count - 1, total);
    }
  }

  lemma {:induction false} LayerSum(blocks: seq<Block>, depth: map<int, nat>, layer: nat, n: nat)
    requires n <= |blocks|
    ensures LayerSumY(blocks, depth, layer, n)
         == SumDown(LayerSize(blocks[..n], depth, layer), LayerSize(blocks, depth, layer))
  {
    if n > 0 {
      assert blocks[..n][..n - 1] == blocks[..n - 1];
      LayerSum(blocks, depth, layer, n - 1);
    }
  }

  /** Every layer is centred: its vertical positions sum to zero. */
  lemma {:induction false} LayerCentred(blocks: seq<Block>, depth: map<int, nat>, layer: nat)
    ensures LayerSumY(blocks, depth, layer, |blocks|) == 0.0
  {
    LayerSum(blocks, depth, layer, |blocks|);
    assert blocks[..|blocks|] == blocks;
    SumDownClosed(LayerSize(blocks, depth, layer), LayerSize(blocks, depth, layer));
  }

  /** The sum of the vertical positions, over the first `n` blocks, of those drawn `x` across. */
  function ColumnSumY(blocks: seq<Block>, out: map<int, Position>, x: real, n: nat): real
    requires n <= |blocks| && forall k | 0 <= k < n :: blocks[k].id in out
  {
    if n == 0 then 0.0
    else
      ColumnSumY(blocks, out, x, n - 1) +
      if out[blocks[n - 1].id].x == x then out[blocks[n - 1].id].y else 0.0
  }

  lemma {:induction false} ColumnIsLayer(blocks: seq<Block>, depth: map<int, nat>, out: map<int, Position>, layer: nat,
                                         n: nat)
    requires n <= |blocks|
    requires forall k | 0 <= k < |blocks| :: blocks[k].id in out && out[blocks[k].id] == Place(blocks, depth, k)
    ensures ColumnSumY(blocks, out, Across(layer), n) == LayerSumY(blocks, depth, layer, n)
  {
    if n > 0 {
      ColumnIsLayer(blocks, depth, out, layer, n - 1);
    }
  }

  lemma {:induction false} EmptyColumn(blocks: seq<Block>, out: map<int, Position>, x: real, n: nat)
    requires n <= |blocks| && forall k | 0 <= k < n :: blocks[k].id in out && out[blocks[k].id].x != x
    ensures ColumnSumY(blocks, out, x, n) == 0.0
  {
    if n > 0 {
      EmptyColumn(blocks, out, x, n - 1);
    }
  }

  /** In a layout of blocks with distinct ids every column is centred: its vertical positions sum to zero. */
  lemma {:induction false} LayoutCentred(detail: CfgDetail, out: map<int, Position>, x: real)
    requires IsLayout(detail, out) && DistinctIds(detail.blocks)
    ensures forall k | 0 <= k < |detail.blocks| :: detail.blocks[k].id in out
    ensures ColumnSumY(detail.blocks, out, x, |detail.blocks|) == 0.0
  {
    var depth :| LaidOut(detail, depth, out);
    var blocks := detail.blocks;
    forall k | 0 <= k < |blocks| ensures blocks[k].id in out && out[blocks[k].id] == Place(blocks, depth, k) {
      DrawnAtPlace(blocks, Places(blocks, depth), out, k);
    }
    if k :| 0 <= k < |blocks| && out[blocks[k].id].x == x {
      ColumnIsLayer(blocks, depth, out, LayerOf(depth, blocks[k]), |blocks|);
      LayerCentred(blocks, depth, LayerOf(depth, blocks[k]));
    } else {
      EmptyColumn(blocks, out, x, |blocks|);
    }
  }

  // ---------------------------------------------------------------- the layout, from blocks and edges alone

  ghost predicate Leads(edges: seq<CfgEdge>, a: int, b: int) {
    exists e <- edges :: e.from == a && e.to == b
  }

  /** A path of blocks along the flow edges, from the entry to this block. */
  ghost predicate PathTo(detail: CfgDetail, path: seq<int>, b: int) {
    && path != [] && path[0] == detail.entry && path[|path| - 1] == b
    && forall k | 0 <= k < |path| - 1 :: Leads(detail.edges, path[k], path[k + 1])
  }

  lemma {:induction false} PathIsWalk(detail: CfgDetail, path: seq<int>, b: int)
    requires PathTo(detail, path, b)
    ensures Walk(FlowArcs(detail.edges), detail.entry, b, |path| - 1)
    decreases |path|
  {
    var n := |path| - 1;
    if n > 0 {
      PathIsWalk(detail, path[..n], path[n - 1]);
      assert Leads(detail.edges, path[n - 1], path[n]);
      WalkStep(FlowArcs(detail.edges), detail.entry, path[n - 1], b, n - 1);
    }
  }

  lemma {:induction false} WalkIsPath(detail: CfgDetail, b: int, n: nat) returns (path: seq<int>)
    requires Walk(FlowArcs(detail.edges), detail.entry, b, n)
    ensures PathTo(detail, path, b) && |path| == n + 1
    decreases n
  {
    if n == 0 {
      path := [b];
    } else {
      var m :| Walk(FlowArcs(detail.edges), detail.entry, m, n - 1) && (m, b) in FlowArcs(detail.edges);
      path := WalkIsPath(detail, m, n - 1);
      assert Leads(detail.edges, m, b);
      path := path + [b];
    }
  }

  /** The column of a block: 120 for each edge of a shortest path from the entry, and 0 without a path. */
  ghost predicate IsColumn(detail: CfgDetail, b: int, x: real) {
    && (forall path | PathTo(detail, path, b) :: x <= 120.0 * (|path| - 1) as real)
    && (if exists path :: PathTo(detail, path, b)
        then exists path :: PathTo(detail, path, b) && x == 120.0 * (|path| - 1) as real
        else x == 0.0)
  }

  ghost predicate InColumns(detail: CfgDetail, out: map<int, Position>) {
    forall i | 0 <= i < |detail.blocks| ::
      var b := detail.blocks[i].id; b in out && IsColumn(detail, b, out[b].x)
  }

  lemma DepthIsColumn(detail: CfgDetail, depth: map<int, nat>, b: int)
    requires Layering(detail, depth)
    ensures IsColumn(detail, b, 120.0 * (if b in depth then depth[b] else 0) as real)
  {
    forall path | PathTo(detail, path, b) ensures b in depth && depth[b] <= |path| - 1 {
      PathIsWalk(detail, path, b);
      assert Reaches(FlowArcs(detail.edges), detail.entry, b);
      assert Distance(FlowArcs(detail.edges), detail.entry, b, depth[b]);
    }
    if b in depth {
      assert Distance(FlowArcs(detail.edges), detail.entry, b, depth[b]);
      var path := WalkIsPath(detail, b, depth[b]);
    }
  }

  /** In a layout every block is drawn in its column. */
  lemma LayoutByPaths(detail: CfgDetail, out: map<int, Position>)
    requires IsLayout(detail, out)
    ensures InColumns(detail, out)
  {
    var depth :| LaidOut(detail, depth, out);
    forall i | 0 <= i < |detail.blocks|
      ensures var b := detail.blocks[i].id; b in out && IsColumn(detail, b, out[b].x)
    {
      DrawnInLayer(detail.blocks, depth, out, i);
      DepthIsColumn(detail, depth, detail.blocks[i].id);
    }
  }

  /** The entry is drawn at 0. */
  lemma EntryColumn(detail: CfgDetail, x: real)
    requires IsColumn(detail, detail.entry, x)
    ensures x == 0.0
  {
    assert PathTo(detail, [detail.entry], detail.entry);
  }

  lemma PathGrows(detail: CfgDetail, path: seq<int>, a: int, b: int)
    requires PathTo(detail, path, a) && Leads(detail.edges, a, b)
    ensures PathTo(detail, path + [b], b)
  {
  }

  /** Along a flow edge from a block on a path, the drawing moves at most one column to the right. */
  lemma NextColumn(detail: CfgDetail, a: int, x: real, b: int, y: real, path: seq<int>)
    requires IsColumn(detail, a, x) && IsColumn(detail, b, y)
    requires PathTo(detail, path, a) && Leads(detail.edges, a, b)
    ensures y <= x + 120.0
  {
    var shortest :| PathTo(detail, shortest, a) && x == 120.0 * (|shortest| - 1) as real;
    PathGrows(detail, shortest, a, b);
  }

  /** A block that is not at 0 has an edge from one whose column is exactly the one to its left. */
  lemma PreviousColumn(detail: CfgDetail, b: int, y: real) returns (a: int)
    requires IsColumn(detail, b, y) && y > 0.0
    ensures Leads(detail.edges, a, b) && IsColumn(detail, a, y - 120.0)
  {
    var path :| PathTo(detail, path, b) && y == 120.0 * (|path| - 1) as real;
    var n := |path| - 1;
    a := path[n - 1];
    assert Leads(detail.edges, path[n - 1], path[n]);
    assert PathTo(detail, path[..n], a);
    forall other | PathTo(detail, other, a) ensures y - 120.0 <= 120.0 * (|other| - 1) as real {
      PathGrows(detail, other, a, b);
    }
  }

  /** There is only one column for a block. */
  lemma ColumnUnique(detail: CfgDetail, b: int, x: real, y: real)
    requires IsColumn(detail, b, x) && IsColumn(detail, b, y)
    ensures x == y
  {
  }

  lemma {:induction false} NoneBetween(blocks: seq<Block>, depth: map<int, nat>, layer: nat, i: nat, j: nat)
    requires i <= j <= |blocks| && forall k | i <= k < j :: LayerOf(depth, blocks[k]) != layer
    ensures LayerSize(blocks[..i], depth, layer) == LayerSize(blocks[..j], depth, layer)
    decreases j
  {
    if i < j {
      assert blocks[..j][..j - 1] == blocks[..j - 1];
      NoneBetween(blocks, depth, layer, i, j - 1);
    }
  }

  lemma PlacesApart(blocks: seq<Block>, depth: map<int, nat>, i: nat, j: nat)
    requires i < j < |blocks| && LayerOf(depth, blocks[i]) == LayerOf(depth, blocks[j])
    requires forall k | i < k < j :: LayerOf(depth, blocks[k]) != LayerOf(depth, blocks[i])
    ensures Place(blocks, depth, j).y == Place(blocks, depth, i).y + 80.0
  {
    NoneBetween(blocks, depth, LayerOf(depth, blocks[i]), i + 1, j);
    assert blocks[..i + 1][..i] == blocks[..i];
  }

  /** Block `j` is the next one after block `i` in its column. */
  ghost predicate NextInColumn(blocks: seq<Block>, out: map<int, Position>, i: nat, j: nat) {
    && i < j < |blocks| && (forall k | 0 <= k < |blocks| :: blocks[k].id in out)
    && out[blocks[j].id].x == out[blocks[i].id].x
    && forall k | i < k < j :: out[blocks[k].id].x != out[blocks[i].id].x
  }

  lemma DrawnApart(blocks: seq<Block>, depth: map<int, nat>, out: map<int, Position>, i: nat, j: nat)
    requires NextInColumn(blocks, out, i, j)
    requires forall k | 0 <= k < |blocks| :: out[blocks[k].id] == Place(blocks, depth, k)
    ensures out[blocks[j].id].y == out[blocks[i].id].y + 80.0
  {
    PlacesApart(blocks, depth, i, j);
  }

  /** Neighbours in a column, in block order, are drawn 80 apart. */
  lemma ColumnSpacing(detail: CfgDetail, out: map<int, Position>, i: nat, j: nat)
    requires IsLayout(detail, out) && DistinctIds(detail.blocks) && NextInColumn(detail.blocks, out, i, j)
    ensures out[detail.blocks[j].id].y == out[detail.blocks[i].id].y + 80.0
  {
    var blocks := detail.blocks;
    var depth :| LaidOut(detail, depth, out);
    forall k | 0 <= k < |blocks| ensures out[blocks[k].id] == Place(blocks, depth, k) {
      DrawnAtPlace(blocks, Places(blocks, depth), out, k);
    }
    DrawnApart(blocks, depth, out, i, j);
  }
}
