/** The data-flow graph of a function (`computeDataflowGraph` of dashboard/src/dataflowEngine.ts). */
module DataflowEngine {
  import opened Wrappers
  import opened SliceEngine
  import opened Ordering
  import Text

  datatype CfgBlock = CfgBlock(id: int, startLine: int, endLine: int)

  datatype CfgEdge = CfgEdge(from: int, to: int)

  datatype CfgDetail = CfgDetail(blocks: seq<CfgBlock>, edges: seq<CfgEdge>)

  datatype EdgeKind = Data | Control | Cfg

  datatype GraphNode = GraphNode(
    id: string, line: int, text: string, defined: seq<string>, used: seq<string>, blockIndex: Option<int>)

  datatype GraphEdge = GraphEdge(source: string, target: string, kind: EdgeKind, variable: Option<string>)

  datatype Graph = Graph(
    variable: Option<string>, includeControl: bool, includeCfg: bool,
    nodes: seq<GraphNode>, edges: seq<GraphEdge>, lines: seq<int>,
    dataEdgeCount: nat, controlEdgeCount: nat, cfgEdgeCount: nat)

  /** `localeCompare`: some comparison that orders all texts. */
  type Compare = (string, string) -> int

  ghost predicate OrdersTexts(compare: Compare) {
    && (forall a, b :: compare(a, b) <= 0 || compare(b, a) <= 0)
    && (forall a, b, c :: compare(a, b) <= 0 && compare(b, c) <= 0 ==> compare(a, c) <= 0)
  }

  /** The white space that `String.prototype.trim` removes. */
  predicate JsSpace(c: char) {
    || '\t' <= c <= '\r' || c == ' ' || c == '\U{A0}' || c == '\U{1680}' || '\U{2000}' <= c <= '\U{200A}'
    || c == '\U{2028}' || c == '\U{2029}' || c == '\U{202F}' || c == '\U{205F}' || c == '\U{3000}' || c == '\U{FEFF}'
  }

  function VarFilter(variable: Option<string>): Option<string> {
    match variable
    case None => None
    case Some(v) => if Text.Trim(v, JsSpace) == "" then None else Some(Text.Trim(v, JsSpace))
  }

  predicate TouchesVariable(n: PdgNode, variable: string) {
    variable in n.defined || variable in n.used
  }

  // ---------------------------------------------------------------- selecting

  function Keep(edges: seq<PdgEdge>, wanted: PdgEdge -> bool): seq<PdgEdge> {
    if edges == [] then []
    else Keep(edges[..|edges| - 1], wanted) + if wanted(edges[|edges| - 1]) then [edges[|edges| - 1]] else []
  }

  lemma {:induction false} KeepKeeps(edges: seq<PdgEdge>, wanted: PdgEdge -> bool)
    ensures forall e :: e in Keep(edges, wanted) <==> e in edges && wanted(e)
  {
    if edges != [] {
      var rest := edges[..|edges| - 1];
      KeepKeeps(rest, wanted);
      assert edges == rest + [edges[|edges| - 1]];
    }
  }

  /** What is kept stays in the given order, each edge as often as it is there. */
  lemma {:induction false} KeepPicks(edges: seq<PdgEdge>, wanted: PdgEdge -> bool) returns (at: seq<nat>)
    ensures Picks(edges, Keep(edges, wanted), at)
    ensures forall i | 0 <= i < |edges| :: i in at <==> wanted(edges[i])
  {
    at := [];
    if edges != [] {
      var n := |edges| - 1;
      var before := KeepPicks(edges[..n], wanted);
      var last := wanted(edges[n]);
      PicksMore(edges, Keep(edges[..n], wanted), before, last);
      at := before + if last then [n] else [];
      forall i | 0 <= i < n ensures i in at <==> wanted(edges[i]) {
        assert edges[..n][i] == edges[i];
      }
    }
  }

  function DataEdges(edges: seq<PdgEdge>): seq<PdgEdge> {
    Keep(edges, (e: PdgEdge) => e.kind == "data")
  }

  function Within(edges: seq<PdgEdge>, ids: set<string>): seq<PdgEdge> {
    Keep(edges, (e: PdgEdge) => e.source in ids && e.target in ids)
  }

  function About(edges: seq<PdgEdge>, variable: string): seq<PdgEdge> {
    Keep(edges, (e: PdgEdge) => e.variable == Some(variable))
  }

  function ControlWithin(edges: seq<PdgEdge>, ids: set<string>): seq<PdgEdge> {
    Keep(edges, (e: PdgEdge) => e.kind == "control" && e.source in ids && e.target in ids)
  }

  /** A node id that the graph shows: all of them, or those that the filtered variable involves. */
  ghost predicate Shown(nodes: seq<PdgNode>, edges: seq<PdgEdge>, filter: Option<string>, id: string) {
    match filter
    case None => exists n <- nodes :: n.id == id
    case Some(v) =>
      || (exists e <- edges :: e.kind == "data" && e.variable == Some(v) && (e.source == id || e.target == id))
      || (exists n <- nodes :: n.id == id && TouchesVariable(n, v))
  }

  method AddNodeIds(nodes: seq<PdgNode>, filter: Option<string>, initial: set<string>) returns (ids: set<string>)
    ensures forall id :: id in ids <==>
              id in initial || exists n <- nodes :: n.id == id && (filter.Some? ==> TouchesVariable(n, filter.value))
  {
    ids := initial;
    for i := 0 to |nodes|
      invariant forall id :: id in ids <==>
          id in initial || exists n <- nodes[..i] :: n.id == id && (filter.Some? ==> TouchesVariable(n, filter.value))
    {
      assert nodes[..i + 1] == nodes[..i] + [nodes[i]];
      if filter.None? || TouchesVariable(nodes[i], filter.value) {
        ids := ids + {nodes[i].id};
      }
    }
    assert nodes[..|nodes|] == nodes;
  }

  method AddEndpoints(edges: seq<PdgEdge>) returns (ids: set<string>)
    ensures forall id :: id in ids <==> exists e <- edges :: e.source == id || e.target == id
  {
    ids := {};
    for i := 0 to |edges|
      invariant forall id :: id in ids <==> exists e <- edges[..i] :: e.source == id || e.target == id
    {
      assert edges[..i + 1] == edges[..i] + [edges[i]];
      ids := ids + {edges[i].source} + {edges[i].target};
    }
    assert edges[..|edges|] == edges;
  }

  /** The data edges of the graph: all, those about the variable, or failing that those among the shown nodes. */
  ghost predicate IsDataSelection(edges: seq<PdgEdge>, filter: Option<string>, ids: set<string>, data: seq<PdgEdge>) {
    match filter
    case None => data == DataEdges(edges)
    case Some(v) =>
      var about := About(DataEdges(edges), v);
      data == if about == [] && ids != {} then Within(DataEdges(edges), ids) else about
  }

  method SelectData(nodes: seq<PdgNode>, edges: seq<PdgEdge>, filter: Option<string>)
    returns (ids: set<string>, data: seq<PdgEdge>)
    ensures forall id :: id in ids <==> Shown(nodes, edges, filter, id)
    ensures IsDataSelection(edges, filter, ids, data)
  {
    var allData := DataEdges(edges);
    KeepKeeps(edges, (e: PdgEdge) => e.kind == "data");
    if filter.None? {
      data := allData;
      ids := AddNodeIds(nodes, None, {});
    } else {
      data := About(allData, filter.value);
      KeepKeeps(allData, (e: PdgEdge) => e.variable == Some(filter.value));
      var ends := AddEndpoints(data);
      ids := AddNodeIds(nodes, filter, ends);
      if data == [] && ids != {} {
        data := Within(allData, ids);
      }
    }
  }

  // ---------------------------------------------------------------- sorting the nodes

  predicate NodeLe(compare: Compare, a: PdgNode, b: PdgNode) {
    a.line < b.line || (a.line == b.line && compare(a.id, b.id) <= 0)
  }

  ghost predicate SortedNodes(compare: Compare, nodes: seq<PdgNode>) {
    forall i, j | 0 <= i < j < |nodes| :: NodeLe(compare, nodes[i], nodes[j])
  }

  function InsertNode(compare: Compare, sorted: seq<PdgNode>, n: PdgNode): seq<PdgNode> {
    if sorted == [] || NodeLe(compare, sorted[|sorted| - 1], n) then sorted + [n]
    else InsertNode(compare, sorted[..|sorted| - 1], n) + [sorted[|sorted| - 1]]
  }

  /** A stable sort by line and then by id. */
  function SortNodes(compare: Compare, nodes: seq<PdgNode>): seq<PdgNode> {
    if nodes == [] then [] else InsertNode(compare, SortNodes(compare, nodes[..|nodes| - 1]), nodes[|nodes| - 1])
  }

  lemma NodeOrder(compare: Compare, a: PdgNode, b: PdgNode, c: PdgNode)
    requires OrdersTexts(compare)
    ensures NodeLe(compare, a, b) || NodeLe(compare, b, a)
    ensures NodeLe(compare, a, b) && NodeLe(compare, b, c) ==> NodeLe(compare, a, c)
  {
  }

  ghost predicate AllBefore(compare: Compare, nodes: seq<PdgNode>, n: PdgNode) {
    forall i | 0 <= i < |nodes| :: NodeLe(compare, nodes[i], n)
  }

  lemma AppendSorted(compare: Compare, nodes: seq<PdgNode>, n: PdgNode)
    requires SortedNodes(compare, nodes) && AllBefore(compare, nodes, n)
    ensures SortedNodes(compare, nodes + [n])
  {
  }

  lemma {:induction false} InsertNodeKeeps(compare: Compare, sorted: seq<PdgNode>, n: PdgNode)
    ensures multiset(InsertNode(compare, sorted, n)) == multiset(sorted) + multiset{n}
  {
    if sorted != [] {
      var rest, last := sorted[..|sorted| - 1], sorted[|sorted| - 1];
      assert sorted == rest + [last];
      InsertNodeKeeps(compare, rest, n);
    }
  }

  lemma {:induction false} InsertNodeBefore(compare: Compare, sorted: seq<PdgNode>, n: PdgNode, x: PdgNode)
    requires AllBefore(compare, sorted, x) && NodeLe(compare, n, x)
    ensures AllBefore(compare, InsertNode(compare, sorted, n), x)
  {
    if sorted != [] {
      InsertNodeBefore(compare, sorted[..|sorted| - 1], n, x);
    }
  }

  lemma AfterTheLast(compare: Compare, sorted: seq<PdgNode>, n: PdgNode)
    requires OrdersTexts(compare) && SortedNodes(compare, sorted) && sorted != []
    requires NodeLe(compare, sorted[|sorted| - 1], n)
    ensures AllBefore(compare, sorted, n)
  {
    forall i | 0 <= i < |sorted| ensures NodeLe(compare, sorted[i], n) {
      NodeOrder(compare, sorted[i], sorted[|sorted| - 1], n);
    }
  }

  /** Inserting keeps the order. */
  lemma {:induction false} InsertNodeSorts(compare: Compare, sorted: seq<PdgNode>, n: PdgNode)
    requires OrdersTexts(compare) && SortedNodes(compare, sorted)
    ensures SortedNodes(compare, InsertNode(compare, sorted, n))
  {
    if sorted != [] {
      var rest, last := sorted[..|sorted| - 1], sorted[|sorted| - 1];
      if NodeLe(compare, last, n) {
        AfterTheLast(compare, sorted, n);
        AppendSorted(compare, sorted, n);
      } else {
        NodeOrder(compare, last, n, n);
        InsertNodeSorts(compare, rest, n);
        InsertNodeBefore(compare, rest, n, last);
        AppendSorted(compare, InsertNode(compare, rest, n), last);
      }
    }
  }

  lemma {:induction false} SortNodesSorts(compare: Compare, nodes: seq<PdgNode>)
    requires OrdersTexts(compare)
    ensures SortedNodes(compare, SortNodes(compare, nodes))
    ensures multiset(SortNodes(compare, nodes)) == multiset(nodes)
  {
    if nodes != [] {
      var rest, last := nodes[..|nodes| - 1], nodes[|nodes| - 1];
      SortNodesSorts(compare, rest);
      SortOneMore(compare, SortNodes(compare, rest), rest, last);
      assert nodes == rest + [last];
    }
  }

  lemma {:induction false} SortOneMore(compare: Compare, sorted: seq<PdgNode>, rest: seq<PdgNode>, last: PdgNode)
    requires OrdersTexts(compare) && SortedNodes(compare, sorted) && multiset(sorted) == multiset(rest)
    ensures SortedNodes(compare, InsertNode(compare, sorted, last))
    ensures multiset(InsertNode(compare, sorted, last)) == multiset(rest + [last])
  {
    InsertNodeSorts(compare, sorted, last);
    InsertNodeKeeps(compare, sorted, last);
  }

  // ---------------------------------------------------------------- blocks and bridges

  predicate CoversLine(b: CfgBlock, line: int) {
    b.startLine <= line <= b.endLine && (b.startLine > 0 || b.endLine > 0)
  }

  function FirstCovering(blocks: seq<CfgBlock>, line: int): Option<int> {
    if blocks == [] then None
    else if CoversLine(blocks[0], line) then Some(blocks[0].id)
    else FirstCovering(blocks[1..], line)
  }

  /** The block of a statement: recorded, or else the first block that covers its line. */
  function ResolveBlockIndex(n: PdgNode, cfg: Option<CfgDetail>): Option<int> {
    if n.blockIndex.Some? then n.blockIndex
    else if cfg.None? then None
    else FirstCovering(cfg.value.blocks, n.line)
  }

  /** The ids of the nodes of one block, in node order. */
  function BlockIds(nodes: seq<PdgNode>, cfg: Option<CfgDetail>, block: int): seq<string> {
    if nodes == [] then []
    else
      var n := nodes[|nodes| - 1];
      BlockIds(nodes[..|nodes| - 1], cfg, block) + if ResolveBlockIndex(n, cfg) == Some(block) then [n.id] else []
  }

  function IdsOf(blockNodes: map<int, seq<string>>, block: int): seq<string> {
    if block in blockNodes then blockNodes[block] else []
  }

  lemma {:induction false} BlockIdsNext(nodes: seq<PdgNode>, cfg: Option<CfgDetail>, n: nat, block: int)
    requires n < |nodes|
    ensures BlockIds(nodes[..n + 1], cfg, block)
         == BlockIds(nodes[..n], cfg, block)
          + if ResolveBlockIndex(nodes[n], cfg) == Some(block) then [nodes[n].id] else []
  {
    assert nodes[..n + 1][..n] == nodes[..n];
  }

  method BlockToNodes(nodes: seq<PdgNode>, cfg: Option<CfgDetail>) returns (out: map<int, seq<string>>)
    ensures forall block :: IdsOf(out, block) == BlockIds(nodes, cfg, block)
  {
    out := map[];
    for i := 0 to |nodes|
      invariant forall block :: IdsOf(out, block) == BlockIds(nodes[..i], cfg, block)
    {
      forall block {
        BlockIdsNext(nodes, cfg, i, block);
      }
      var resolved := ResolveBlockIndex(nodes[i], cfg);
      if resolved.None? {
        continue;
      }
      var block := resolved.value;
      if block !in out {
        out := out[block := []];
      }
      out := out[block := out[block] + [nodes[i].id]];
    }
    assert nodes[..|nodes|] == nodes;
  }

  /** The bridge of one flow edge: none when one of its blocks keeps no statement. */
  function Bridge(nodes: seq<PdgNode>, cfg: Option<CfgDetail>, e: CfgEdge): seq<GraphEdge> {
    var sources, targets := BlockIds(nodes, cfg, e.from), BlockIds(nodes, cfg, e.to);
    if sources == [] || targets == [] then [] else [GraphEdge(sources[|sources| - 1], targets[0], Cfg, None)]
  }

  function Bridges(nodes: seq<PdgNode>, cfg: Option<CfgDetail>, edges: seq<CfgEdge>): seq<GraphEdge> {
    if edges == [] then []
    else Bridges(nodes, cfg, edges[..|edges| - 1]) + Bridge(nodes, cfg, edges[|edges| - 1])
  }

  lemma {:induction false} BridgesStep(nodes: seq<PdgNode>, cfg: Option<CfgDetail>, edges: seq<CfgEdge>, i: nat,
                                       sources: seq<string>, targets: seq<string>)
    requires i < |edges|
    requires sources == BlockIds(nodes, cfg, edges[i].from) && targets == BlockIds(nodes, cfg, edges[i].to)
    ensures Bridges(nodes, cfg, edges[..i + 1])
              == Bridges(nodes, cfg, edges[..i])
                 + if sources == [] || targets == [] then []
                   else [GraphEdge(sources[|sources| - 1], targets[0], Cfg, None)]
  {
    assert edges[..i + 1][..i] == edges[..i];
  }

  lemma {:induction false} BlockIdsAreNodes(nodes: seq<PdgNode>, cfg: Option<CfgDetail>, block: int)
    ensures forall id <- BlockIds(nodes, cfg, block) ::
              exists n <- nodes :: n.id == id && ResolveBlockIndex(n, cfg) == Some(block)
  {
    if nodes != [] {
      var rest := nodes[..|nodes| - 1];
      BlockIdsAreNodes(rest, cfg, block);
      assert nodes == rest + [nodes[|nodes| - 1]];
    }
  }

  lemma {:induction false} EndsAllowed(nodes: seq<PdgNode>, cfg: Option<CfgDetail>, block: int, ids: seq<string>,
                                       allowed: set<string>)
    requires forall n <- nodes :: n.id in allowed
    requires ids == BlockIds(nodes, cfg, block) && ids != []
    ensures ids[0] in allowed && ids[|ids| - 1] in allowed
  {
    BlockIdsAreNodes(nodes, cfg, block);
    assert ids[0] in ids && ids[|ids| - 1] in ids;
  }

  method CfgBridgeEdges(nodes: seq<PdgNode>, cfg: CfgDetail, blockNodes: map<int, seq<string>>, allowed: set<string>)
    returns (edges: seq<GraphEdge>)
    requires forall block :: IdsOf(blockNodes, block) == BlockIds(nodes, Some(cfg), block)
    requires forall n <- nodes :: n.id in allowed
    ensures edges == Bridges(nodes, Some(cfg), cfg.edges)
  {
    edges := [];
    for i := 0 to |cfg.edges|
      invariant edges == Bridges(nodes, Some(cfg), cfg.edges[..i])
    {
      var e := cfg.edges[i];
      var sources, targets := IdsOf(blockNodes, e.from), IdsOf(blockNodes, e.to);
      BridgesStep(nodes, Some(cfg), cfg.edges, i, sources, targets);
      if |sources| == 0 || |targets| == 0 {
        continue;
      }
      EndsAllowed(nodes, Some(cfg), e.from, sources, allowed);
      EndsAllowed(nodes, Some(cfg), e.to, targets, allowed);
      var source, target := sources[|sources| - 1], targets[0];
      if source !in allowed || target !in allowed {
        continue;
      }
      edges := edges + [GraphEdge(source, target, Cfg, None)];
    }
    assert cfg.edges[..|cfg.edges|] == cfg.edges;
  }

  /** `n` is among the nodes of the block, and no node of the block comes after it. */
  ghost predicate GreatestOf(compare: Compare, nodes: seq<PdgNode>, cfg: Option<CfgDetail>, block: int, n: PdgNode) {
    && n in nodes && ResolveBlockIndex(n, cfg) == Some(block)
    && forall m <- nodes | ResolveBlockIndex(m, cfg) == Some(block) :: m == n || NodeLe(compare, m, n)
  }

  ghost predicate LeastOf(compare: Compare, nodes: seq<PdgNode>, cfg: Option<CfgDetail>, block: int, n: PdgNode) {
    && n in nodes && ResolveBlockIndex(n, cfg) == Some(block)
    && forall m <- nodes | ResolveBlockIndex(m, cfg) == Some(block) :: m == n || NodeLe(compare, n, m)
  }

  ghost predicate KeepsStatement(nodes: seq<PdgNode>, cfg: Option<CfgDetail>, block: int) {
    exists n <- nodes :: ResolveBlockIndex(n, cfg) == Some(block)
  }

  lemma EndsWithOneMore(compare: Compare, rest: seq<PdgNode>, last: PdgNode, cfg: Option<CfgDetail>, block: int,
                        n: PdgNode)
    requires AllBefore(compare, rest, last)
    ensures LeastOf(compare, rest, cfg, block, n) ==> LeastOf(compare, rest + [last], cfg, block, n)
    ensures GreatestOf(compare, rest, cfg, block, n) && ResolveBlockIndex(last, cfg) != Some(block) ==>
              GreatestOf(compare, rest + [last], cfg, block, n)
    ensures ResolveBlockIndex(last, cfg) == Some(block) ==> GreatestOf(compare, rest + [last], cfg, block, last)
    ensures ResolveBlockIndex(last, cfg) == Some(block) && !KeepsStatement(rest, cfg, block) ==>
              LeastOf(compare, rest + [last], cfg, block, last)
  {
    var nodes := rest + [last];
    assert forall m :: m in nodes <==> m in rest || m == last;
    forall m <- rest ensures NodeLe(compare, m, last) {
      var i :| 0 <= i < |rest| && rest[i] == m;
    }
  }

  ghost predicate EndsAt(compare: Compare, nodes: seq<PdgNode>, cfg: Option<CfgDetail>, block: int, least: string,
                         greatest: string) {
    && (exists n :: GreatestOf(compare, nodes, cfg, block, n) && n.id == greatest)
    && (exists n :: LeastOf(compare, nodes, cfg, block, n) && n.id == least)
  }

  /** The ids of a block's nodes: none if it keeps no statement, else from its least to its greatest one. */
  ghost predicate EndsOf(compare: Compare, nodes: seq<PdgNode>, cfg: Option<CfgDetail>, block: int, ids: seq<string>) {
    && (ids == [] <==> !KeepsStatement(nodes, cfg, block))
    && (ids != [] ==> EndsAt(compare, nodes, cfg, block, ids[0], ids[|ids| - 1]))
  }

  /** Of sorted nodes, the first and the last of a block are its least and its greatest statement. */
  lemma {:induction false} BlockEnds(compare: Compare, nodes: seq<PdgNode>, cfg: Option<CfgDetail>, block: int)
    requires SortedNodes(compare, nodes)
    ensures EndsOf(compare, nodes, cfg, block, BlockIds(nodes, cfg, block))
  {
    if nodes != [] {
      var rest, last := nodes[..|nodes| - 1], nodes[|nodes| - 1];
      assert AllBefore(compare, rest, last);
      BlockEnds(compare, rest, cfg, block);
      BlockEndsStep(compare, rest, last, cfg, block, BlockIds(rest, cfg, block));
      assert nodes == rest + [last];
    }
  }

  lemma BlockEndsStep(compare: Compare, rest: seq<PdgNode>, last: PdgNode, cfg: Option<CfgDetail>, block: int,
                      ids: seq<string>)
    requires AllBefore(compare, rest, last) && EndsOf(compare, rest, cfg, block, ids)
    ensures EndsOf(compare, rest + [last], cfg, block,
                   ids + if ResolveBlockIndex(last, cfg) == Some(block) then [last.id] else [])
  {
    KeepsOneMore(rest, last, cfg, block);
    if ids != [] {
      EndsAtOneMore(compare, rest, last, cfg, block, ids[0], ids[|ids| - 1]);
    } else if ResolveBlockIndex(last, cfg) == Some(block) {
      EndsWithOneMore(compare, rest, last, cfg, block, last);
      assert EndsAt(compare, rest + [last], cfg, block, last.id, last.id);
    }
  }

  lemma KeepsOneMore(rest: seq<PdgNode>, last: PdgNode, cfg: Option<CfgDetail>, block: int)
    ensures KeepsStatement(rest + [last], cfg, block)
       <==> KeepsStatement(rest, cfg, block) || ResolveBlockIndex(last, cfg) == Some(block)
  {
    assert forall m :: m in rest + [last] <==> m in rest || m == last;
  }

  lemma EndsAtOneMore(compare: Compare, rest: seq<PdgNode>, last: PdgNode, cfg: Option<CfgDetail>, block: int,
                      least: string, greatest: string)
    requires AllBefore(compare, rest, last) && EndsAt(compare, rest, cfg, block, least, greatest)
    ensures EndsAt(compare, rest + [last], cfg, block, least,
                   if ResolveBlockIndex(last, cfg) == Some(block) then last.id else greatest)
  {
    var n :| LeastOf(compare, rest, cfg, block, n) && n.id == least;
    EndsWithOneMore(compare, rest, last, cfg, block, n);
    var m :| GreatestOf(compare, rest, cfg, block, m) && m.id == greatest;
    EndsWithOneMore(compare, rest, last, cfg, block, m);
  }

  /** A flow edge has one bridge, from the greatest to the least statement, exactly when both its blocks keep one. */
  lemma BridgeMeaning(compare: Compare, nodes: seq<PdgNode>, cfg: Option<CfgDetail>, e: CfgEdge)
    requires SortedNodes(compare, nodes)
    ensures Bridge(nodes, cfg, e) == [] <==> !(KeepsStatement(nodes, cfg, e.from) && KeepsStatement(nodes, cfg, e.to))
    ensures Bridge(nodes, cfg, e) != [] ==>
              && |Bridge(nodes, cfg, e)| == 1 && Bridge(nodes, cfg, e)[0].kind == Cfg
              && (exists n :: GreatestOf(compare, nodes, cfg, e.from, n) && n.id == Bridge(nodes, cfg, e)[0].source)
              && (exists n :: LeastOf(compare, nodes, cfg, e.to, n) && n.id == Bridge(nodes, cfg, e)[0].target)
  {
    BlockEnds(compare, nodes, cfg, e.from);
    BlockEnds(compare, nodes, cfg, e.to);
  }

  // ---------------------------------------------------------------- the graph

  function ToGraphNodes(nodes: seq<PdgNode>, cfg: Option<CfgDetail>): (r: seq<GraphNode>)
    ensures |r| == |nodes|
    ensures forall i | 0 <= i < |nodes| :: r[i].id == nodes[i].id && r[i].line == nodes[i].line
  {
    seq(|nodes|, i requires 0 <= i < |nodes| =>
      GraphNode(nodes[i].id, nodes[i].line, nodes[i].text, nodes[i].defined, nodes[i].used,
        ResolveBlockIndex(nodes[i], cfg)))
  }

  function ToGraphEdges(edges: seq<PdgEdge>, kind: EdgeKind): (r: seq<GraphEdge>)
    ensures |r| == |edges|
    ensures forall i | 0 <= i < |edges| :: r[i] == GraphEdge(edges[i].source, edges[i].target, kind, edges[i].variable)
  {
    seq(|edges|, i requires 0 <= i < |edges| => GraphEdge(edges[i].source, edges[i].target, kind, edges[i].variable))
  }

  /** The nodes of the graph: `kept`, in drawing order, are those with a shown id; `lines` are their lines. */
  ghost predicate HasNodes(nodes: seq<PdgNode>, edges: seq<PdgEdge>, cfg: Option<CfgDetail>, filter: Option<string>,
                           compare: Compare, g: Graph, kept: seq<PdgNode>, ids: set<string>) {
    && (forall id :: id in ids <==> Shown(nodes, edges, filter, id))
    && multiset(kept) == multiset(FilterNodes(nodes, ids)) && SortedNodes(compare, kept)
    && g.nodes == ToGraphNodes(kept, cfg)
    && StrictlyIncreasing(g.lines) && (forall l :: l in g.lines <==> exists n <- kept :: n.line == l)
  }

  /** The edges of the graph: data, then control, then bridges, and how many there are of each. */
  ghost predicate HasEdges(edges: seq<PdgEdge>, cfg: Option<CfgDetail>, filter: Option<string>, includeControl: bool,
                           includeCfg: bool, g: Graph, kept: seq<PdgNode>, ids: set<string>, data: seq<PdgEdge>) {
    var control := if includeControl then ControlWithin(edges, ids) else [];
    var bridges := if includeCfg && cfg.Some? then Bridges(kept, cfg, cfg.value.edges) else [];
    && IsDataSelection(edges, filter, ids, data)
    && g.edges == ToGraphEdges(data, Data) + ToGraphEdges(control, Control) + bridges
    && g.dataEdgeCount == |data| && g.controlEdgeCount == |control| && g.cfgEdgeCount == |bridges|
  }

  /** What the graph of the given inputs is. */
  ghost predicate IsGraph(nodes: seq<PdgNode>, edges: seq<PdgEdge>, cfg: Option<CfgDetail>, filter: Option<string>,
                          includeControl: bool, includeCfg: bool, compare: Compare, g: Graph, kept: seq<PdgNode>,
                          ids: set<string>, data: seq<PdgEdge>) {
    && HasNodes(nodes, edges, cfg, filter, compare, g, kept, ids)
    && HasEdges(edges, cfg, filter, includeControl, includeCfg, g, kept, ids, data)
    && g.variable == filter && g.includeControl == includeControl && g.includeCfg == includeCfg
  }

  /** The graph of the given inputs, for some order of kept nodes and the ids and data edges that the filter selects. */
  ghost predicate IsGraphOf(nodes: seq<PdgNode>, edges: seq<PdgEdge>, cfg: Option<CfgDetail>, filter: Option<string>,
                            includeControl: bool, includeCfg: bool, compare: Compare, g: Graph) {
    exists kept, ids, data ::
      IsGraph(nodes, edges, cfg, filter, includeControl, includeCfg, compare, g, kept, ids, data)
  }

  lemma {:induction false} NothingWithinNothing(edges: seq<PdgEdge>)
    ensures ControlWithin(edges, {}) == []
  {
    if edges != [] {
      NothingWithinNothing(edges[..|edges| - 1]);
    }
  }

  lemma {:induction false} NoNodesNoBridges(cfg: Option<CfgDetail>, edges: seq<CfgEdge>)
    ensures Bridges([], cfg, edges) == []
  {
    if edges != [] {
      NoNodesNoBridges(cfg, edges[..|edges| - 1]);
    }
  }

  method ComputeDataflowGraph(nodes: seq<PdgNode>, edges: seq<PdgEdge>, cfg: Option<CfgDetail>,
                              variable: Option<string>, includeControl: bool, includeCfg: bool, compare: Compare)
    returns (g: Graph)
    requires OrdersTexts(compare)
    ensures IsGraphOf(nodes, edges, cfg, VarFilter(variable), includeControl, includeCfg, compare, g)
  {
    var filter := VarFilter(variable);
    var nodeIds, dataEdges := SelectData(nodes, edges, filter);

    var controlEdges: seq<PdgEdge> := [];
    if includeControl && nodeIds != {} {
      controlEdges := ControlWithin(edges, nodeIds);
    }
    NothingWithinNothing(edges);

    var filteredNodes := SortNodes(compare, FilterNodes(nodes, nodeIds));
    SortNodesSorts(compare, FilterNodes(nodes, nodeIds));
    var bridges := BridgesOf(nodes, filteredNodes, cfg, nodeIds, includeCfg);
    var lines := LinesOf(filteredNodes);
    g := Graph(filter, includeControl, includeCfg, ToGraphNodes(filteredNodes, cfg),
               ToGraphEdges(dataEdges, Data) + ToGraphEdges(controlEdges, Control) + bridges, lines,
               |dataEdges|, |controlEdges|, |bridges|);
    assert IsGraph(nodes, edges, cfg, filter, includeControl, includeCfg, compare, g, filteredNodes, nodeIds,
      dataEdges);
  }

  method BridgesOf(ghost nodes: seq<PdgNode>, kept: seq<PdgNode>, cfg: Option<CfgDetail>, nodeIds: set<string>,
                   includeCfg: bool)
    returns (bridges: seq<GraphEdge>)
    requires multiset(kept) == multiset(FilterNodes(nodes, nodeIds))
    ensures bridges == if includeCfg && cfg.Some? then Bridges(kept, cfg, cfg.value.edges) else []
  {
    bridges := [];
    if includeCfg && cfg.Some? {
      NoNodesNoBridges(cfg, cfg.value.edges);
      if |kept| > 0 {
        FilterNodesKeeps(nodes, nodeIds);
        forall n <- kept ensures n.id in nodeIds {
          assert n in multiset(kept);
        }
        var blockNodes := BlockToNodes(kept, cfg);
        bridges := CfgBridgeEdges(kept, cfg.value, blockNodes, nodeIds);
      }
    }
  }

  method LinesOf(nodes: seq<PdgNode>) returns (lines: seq<int>)
    ensures StrictlyIncreasing(lines) && forall l :: l in lines <==> exists n <- nodes :: n.line == l
  {
    var lineSet: set<int> := {};
    for i := 0 to |nodes|
      invariant forall l :: l in lineSet <==> exists n <- nodes[..i] :: n.line == l
    {
      assert nodes[..i + 1] == nodes[..i] + [nodes[i]];
      lineSet := lineSet + {nodes[i].line};
    }
    assert nodes[..|nodes|] == nodes;
    lines := Ascending(lineSet);
  }

  // ---------------------------------------------------------------- what every graph satisfies

  ghost predicate Connects(nodes: seq<PdgNode>, e: PdgEdge) {
    (exists n <- nodes :: n.id == e.source) && (exists n <- nodes :: n.id == e.target)
  }

  /** Every edge of the dependence graph connects two of its nodes. */
  ghost predicate WellFormed(nodes: seq<PdgNode>, edges: seq<PdgEdge>) {
    forall e <- edges {:trigger Connects(nodes, e)} :: Connects(nodes, e)
  }

  ghost predicate Drawn(g: Graph, id: string) {
    exists i | 0 <= i < |g.nodes| :: g.nodes[i].id == id
  }

  lemma {:induction false} KeptIsDrawn(nodes: seq<PdgNode>, cfg: Option<CfgDetail>, g: Graph, kept: seq<PdgNode>,
                                       ids: set<string>, id: string)
    requires multiset(kept) == multiset(FilterNodes(nodes, ids)) && g.nodes == ToGraphNodes(kept, cfg)
    requires id in ids && exists n <- nodes :: n.id == id
    ensures Drawn(g, id)
  {
    FilterNodesKeeps(nodes, ids);
    var n :| n in nodes && n.id == id;
    assert n in multiset(FilterNodes(nodes, ids));
    assert n in multiset(kept);
    var i :| 0 <= i < |kept| && kept[i] == n;
    assert g.nodes[i].id == id;
  }

  lemma SelectedDataEndShown(nodes: seq<PdgNode>, edges: seq<PdgEdge>, filter: Option<string>, ids: set<string>,
                             data: seq<PdgEdge>, e: PdgEdge)
    requires WellFormed(nodes, edges) && IsDataSelection(edges, filter, ids, data) && e in data
    requires forall id :: id in ids <==> Shown(nodes, edges, filter, id)
    ensures e in edges && e.kind == "data" && e.source in ids && e.target in ids
  {
    KeepKeeps(edges, (e: PdgEdge) => e.kind == "data");
    if filter.Some? {
      KeepKeeps(DataEdges(edges), (e: PdgEdge) => e.variable == Some(filter.value));
      KeepKeeps(DataEdges(edges), (e: PdgEdge) => e.source in ids && e.target in ids);
    }
    assert Connects(nodes, e);
  }

  ghost predicate EndsDrawn(g: Graph, e: GraphEdge) {
    Drawn(g, e.source) && Drawn(g, e.target)
  }

  ghost predicate AllEndsDrawn(g: Graph, edges: seq<GraphEdge>) {
    forall i {:trigger EndsDrawn(g, edges[i])} | 0 <= i < |edges| :: EndsDrawn(g, edges[i])
  }

  lemma AllEndsDrawnConcat(g: Graph, a: seq<GraphEdge>, b: seq<GraphEdge>)
    requires AllEndsDrawn(g, a) && AllEndsDrawn(g, b)
    ensures AllEndsDrawn(g, a + b)
  {
    forall i | 0 <= i < |a + b| ensures EndsDrawn(g, (a + b)[i]) {
      assert i < |a| ==> EndsDrawn(g, a[i]);
      assert i >= |a| ==> EndsDrawn(g, b[i - |a|]);
    }
  }

  lemma {:induction false} BridgesDrawn(g: Graph, kept: seq<PdgNode>, cfg: Option<CfgDetail>, edges: seq<CfgEdge>)
    requires g.nodes == ToGraphNodes(kept, cfg)
    ensures AllEndsDrawn(g, Bridges(kept, cfg, edges))
  {
    var bridges := Bridges(kept, cfg, edges);
    forall k | 0 <= k < |bridges| ensures EndsDrawn(g, bridges[k]) {
      BridgesEndAtNodes(kept, cfg, edges, k);
      var i :| 0 <= i < |kept| && kept[i].id == bridges[k].source;
      var j :| 0 <= j < |kept| && kept[j].id == bridges[k].target;
      assert g.nodes[i].id == bridges[k].source && g.nodes[j].id == bridges[k].target;
    }
  }

  ghost predicate AllShown(list: seq<PdgEdge>, edges: seq<PdgEdge>, ids: set<string>) {
    forall e <- list :: e in edges && e.source in ids && e.target in ids
  }

  lemma {:induction false} DependencesDrawn(nodes: seq<PdgNode>, edges: seq<PdgEdge>, cfg: Option<CfgDetail>, g: Graph,
                                            kept: seq<PdgNode>, ids: set<string>, list: seq<PdgEdge>, kind: EdgeKind)
    requires WellFormed(nodes, edges) && AllShown(list, edges, ids)
    requires multiset(kept) == multiset(FilterNodes(nodes, ids)) && g.nodes == ToGraphNodes(kept, cfg)
    ensures AllEndsDrawn(g, ToGraphEdges(list, kind))
  {
    forall k | 0 <= k < |list| ensures EndsDrawn(g, ToGraphEdges(list, kind)[k]) {
      assert list[k] in list;
      assert Connects(nodes, list[k]);
      KeptIsDrawn(nodes, cfg, g, kept, ids, list[k].source);
      KeptIsDrawn(nodes, cfg, g, kept, ids, list[k].target);
    }
  }

  lemma SelectedDataShown(nodes: seq<PdgNode>, edges: seq<PdgEdge>, filter: Option<string>, ids: set<string>,
                          data: seq<PdgEdge>)
    requires WellFormed(nodes, edges) && IsDataSelection(edges, filter, ids, data)
    requires forall id :: id in ids <==> Shown(nodes, edges, filter, id)
    ensures AllShown(data, edges, ids)
  {
    forall e <- data ensures e in edges && e.source in ids && e.target in ids {
      SelectedDataEndShown(nodes, edges, filter, ids, data, e);
    }
  }

  /**
   A data edge that belongs to the graph: every one, those about the
   variable, or if there are none those between shown ids.
   */
  ghost predicate WantedData(nodes: seq<PdgNode>, edges: seq<PdgEdge>, filter: Option<string>, e: PdgEdge) {
    e.kind == "data" &&
    match filter
    case None => true
    case Some(v) =>
      if exists d <- edges :: d.kind == "data" && d.variable == Some(v) then e.variable == Some(v)
      else Shown(nodes, edges, filter, e.source) && Shown(nodes, edges, filter, e.target)
  }

  ghost predicate WantedControl(nodes: seq<PdgNode>, edges: seq<PdgEdge>, filter: Option<string>, e: PdgEdge) {
    e.kind == "control" && Shown(nodes, edges, filter, e.source) && Shown(nodes, edges, filter, e.target)
  }

  lemma DataExactly(nodes: seq<PdgNode>, edges: seq<PdgEdge>, filter: Option<string>, ids: set<string>,
                    data: seq<PdgEdge>)
    requires IsDataSelection(edges, filter, ids, data)
    requires forall id :: id in ids <==> Shown(nodes, edges, filter, id)
    ensures forall e :: e in data <==> e in edges && WantedData(nodes, edges, filter, e)
  {
    KeepKeeps(edges, (e: PdgEdge) => e.kind == "data");
    if filter.Some? {
      var about := About(DataEdges(edges), filter.value);
      KeepKeeps(DataEdges(edges), (e: PdgEdge) => e.variable == Some(filter.value));
      KeepKeeps(DataEdges(edges), (e: PdgEdge) => e.source in ids && e.target in ids);
      assert about != [] ==> about[0] in about;
      if d :| d in edges && d.kind == "data" && d.variable == Some(filter.value) {
        assert d in about;
      }
    }
  }

  lemma ControlExactly(nodes: seq<PdgNode>, edges: seq<PdgEdge>, filter: Option<string>, ids: set<string>)
    requires forall id :: id in ids <==> Shown(nodes, edges, filter, id)
    ensures forall e :: e in ControlWithin(edges, ids) <==> e in edges && WantedControl(nodes, edges, filter, e)
  {
    KeepKeeps(edges, (e: PdgEdge) => e.kind == "control" && e.source in ids && e.target in ids);
  }

  /** The drawing of a dependence edge. */
  function DrawnAs(e: PdgEdge, kind: EdgeKind): GraphEdge {
    GraphEdge(e.source, e.target, kind, e.variable)
  }

  lemma DrawnExactly(list: seq<PdgEdge>, kind: EdgeKind, d: GraphEdge)
    ensures d in ToGraphEdges(list, kind) <==> exists e <- list :: d == DrawnAs(e, kind)
  {
    var drawn := ToGraphEdges(list, kind);
    if d in drawn {
      var k :| 0 <= k < |drawn| && drawn[k] == d;
      assert list[k] in list && d == DrawnAs(list[k], kind);
    }
    if e :| e in list && d == DrawnAs(e, kind) {
      var k :| 0 <= k < |list| && list[k] == e;
      assert drawn[k] == d;
    }
  }

  lemma InThreeParts(a: seq<GraphEdge>, b: seq<GraphEdge>, c: seq<GraphEdge>, d: GraphEdge)
    requires forall i | 0 <= i < |a| :: a[i].kind == Data
    requires forall i | 0 <= i < |b| :: b[i].kind == Control
    requires forall i | 0 <= i < |c| :: c[i].kind == Cfg
    ensures d.kind == Data ==> (d in a + b + c <==> d in a)
    ensures d.kind == Control ==> (d in a + b + c <==> d in b)
  {
  }

  ghost predicate DrawsData(nodes: seq<PdgNode>, edges: seq<PdgEdge>, filter: Option<string>, d: GraphEdge) {
    exists e <- edges :: WantedData(nodes, edges, filter, e) && d == DrawnAs(e, Data)
  }

  ghost predicate DrawsControl(nodes: seq<PdgNode>, edges: seq<PdgEdge>, filter: Option<string>, d: GraphEdge) {
    exists e <- edges :: WantedControl(nodes, edges, filter, e) && d == DrawnAs(e, Control)
  }

  lemma DataDrawn(nodes: seq<PdgNode>, edges: seq<PdgEdge>, filter: Option<string>, ids: set<string>,
                  data: seq<PdgEdge>, d: GraphEdge)
    requires IsDataSelection(edges, filter, ids, data)
    requires forall id :: id in ids <==> Shown(nodes, edges, filter, id)
    ensures d in ToGraphEdges(data, Data) <==> DrawsData(nodes, edges, filter, d)
  {
    DrawnExactly(data, Data, d);
    DataExactly(nodes, edges, filter, ids, data);
  }

  lemma ControlDrawn(nodes: seq<PdgNode>, edges: seq<PdgEdge>, filter: Option<string>, ids: set<string>, d: GraphEdge)
    requires forall id :: id in ids <==> Shown(nodes, edges, filter, id)
    ensures d in ToGraphEdges(ControlWithin(edges, ids), Control) <==> DrawsControl(nodes, edges, filter, d)
  {
    DrawnExactly(ControlWithin(edges, ids), Control, d);
    ControlExactly(nodes, edges, filter, ids);
  }

  /**
   The data edges of the graph are the wanted ones, and its control edges are the wanted ones if they are included.
   */
  lemma EdgesExactly(nodes: seq<PdgNode>, edges: seq<PdgEdge>, cfg: Option<CfgDetail>, filter: Option<string>,
                     includeControl: bool, includeCfg: bool, compare: Compare, g: Graph, d: GraphEdge)
    requires IsGraphOf(nodes, edges, cfg, filter, includeControl, includeCfg, compare, g)
    ensures d.kind == Data ==> (d in g.edges <==> DrawsData(nodes, edges, filter, d))
    ensures d.kind == Control ==> (d in g.edges <==> includeControl && DrawsControl(nodes, edges, filter, d))
  {
    var kept, ids, data :| IsGraph(nodes, edges, cfg, filter, includeControl, includeCfg, compare, g, kept, ids, data);
    var control := if includeControl then ControlWithin(edges, ids) else [];
    var bridges := if includeCfg && cfg.Some? then Bridges(kept, cfg, cfg.value.edges) else [];
    forall k | 0 <= k < |bridges| ensures bridges[k].kind == Cfg {
      BridgesEndAtNodes(kept, cfg, cfg.value.edges, k);
    }
    InThreeParts(ToGraphEdges(data, Data), ToGraphEdges(control, Control), bridges, d);
    DataDrawn(nodes, edges, filter, ids, data, d);
    ControlDrawn(nodes, edges, filter, ids, d);
  }

  lemma ControlShown(edges: seq<PdgEdge>, ids: set<string>)
    ensures AllShown(ControlWithin(edges, ids), edges, ids)
  {
    KeepKeeps(edges, (e: PdgEdge) => e.kind == "control" && e.source in ids && e.target in ids);
  }

  /** For a well-formed dependence graph, both ends of every edge of the built graph are drawn. */
  lemma EdgesEndAtDrawnNodes(nodes: seq<PdgNode>, edges: seq<PdgEdge>, cfg: Option<CfgDetail>, filter: Option<string>,
                             includeControl: bool, includeCfg: bool, compare: Compare, g: Graph)
    requires WellFormed(nodes, edges)
    requires IsGraphOf(nodes, edges, cfg, filter, includeControl, includeCfg, compare, g)
    ensures AllEndsDrawn(g, g.edges)
  {
    var kept, ids, data :| IsGraph(nodes, edges, cfg, filter, includeControl, includeCfg, compare, g, kept, ids, data);
    var control := if includeControl then ControlWithin(edges, ids) else [];
    var bridges := if includeCfg && cfg.Some? then Bridges(kept, cfg, cfg.value.edges) else [];
    SelectedDataShown(nodes, edges, filter, ids, data);
    DependencesDrawn(nodes, edges, cfg, g, kept, ids, data, Data);
    ControlShown(edges, ids);
    DependencesDrawn(nodes, edges, cfg, g, kept, ids, control, Control);
    if bridges != [] {
      BridgesDrawn(g, kept, cfg, cfg.value.edges);
    }
    AllEndsDrawnConcat(g, ToGraphEdges(data, Data), ToGraphEdges(control, Control));
    AllEndsDrawnConcat(g, ToGraphEdges(data, Data) + ToGraphEdges(control, Control), bridges);
  }

  lemma {:induction false} BridgesEndAtNodes(nodes: seq<PdgNode>, cfg: Option<CfgDetail>, edges: seq<CfgEdge>, k: nat)
    requires k < |Bridges(nodes, cfg, edges)|
    ensures var b := Bridges(nodes, cfg, edges)[k];
            && b.kind == Cfg
            && (exists i | 0 <= i < |nodes| :: nodes[i].id == b.source)
            && (exists i | 0 <= i < |nodes| :: nodes[i].id == b.target)
  {
    var rest, e := edges[..|edges| - 1], edges[|edges| - 1];
    if k < |Bridges(nodes, cfg, rest)| {
      BridgesEndAtNodes(nodes, cfg, rest, k);
    } else {
      BlockIdsAreNodes(nodes, cfg, e.from);
      BlockIdsAreNodes(nodes, cfg, e.to);
      var sources, targets := BlockIds(nodes, cfg, e.from), BlockIds(nodes, cfg, e.to);
      assert sources[|sources| - 1] in sources && targets[0] in targets;
    }
  }

  /** The nodes that the graph shows. */
  ghost function ShownNodes(nodes: seq<PdgNode>, edges: seq<PdgEdge>, filter: Option<string>): set<PdgNode> {
    set n <- nodes | Shown(nodes, edges, filter, n.id)
  }

  ghost function Elements(nodes: seq<PdgNode>): set<PdgNode> {
    set n <- nodes
  }

  ghost predicate Inside(shown: set<PdgNode>, cfg: Option<CfgDetail>, block: int, n: PdgNode) {
    n in shown && ResolveBlockIndex(n, cfg) == Some(block)
  }

  /** The flow edges whose two blocks keep a shown statement, in their given order. */
  ghost function BridgedFlow(shown: set<PdgNode>, cfg: Option<CfgDetail>, flow: seq<CfgEdge>): seq<CfgEdge> {
    if flow == [] then []
    else
      var e := flow[|flow| - 1];
      BridgedFlow(shown, cfg, flow[..|flow| - 1]) +
      if (exists n :: Inside(shown, cfg, e.from, n)) && (exists n :: Inside(shown, cfg, e.to, n)) then [e] else []
  }

  ghost predicate GreatestInside(compare: Compare, shown: set<PdgNode>, cfg: Option<CfgDetail>, block: int,
    n: PdgNode) {
    Inside(shown, cfg, block, n) && forall m | Inside(shown, cfg, block, m) :: m == n || NodeLe(compare, m, n)
  }

  ghost predicate LeastInside(compare: Compare, shown: set<PdgNode>, cfg: Option<CfgDetail>, block: int, n: PdgNode) {
    Inside(shown, cfg, block, n) && forall m | Inside(shown, cfg, block, m) :: m == n || NodeLe(compare, n, m)
  }

  /** The edge leads from a greatest shown statement of the one block to a least shown statement of the other. */
  ghost predicate DrawsBridge(compare: Compare, shown: set<PdgNode>, cfg: Option<CfgDetail>, e: CfgEdge, d: GraphEdge) {
    && d.kind == Cfg && d.variable == None
    && (exists n :: GreatestInside(compare, shown, cfg, e.from, n) && n.id == d.source)
    && (exists n :: LeastInside(compare, shown, cfg, e.to, n) && n.id == d.target)
  }

  lemma {:induction false} KeptAreShown(nodes: seq<PdgNode>, edges: seq<PdgEdge>, filter: Option<string>,
                                        kept: seq<PdgNode>, ids: set<string>)
    requires multiset(kept) == multiset(FilterNodes(nodes, ids))
    requires forall id :: id in ids <==> Shown(nodes, edges, filter, id)
    ensures ShownNodes(nodes, edges, filter) == Elements(kept)
  {
    FilterNodesKeeps(nodes, ids);
    forall n ensures n in ShownNodes(nodes, edges, filter) <==> n in kept {
      assert n in kept <==> n in multiset(kept);
      assert n in FilterNodes(nodes, ids) <==> n in multiset(FilterNodes(nodes, ids));
    }
  }

  lemma KeepsInside(kept: seq<PdgNode>, cfg: Option<CfgDetail>, block: int)
    ensures KeepsStatement(kept, cfg, block) <==> exists n :: Inside(Elements(kept), cfg, block, n)
  {
    if KeepsStatement(kept, cfg, block) {
      var n :| n in kept && ResolveBlockIndex(n, cfg) == Some(block);
      assert Inside(Elements(kept), cfg, block, n);
    }
  }

  lemma BridgeDraws(compare: Compare, kept: seq<PdgNode>, cfg: Option<CfgDetail>, e: CfgEdge)
    requires SortedNodes(compare, kept) && Bridge(kept, cfg, e) != []
    ensures DrawsBridge(compare, Elements(kept), cfg, e, Bridge(kept, cfg, e)[0])
  {
    var shown, d := Elements(kept), Bridge(kept, cfg, e)[0];
    BridgeMeaning(compare, kept, cfg, e);
    var n :| GreatestOf(compare, kept, cfg, e.from, n) && n.id == d.source;
    assert GreatestInside(compare, shown, cfg, e.from, n);
    var m :| LeastOf(compare, kept, cfg, e.to, m) && m.id == d.target;
    assert LeastInside(compare, shown, cfg, e.to, m);
  }

  /** Edge by edge, the bridges draw the bridged flow edges. */
  ghost predicate DrawsAll(compare: Compare, shown: set<PdgNode>, cfg: Option<CfgDetail>, flow: seq<CfgEdge>,
                           drawn: seq<GraphEdge>) {
    |flow| == |drawn| && forall k | 0 <= k < |flow| :: DrawsBridge(compare, shown, cfg, flow[k], drawn[k])
  }

  lemma {:induction false} BridgesInOrder(compare: Compare, kept: seq<PdgNode>, cfg: Option<CfgDetail>,
                                          flow: seq<CfgEdge>)
    requires SortedNodes(compare, kept)
    ensures DrawsAll(compare, Elements(kept), cfg, BridgedFlow(Elements(kept), cfg, flow), Bridges(kept, cfg, flow))
  {
    if flow != [] {
      var e := flow[|flow| - 1];
      BridgesInOrder(compare, kept, cfg, flow[..|flow| - 1]);
      BridgeMeaning(compare, kept, cfg, e);
      KeepsInside(kept, cfg, e.from);
      KeepsInside(kept, cfg, e.to);
      if Bridge(kept, cfg, e) != [] {
        BridgeDraws(compare, kept, cfg, e);
      }
    }
  }

  /**
   The last edges of the graph are its bridges: in order, one for each flow edge whose two blocks keep a shown
   statement, from a greatest to a least one. No other edge is a bridge.
   */
  lemma {:induction false} BridgesExactly(nodes: seq<PdgNode>, edges: seq<PdgEdge>, cfg: Option<CfgDetail>,
                                          filter: Option<string>, includeControl: bool, includeCfg: bool,
                                          compare: Compare, g: Graph)
    requires IsGraphOf(nodes, edges, cfg, filter, includeControl, includeCfg, compare, g)
    ensures var shown := ShownNodes(nodes, edges, filter);
            var flow := if includeCfg && cfg.Some? then BridgedFlow(shown, cfg, cfg.value.edges) else [];
            && |flow| == g.cfgEdgeCount <= |g.edges|
            && DrawsAll(compare, shown, cfg, flow, g.edges[|g.edges| - |flow|..])
            && forall k | 0 <= k < |g.edges| - |flow| :: g.edges[k].kind != Cfg
  {
    var kept, ids, data :| IsGraph(nodes, edges, cfg, filter, includeControl, includeCfg, compare, g, kept, ids, data);
    var control := if includeControl then ControlWithin(edges, ids) else [];
    var bridges := if includeCfg && cfg.Some? then Bridges(kept, cfg, cfg.value.edges) else [];
    KeptAreShown(nodes, edges, filter, kept, ids);
    if includeCfg && cfg.Some? {
      BridgesInOrder(compare, kept, cfg, cfg.value.edges);
    }
    LastPart(ToGraphEdges(data, Data), ToGraphEdges(control, Control), bridges);
  }

  lemma LastPart(a: seq<GraphEdge>, b: seq<GraphEdge>, c: seq<GraphEdge>)
    requires forall i | 0 <= i < |a| :: a[i].kind == Data
    requires forall i | 0 <= i < |b| :: b[i].kind == Control
    ensures var all := a + b + c;
            && all[|all| - |c|..] == c
            && forall k | 0 <= k < |all| - |c| :: all[k].kind != Cfg
  {
  }

  /** The number of edges of one kind. */
  function CountKind(edges: seq<GraphEdge>, kind: EdgeKind): nat {
    if edges == [] then 0 else CountKind(edges[..|edges| - 1], kind) + if edges[|edges| - 1].kind == kind then 1 else 0
  }

  lemma {:induction false} CountConcat(a: seq<GraphEdge>, b: seq<GraphEdge>, kind: EdgeKind)
    ensures CountKind(a + b, kind) == CountKind(a, kind) + CountKind(b, kind)
  {
    if b == [] {
      assert a + b == a;
    } else {
      CountConcat(a, b[..|b| - 1], kind);
      assert (a + b)[..|a + b| - 1] == a + b[..|b| - 1];
    }
  }

  lemma {:induction false} CountUniform(edges: seq<GraphEdge>, kind: EdgeKind, wanted: EdgeKind)
    requires forall i | 0 <= i < |edges| :: edges[i].kind == kind
    ensures CountKind(edges, wanted) == if kind == wanted then |edges| else 0
  {
    if edges != [] {
      CountUniform(edges[..|edges| - 1], kind, wanted);
    }
  }

  lemma {:induction false} CountThreeParts(a: seq<GraphEdge>, b: seq<GraphEdge>, c: seq<GraphEdge>, kind: EdgeKind)
    requires forall i | 0 <= i < |a| :: a[i].kind == Data
    requires forall i | 0 <= i < |b| :: b[i].kind == Control
    requires forall i | 0 <= i < |c| :: c[i].kind == Cfg
    ensures CountKind(a + b + c, kind) == match kind { case Data => |a| case Control => |b| case Cfg => |c| }
  {
    CountConcat(a + b, c, kind);
    CountConcat(a, b, kind);
    CountUniform(a, Data, kind);
    CountUniform(b, Control, kind);
    CountUniform(c, Cfg, kind);
  }

  /** The three counts are the numbers of edges of each kind, and nothing else is counted. */
  lemma CountsAreExact(nodes: seq<PdgNode>, edges: seq<PdgEdge>, cfg: Option<CfgDetail>, filter: Option<string>,
                       includeControl: bool, includeCfg: bool, compare: Compare, g: Graph)
    requires IsGraphOf(nodes, edges, cfg, filter, includeControl, includeCfg, compare, g)
    ensures |g.edges| == g.dataEdgeCount + g.controlEdgeCount + g.cfgEdgeCount
    ensures CountKind(g.edges, Data) == g.dataEdgeCount
    ensures CountKind(g.edges, Control) == g.controlEdgeCount
    ensures CountKind(g.edges, Cfg) == g.cfgEdgeCount
  {
    var kept, ids, data :| IsGraph(nodes, edges, cfg, filter, includeControl, includeCfg, compare, g, kept, ids, data);
    var control := if includeControl then ControlWithin(edges, ids) else [];
    var bridges := if includeCfg && cfg.Some? then Bridges(kept, cfg, cfg.value.edges) else [];
    var a, b := ToGraphEdges(data, Data), ToGraphEdges(control, Control);
    forall k | 0 <= k < |bridges| ensures bridges[k].kind == Cfg {
      BridgesEndAtNodes(kept, cfg, cfg.value.edges, k);
    }
    CountThreeParts(a, b, bridges, Data);
    CountThreeParts(a, b, bridges, Control);
    CountThreeParts(a, b, bridges, Cfg);
  }

  // ---------------------------------------------------------------- the nodes, from the inputs alone

  /** The block of a statement: the recorded one, else the first whose lines include its line, else none. */
  ghost predicate StandsIn(n: PdgNode, cfg: Option<CfgDetail>, block: Option<int>) {
    if n.blockIndex.Some? then block == n.blockIndex
    else if cfg.None? then block == None
    else if exists b <- cfg.value.blocks :: Holds(b, n.line) then
      exists i | 0 <= i < |cfg.value.blocks| ::
        && Holds(cfg.value.blocks[i], n.line) && block == Some(cfg.value.blocks[i].id)
        && forall j | 0 <= j < i :: !Holds(cfg.value.blocks[j], n.line)
    else block == None
  }

  /** The line is one of the block's lines, both ends included; a block without lines holds none. */
  ghost predicate Holds(b: CfgBlock, line: int) {
    !(line < b.startLine) && !(line > b.endLine) && !(b.startLine <= 0 && b.endLine <= 0)
  }

  lemma {:induction false} FirstCoveringHolds(blocks: seq<CfgBlock>, line: int)
    ensures match FirstCovering(blocks, line)
            case None => forall b <- blocks :: !Holds(b, line)
            case Some(id) => exists i | 0 <= i < |blocks| ::
              Holds(blocks[i], line) && id == blocks[i].id && forall j | 0 <= j < i :: !Holds(blocks[j], line)
  {
    if blocks != [] && !CoversLine(blocks[0], line) {
      FirstCoveringHolds(blocks[1..], line);
      if FirstCovering(blocks, line).Some? {
        var i :| 0 <= i < |blocks| - 1 && Holds(blocks[1..][i], line)
          && FirstCovering(blocks, line).value == blocks[1..][i].id
          && forall j | 0 <= j < i :: !Holds(blocks[1..][j], line);
        assert blocks[i + 1] == blocks[1..][i];
        assert forall j | 0 < j < i + 1 :: blocks[j] == blocks[1..][j - 1];
      }
    }
  }

  lemma BlockResolved(n: PdgNode, cfg: Option<CfgDetail>)
    ensures StandsIn(n, cfg, ResolveBlockIndex(n, cfg))
  {
    if n.blockIndex.None? && cfg.Some? {
      FirstCoveringHolds(cfg.value.blocks, n.line);
    }
  }

  /** The id belongs to the graph: every one does, or with a filter those of nodes and data edges with that variable. */
  ghost predicate Involved(nodes: seq<PdgNode>, edges: seq<PdgEdge>, filter: Option<string>, id: string) {
    filter.None?
    || (exists n <- nodes :: n.id == id && (filter.value in n.defined || filter.value in n.used))
    || (exists e <- edges :: e.kind == "data" && e.variable == filter && id in {e.source, e.target})
  }

  /** The drawing of a node. */
  ghost predicate Draws(n: PdgNode, cfg: Option<CfgDetail>, d: GraphNode) {
    && d.id == n.id && d.line == n.line && d.text == n.text && d.defined == n.defined && d.used == n.used
    && StandsIn(n, cfg, d.blockIndex)
  }

  lemma ShownIsInvolved(nodes: seq<PdgNode>, edges: seq<PdgEdge>, filter: Option<string>, n: PdgNode)
    requires n in nodes
    ensures Shown(nodes, edges, filter, n.id) <==> Involved(nodes, edges, filter, n.id)
  {
  }

  /** By line, and on one line by id. */
  ghost predicate InReadingOrder(compare: Compare, nodes: seq<GraphNode>) {
    forall i, j | 0 <= i < j < |nodes| ::
      || nodes[i].line < nodes[j].line
      || (nodes[i].line == nodes[j].line && compare(nodes[i].id, nodes[j].id) <= 0)
  }

  lemma ToGraphNodesDraw(kept: seq<PdgNode>, cfg: Option<CfgDetail>, i: nat)
    requires i < |kept|
    ensures Draws(kept[i], cfg, ToGraphNodes(kept, cfg)[i])
  {
    BlockResolved(kept[i], cfg);
  }

  lemma {:induction false} KeptExactly(nodes: seq<PdgNode>, edges: seq<PdgEdge>, filter: Option<string>,
                                       kept: seq<PdgNode>, ids: set<string>)
    requires multiset(kept) == multiset(FilterNodes(nodes, ids))
    requires forall id :: id in ids <==> Shown(nodes, edges, filter, id)
    ensures forall n :: n in kept <==> n in nodes && Involved(nodes, edges, filter, n.id)
  {
    FilterNodesKeeps(nodes, ids);
    forall n ensures n in kept <==> n in nodes && Involved(nodes, edges, filter, n.id) {
      assert n in kept <==> n in multiset(kept);
      assert n in FilterNodes(nodes, ids) <==> n in multiset(FilterNodes(nodes, ids));
      if n in nodes {
        ShownIsInvolved(nodes, edges, filter, n);
      }
    }
  }

  /**
   The drawn nodes are, in reading order, those that the filter involves, each with its lines, variables and block.
   */
  lemma NodesExactly(nodes: seq<PdgNode>, edges: seq<PdgEdge>, cfg: Option<CfgDetail>, filter: Option<string>,
                     includeControl: bool, includeCfg: bool, compare: Compare, g: Graph) returns (kept: seq<PdgNode>)
    requires IsGraphOf(nodes, edges, cfg, filter, includeControl, includeCfg, compare, g)
    ensures forall n :: n in kept <==> n in nodes && Involved(nodes, edges, filter, n.id)
    ensures |g.nodes| == |kept| && forall i | 0 <= i < |kept| :: Draws(kept[i], cfg, g.nodes[i])
    ensures InReadingOrder(compare, g.nodes)
    ensures StrictlyIncreasing(g.lines) && forall l :: l in g.lines <==> exists d <- g.nodes :: d.line == l
    ensures g.variable == filter && g.includeControl == includeControl && g.includeCfg == includeCfg
  {
    var keep, ids, data :| IsGraph(nodes, edges, cfg, filter, includeControl, includeCfg, compare, g, keep, ids, data);
    kept := keep;
    KeptExactly(nodes, edges, filter, kept, ids);
    forall i | 0 <= i < |kept| ensures Draws(kept[i], cfg, g.nodes[i]) {
      ToGraphNodesDraw(kept, cfg, i);
    }
    forall l ensures l in g.lines <==> exists d <- g.nodes :: d.line == l {
      LinesOfDrawn(kept, cfg, l);
    }
    OrderOfDrawn(compare, kept, cfg);
  }

  lemma OrderOfDrawn(compare: Compare, kept: seq<PdgNode>, cfg: Option<CfgDetail>)
    requires SortedNodes(compare, kept)
    ensures InReadingOrder(compare, ToGraphNodes(kept, cfg))
  {
    var drawn := ToGraphNodes(kept, cfg);
    forall i, j | 0 <= i < j < |drawn|
      ensures || drawn[i].line < drawn[j].line
              || (drawn[i].line == drawn[j].line && compare(drawn[i].id, drawn[j].id) <= 0)
    {
      assert NodeLe(compare, kept[i], kept[j]);
    }
  }

  lemma LinesOfDrawn(kept: seq<PdgNode>, cfg: Option<CfgDetail>, l: int)
    ensures (exists n <- kept :: n.line == l) <==> exists d <- ToGraphNodes(kept, cfg) :: d.line == l
  {
    var drawn := ToGraphNodes(kept, cfg);
    if n :| n in kept && n.line == l {
      var i :| 0 <= i < |kept| && kept[i] == n;
      assert drawn[i] in drawn;
    }
    if d :| d in drawn && d.line == l {
      var i :| 0 <= i < |drawn| && drawn[i] == d;
      assert kept[i] in kept;
    }
  }

  /** Blanks around the variable do not matter, and a blank variable is no filter. */
  lemma BlanksDoNotFilter()
    ensures VarFilter(Some(" \t x \n")) == Some("x") && VarFilter(Some("a b")) == Some("a b")
    ensures VarFilter(Some(" \t")) == None && VarFilter(Some("")) == None && VarFilter(None) == None
  {
    assert Text.TrimStart(" \t x \n", JsSpace) == "x \n";
    assert Text.TrimEnd("x \n", JsSpace) == "x";
    assert Text.TrimStart(" \t", JsSpace) == "";
  }
}
