/** Which boxes of a drawn graph an edge runs through.  The layout keeps boxes apart, but
    not edges and boxes: an edge is drawn through the padding of every box that stands in
    the row it ends in, on a layer between its ends. */
module Crossings {
  import opened Collections
  import opened Wire
  import opened AsGraph
  import opened Layout
  import opened TextGrid
  import Sorting

  // ---------- one edge and one box ----------

  /** In one column, or in columns at least the gap of the text configuration apart. */
  predicate Aligned(p: Position, q: Position) {
    || (p.x == q.x && p.width == q.width)
    || p.x + p.width + TEXT_CONFIG.horizontalGap <= q.x
    || q.x + q.width + TEXT_CONFIG.horizontalGap <= p.x
  }

  /** An edge turns in the gap beside its source and then runs along the row of its target. */
  lemma RouteThroughIff(from: Position, box: Position, to: Position, x: int)
    requires Aligned(from, box) && Aligned(box, to) && Aligned(from, to)
    requires from.width > 0 && to.width > 0 && box.x <= x < box.x + box.width
    ensures OnRoute(from, to, x, box.y + 1)
            <==> box.y == to.y && from.x + from.width <= box.x && box.x + box.width <= to.x
  {}

  /** The slot's place on the canvas. */
  function PlaceOf(cfg: Config, frame: Frame, slot: (nat, nat)): Position
    requires slot.0 in frame.starts && slot.0 in frame.widths
  {
    Position(frame.starts[slot.0], Top(cfg, slot.1), frame.widths[slot.0], cfg.nodeHeight)
  }

  lemma SlotsOrdered(cfg: Config, frame: Frame, top: nat, l: nat, m: nat)
    requires Framed(cfg, frame, top) && l in frame.cols && m in frame.cols && l != m
    requires l in frame.starts && m in frame.starts && l in frame.widths && m in frame.widths
    ensures l > m ==> frame.starts[l] + frame.widths[l] + cfg.horizontalGap <= frame.starts[m]
    ensures l < m ==> frame.starts[m] + frame.widths[m] + cfg.horizontalGap <= frame.starts[l]
  {
    if l > m { ColumnsApart(cfg, frame.cols, top, l, m); } else { ColumnsApart(cfg, frame.cols, top, m, l); }
  }

  lemma SameRowIff(cfg: Config, i: nat, j: nat)
    requires cfg.nodeHeight > 0
    ensures Top(cfg, i) == Top(cfg, j) <==> i == j
  {
    if i < j { RowsApart(cfg, i, j); }
    if j < i { RowsApart(cfg, j, i); }
  }

  lemma PlacedInSlot(
    frame: Frame, top: nat, positions: map<uint32, Position>, slots: Slots, height: nat, a: uint32)
    requires Framed(TEXT_CONFIG, frame, top) && Places(TEXT_CONFIG, frame, positions, slots, height) && a in positions
    ensures slots[a].0 in frame.cols && slots[a].0 in frame.starts && slots[a].0 in frame.widths
    ensures positions[a] == PlaceOf(TEXT_CONFIG, frame, slots[a]) && positions[a].width >= 11
  {
    assert Holds(TEXT_CONFIG, frame, a, slots[a], positions[a], height);
    WidthIsWidest(TEXT_CONFIG, frame.cols[slots[a].0]);
  }

  /** Two boxes of a layout are aligned, the one on the higher layer to the left, and level
      exactly when they stand in the same row. */
  lemma BoxesAligned(
    frame: Frame, top: nat, positions: map<uint32, Position>, slots: Slots, height: nat, a: uint32, b: uint32)
    requires Framed(TEXT_CONFIG, frame, top) && Places(TEXT_CONFIG, frame, positions, slots, height)
    requires a in positions && b in positions
    ensures Aligned(positions[a], positions[b]) && positions[a].width > 0
    ensures positions[a].x + positions[a].width <= positions[b].x <==> slots[b].0 < slots[a].0
    ensures positions[a].y == positions[b].y <==> slots[a].1 == slots[b].1
  {
    PlacedInSlot(frame, top, positions, slots, height, a);
    PlacedInSlot(frame, top, positions, slots, height, b);
    SameRowIff(TEXT_CONFIG, slots[a].1, slots[b].1);
    if slots[a].0 != slots[b].0 { SlotsOrdered(TEXT_CONFIG, frame, top, slots[a].0, slots[b].0); }
  }

  /** An edge, straight, bent or backward, runs through the middle of exactly the boxes in the
      row of its target whose layer lies between its ends. */
  lemma EdgeCrossesBoxIff(
    frame: Frame, top: nat, positions: map<uint32, Position>, slots: Slots, height: nat,
    from: uint32, box: uint32, to: uint32, x: int)
    requires Framed(TEXT_CONFIG, frame, top) && Places(TEXT_CONFIG, frame, positions, slots, height)
    requires from in positions && box in positions && to in positions
    requires positions[box].x <= x < positions[box].x + positions[box].width
    ensures OnRoute(positions[from], positions[to], x, positions[box].y + 1)
            <==> slots[box].1 == slots[to].1 && slots[to].0 < slots[box].0 < slots[from].0
  {
    BoxesAligned(frame, top, positions, slots, height, from, box);
    BoxesAligned(frame, top, positions, slots, height, box, to);
    BoxesAligned(frame, top, positions, slots, height, from, to);
    BoxesAligned(frame, top, positions, slots, height, to, to);
    RouteThroughIff(positions[from], positions[box], positions[to], x);
  }

  // ---------- where the nodes of a graph stand ----------

  /** How many nodes of its layer have a smaller AS number. */
  ghost function Rank(nodes: seq<Node>, n: Node): nat {
    |Smaller(nodes, n)|
  }

  ghost function Smaller(nodes: seq<Node>, n: Node): set<Node> {
    set m | m in nodes && m.layer == n.layer && m.asn < n.asn
  }

  lemma ColumnMembers(nodes: seq<Node>, cols: Columns, layer: nat, n: Node)
    requires Arranged(nodes, cols) && layer in cols
    ensures n in cols[layer] <==> n in nodes && n.layer == layer
  {
    assert multiset(Column(cols, layer)) == multiset(InLayer(nodes, layer));
    Sorting.SameMembers(cols[layer], InLayer(nodes, layer));
    InLayerHolds(nodes, layer, n);
  }

  lemma {:induction false} InLayerDistinct(nodes: seq<Node>, layer: nat)
    requires UniqueASNs(nodes)
    ensures Distinct(InLayer(nodes, layer))
  {
    if nodes != [] {
      var front, last := nodes[..|nodes| - 1], nodes[|nodes| - 1];
      InLayerDistinct(front, layer);
      forall i | 0 <= i < |front| ensures front[i] != last { assert nodes[i].asn != last.asn; }
      InLayerHolds(front, layer, last);
      if last.layer == layer { DistinctAppend(InLayer(front, layer), last); }
    }
  }

  lemma ColumnAscends(nodes: seq<Node>, cols: Columns, layer: nat, i: nat, j: nat)
    requires Arranged(nodes, cols) && UniqueASNs(nodes) && layer in cols && i < j < |cols[layer]|
    ensures cols[layer][i].asn < cols[layer][j].asn
  {
    var col := cols[layer];
    assert multiset(Column(cols, layer)) == multiset(InLayer(nodes, layer)) && Sorting.Ordered(Column(cols, layer), ByASN);
    InLayerDistinct(nodes, layer);
    SortedDistinct(InLayer(nodes, layer), col);
    ColumnMembers(nodes, cols, layer, col[i]);
    ColumnMembers(nodes, cols, layer, col[j]);
    OtherNode(nodes, col[i], col[j]);
    assert Sorting.Precedes(ByASN(col[i]), ByASN(col[j]));
  }

  lemma {:induction false} DistinctSize(col: seq<Node>, row: nat)
    requires row <= |col| && forall i, j :: 0 <= i < j < |col| ==> col[i].asn < col[j].asn
    ensures |set i | 0 <= i < row :: col[i]| == row
  {
    if row > 0 {
      DistinctSize(col, row - 1);
      var less := set i | 0 <= i < row - 1 :: col[i];
      assert (set i | 0 <= i < row :: col[i]) == less + {col[row - 1]};
      assert col[row - 1] !in less;
    }
  }

  /** Rows are by AS number. */
  lemma RowIsRank(nodes: seq<Node>, cols: Columns, layer: nat, row: nat)
    requires Arranged(nodes, cols) && UniqueASNs(nodes) && layer in cols && row < |cols[layer]|
    ensures row == Rank(nodes, cols[layer][row])
  {
    var col := cols[layer];
    forall i, j | 0 <= i < j < |col| ensures col[i].asn < col[j].asn { ColumnAscends(nodes, cols, layer, i, j); }
    forall m: Node ensures m in col <==> m in nodes && m.layer == layer { ColumnMembers(nodes, cols, layer, m); }
    assert Smaller(nodes, col[row]) == set i | 0 <= i < row :: col[i] by { AboveIsSmaller(nodes, col, layer, row); }
    DistinctSize(col, row);
  }

  lemma AboveIsSmaller(nodes: seq<Node>, col: seq<Node>, layer: nat, row: nat)
    requires row < |col| && forall i, j :: 0 <= i < j < |col| ==> col[i].asn < col[j].asn
    requires forall m: Node :: m in col <==> m in nodes && m.layer == layer
    ensures Smaller(nodes, col[row]) == set i | 0 <= i < row :: col[i]
  {
    assert col[row] in col;
    forall m | m in Smaller(nodes, col[row]) ensures m in (set i | 0 <= i < row :: col[i]) {
      assert m in col;
      var i :| 0 <= i < |col| && col[i] == m;
      assert i < row;
    }
    forall i | 0 <= i < row ensures col[i] in Smaller(nodes, col[row]) { assert col[i] in col; }
  }

  /** A node stands in the column of its layer, in the row of its rank. */
  lemma SlotOfNode(nodes: seq<Node>, positions: map<uint32, Position>, frame: Frame, slots: Slots, height: nat, n: Node)
    requires UniqueASNs(nodes) && Arranged(nodes, frame.cols) && Places(TEXT_CONFIG, frame, positions, slots, height)
    requires n in nodes && n.asn in positions
    ensures slots[n.asn] == (n.layer, Rank(nodes, n))
  {
    var slot := slots[n.asn];
    assert Holds(TEXT_CONFIG, frame, n.asn, slot, positions[n.asn], height);
    var m := frame.cols[slot.0][slot.1];
    ColumnMembers(nodes, frame.cols, slot.0, m);
    SameNode(nodes, m, n);
    RowIsRank(nodes, frame.cols, slot.0, slot.1);
  }

  // ---------- what a picture shows of it ----------

  /** The edge ends in the row of the node and skips its layer. */
  ghost predicate Skips(nodes: seq<Node>, e: Edge, n: Node) {
    exists f, t :: f in nodes && t in nodes && f.asn == e.from && t.asn == e.to
      && t.layer < n.layer < f.layer && Rank(nodes, t) == Rank(nodes, n)
  }

  ghost predicate Skipped(g: Graph, n: Node) {
    exists e :: e in g.edges && Skips(g.nodes, e, n)
  }

  /** The positions are those of the layout of the graph, and no AS stands twice. */
  ghost predicate Pictured(
    g: Graph, positions: map<uint32, Position>, frame: Frame, top: nat, slots: Slots)
  {
    UniqueASNs(g.nodes) && positions.Keys == ASNs(g.nodes) && LaidOut(g.nodes, positions, frame, top, slots)
  }

  /** Every node stands in the column of its layer, in the row of its rank. */
  ghost predicate Slotted(nodes: seq<Node>, slots: Slots) {
    forall n :: n in nodes ==> n.asn in slots && slots[n.asn] == (n.layer, Rank(nodes, n))
  }

  lemma EndsCrossIff(
    frame: Frame, top: nat, positions: map<uint32, Position>, slots: Slots, height: nat,
    f: uint32, n: uint32, t: uint32, fromLayer: nat, at: (nat, nat), to: (nat, nat), x: int)
    requires Framed(TEXT_CONFIG, frame, top) && Places(TEXT_CONFIG, frame, positions, slots, height)
    requires f in positions && n in positions && t in positions
    requires slots[f].0 == fromLayer && slots[n] == at && slots[t] == to
    requires positions[n].x <= x < positions[n].x + positions[n].width
    ensures OnRoute(positions[f], positions[t], x, positions[n].y + 1) <==> to.0 < at.0 < fromLayer && to.1 == at.1
  {
    EdgeCrossesBoxIff(frame, top, positions, slots, height, f, n, t, x);
  }

  lemma NodesCrossIff(
    frame: Frame, top: nat, positions: map<uint32, Position>, slots: Slots, height: nat,
    f: Node, n: Node, t: Node, row: nat, toRow: nat, x: int)
    requires Framed(TEXT_CONFIG, frame, top) && Places(TEXT_CONFIG, frame, positions, slots, height)
    requires f.asn in positions && n.asn in positions && t.asn in positions
    requires slots[f.asn].0 == f.layer && slots[n.asn] == (n.layer, row) && slots[t.asn] == (t.layer, toRow)
    requires positions[n.asn].x <= x < positions[n.asn].x + positions[n.asn].width
    ensures OnRoute(positions[f.asn], positions[t.asn], x, positions[n.asn].y + 1)
            <==> t.layer < n.layer < f.layer && toRow == row
  {
    EndsCrossIff(frame, top, positions, slots, height, f.asn, n.asn, t.asn, f.layer, (n.layer, row), (t.layer, toRow), x);
  }

  lemma SkipsIff(
    nodes: seq<Node>, positions: map<uint32, Position>, frame: Frame, top: nat, slots: Slots, height: nat,
    e: Edge, n: Node, x: int)
    requires UniqueASNs(nodes) && Slotted(nodes, slots) && positions.Keys == ASNs(nodes)
    requires Framed(TEXT_CONFIG, frame, top) && Places(TEXT_CONFIG, frame, positions, slots, height)
    requires n in nodes && positions[n.asn].x <= x < positions[n.asn].x + positions[n.asn].width
    ensures RunsOver(e, positions, x, positions[n.asn].y + 1) <==> Skips(nodes, e, n)
  {
    ASNsHold(nodes, e.from);
    ASNsHold(nodes, e.to);
    if e.from in positions && e.to in positions {
      var f :| f in nodes && f.asn == e.from;
      var t :| t in nodes && t.asn == e.to;
      assert slots[f.asn].0 == f.layer;
      NodesCrossIff(frame, top, positions, slots, height, f, n, t, Rank(nodes, n), Rank(nodes, t), x);
      SkipsByEnds(nodes, e, n, f, t);
    }
  }

  lemma SkipsByEnds(nodes: seq<Node>, e: Edge, n: Node, f: Node, t: Node)
    requires UniqueASNs(nodes) && f in nodes && t in nodes && f.asn == e.from && t.asn == e.to
    ensures Skips(nodes, e, n) <==> t.layer < n.layer < f.layer && Rank(nodes, t) == Rank(nodes, n)
  {
    if Skips(nodes, e, n) {
      var f', t' :| f' in nodes && t' in nodes && f'.asn == e.from && t'.asn == e.to
        && t'.layer < n.layer < f'.layer && Rank(nodes, t') == Rank(nodes, n);
      SameNode(nodes, f, f');
      SameNode(nodes, t, t');
    }
  }

  lemma PictureSlotted(g: Graph, positions: map<uint32, Position>, frame: Frame, top: nat, slots: Slots, height: nat)
    requires Pictured(g, positions, frame, top, slots) && Places(TEXT_CONFIG, frame, positions, slots, height)
    ensures Slotted(g.nodes, slots)
  {
    forall n | n in g.nodes ensures n.asn in slots && slots[n.asn] == (n.layer, Rank(g.nodes, n)) {
      ASNsHold(g.nodes, n.asn);
      SlotOfNode(g.nodes, positions, frame, slots, height, n);
    }
  }

  /** Every cell along the middle of the box is crossed, or none. */
  ghost predicate CrossedAlong(edges: seq<Edge>, positions: map<uint32, Position>, p: Position, yes: bool) {
    forall x, y :: p.x <= x < p.x + p.width && y == p.y + 1 ==> (Crossed(edges, positions, x, y) <==> yes)
  }

  /** An edge runs through the box of a node if and only if one ends in its row and skips its
      layer; and then through the whole of it. */
  lemma CrossedIff(g: Graph, positions: map<uint32, Position>, frame: Frame, top: nat, slots: Slots, n: Node)
    requires Pictured(g, positions, frame, top, slots) && n in g.nodes && n.asn in positions
    ensures CrossedAlong(g.edges, positions, positions[n.asn], Skipped(g, n))
  {
    var height: nat :| Places(TEXT_CONFIG, frame, positions, slots, height);
    PictureSlotted(g, positions, frame, top, slots, height);
    AlongIff(g, positions, frame, top, slots, height, n);
  }

  lemma AlongIff(g: Graph, positions: map<uint32, Position>, frame: Frame, top: nat, slots: Slots, height: nat, n: Node)
    requires UniqueASNs(g.nodes) && Slotted(g.nodes, slots) && positions.Keys == ASNs(g.nodes)
    requires Framed(TEXT_CONFIG, frame, top) && Places(TEXT_CONFIG, frame, positions, slots, height)
    requires n in g.nodes && n.asn in positions
    ensures CrossedAlong(g.edges, positions, positions[n.asn], Skipped(g, n))
  {
    var p := positions[n.asn];
    forall x, y | p.x <= x < p.x + p.width && y == p.y + 1
      ensures Crossed(g.edges, positions, x, y) <==> Skipped(g, n)
    {
      EdgesCrossIff(g, positions, frame, top, slots, height, n, x, y);
    }
  }

  lemma EdgesCrossIff(
    g: Graph, positions: map<uint32, Position>, frame: Frame, top: nat, slots: Slots, height: nat, n: Node, x: int, y: int)
    requires UniqueASNs(g.nodes) && Slotted(g.nodes, slots) && positions.Keys == ASNs(g.nodes)
    requires Framed(TEXT_CONFIG, frame, top) && Places(TEXT_CONFIG, frame, positions, slots, height)
    requires n in g.nodes && positions[n.asn].x <= x < positions[n.asn].x + positions[n.asn].width
    requires y == positions[n.asn].y + 1
    ensures Crossed(g.edges, positions, x, y) <==> Skipped(g, n)
  {
    forall e: Edge ensures RunsOver(e, positions, x, y) <==> Skips(g.nodes, e, n) {
      SkipsIff(g.nodes, positions, frame, top, slots, height, e, n, x);
    }
  }

  lemma BlankIsInside(pos: Position, caption: string, x: int, y: int)
    requires pos.width >= 2 && InBox(pos, x, y) && BoxChar(pos, caption, x, y) == ' '
    ensures y == pos.y + 1
  {
    if OnBorder(pos, x, y) { BorderHasInk(pos, x, y); }
  }

  /** The padding of a node's box stays blank. */
  ghost predicate PaddingBlank(grid: Grid, pos: Position, caption: string)
    requires pos.width >= 2
    reads grid.cells
  {
    forall x, y :: InBox(pos, x, y) && BoxChar(pos, caption, x, y) == ' ' ==> grid.On(x, y) && grid.cells[y, x] == ' '
  }

  /** The padding of a node's box is drawn over, all of it. */
  ghost predicate PaddingInked(grid: Grid, pos: Position, caption: string)
    requires pos.width >= 2
    reads grid.cells
  {
    forall x, y :: InBox(pos, x, y) && BoxChar(pos, caption, x, y) == ' ' ==> grid.On(x, y) && grid.cells[y, x] != ' '
  }

  lemma PaddingCells(grid: Grid, n: Node, edges: seq<Edge>, positions: map<uint32, Position>, yes: bool)
    requires n.asn in positions && positions[n.asn].width >= 2 && FilledIn(grid, n, edges, positions)
    requires CrossedAlong(edges, positions, positions[n.asn], yes)
    ensures if yes then PaddingInked(grid, positions[n.asn], Label(n)) else PaddingBlank(grid, positions[n.asn], Label(n))
  {
    var p := positions[n.asn];
    forall x, y | InBox(p, x, y) && BoxChar(p, Label(n), x, y) == ' '
      ensures grid.On(x, y) && (grid.cells[y, x] == ' ' <==> !yes)
    {
      assert Shows(grid.cells[y, x], ' ', edges, positions, x, y);
      BlankIsInside(p, Label(n), x, y);
    }
  }

  /** In the picture of a graph, the padding of a node's box stays blank if no edge ends in its
      row and skips its layer; if one does, every cell of the padding is drawn over. */
  lemma PaddingIff(
    grid: Grid, g: Graph, positions: map<uint32, Position>, frame: Frame, top: nat, slots: Slots, n: Node)
    requires Pictured(g, positions, frame, top, slots) && AllFilled(grid, g, positions) && n in g.nodes
    ensures n.asn in positions && positions[n.asn].width >= 2
    ensures if Skipped(g, n) then PaddingInked(grid, positions[n.asn], Label(n))
            else PaddingBlank(grid, positions[n.asn], Label(n))
  {
    CrossedIff(g, positions, frame, top, slots, n);
    PaddingCells(grid, n, g.edges, positions, Skipped(g, n));
  }

  /** The picture of any paths: a box keeps its padding exactly when no edge skips it. */
  method RenderPaths(paths: seq<seq<uint32>>)
    returns (g: Graph, r: Drawing, ghost positions: map<uint32, Position>)
    ensures NodesFit(g.nodes, paths) && EdgesFit(g.edges, paths)
    ensures r.Refused? <==> |g.nodes| > MAX_NODES
    ensures r.Nothing? <==> g.nodes == []
    ensures r.Drawn? ==> AllPadded(r.grid, g, positions)
  {
    g := BuildGraphFromPaths(paths);
    ghost var frame, top, slots;
    r, positions, frame, top, slots := RenderText(g);
    if r.Drawn? { EveryPadding(r.grid, g, positions, frame, top, slots); }
  }

  ghost predicate AllPadded(grid: Grid, g: Graph, positions: map<uint32, Position>)
    reads grid.cells
  {
    forall n :: n in g.nodes ==>
      n.asn in positions && positions[n.asn].width >= 11
      && if Skipped(g, n) then PaddingInked(grid, positions[n.asn], Label(n))
         else PaddingBlank(grid, positions[n.asn], Label(n))
  }

  lemma EveryPadding(grid: Grid, g: Graph, positions: map<uint32, Position>, frame: Frame, top: nat, slots: Slots)
    requires Pictured(g, positions, frame, top, slots) && AllFilled(grid, g, positions)
    ensures AllPadded(grid, g, positions)
  {
    var height: nat :| Places(TEXT_CONFIG, frame, positions, slots, height);
    forall n | n in g.nodes
      ensures n.asn in positions && positions[n.asn].width >= 11
      ensures if Skipped(g, n) then PaddingInked(grid, positions[n.asn], Label(n))
              else PaddingBlank(grid, positions[n.asn], Label(n))
    {
      PaddingIff(grid, g, positions, frame, top, slots, n);
      PlacedInSlot(frame, top, positions, slots, height, n.asn);
    }
  }

  // ---------- two graphs whose edges cross boxes ----------

  /** The greatest depth of every AS on the paths. */
  ghost predicate Depths(paths: seq<seq<uint32>>, layers: map<uint32, nat>) {
    && (forall a, d: nat :: At(paths, a, d) ==> a in layers && d <= layers[a])
    && forall a :: a in layers ==> At(paths, a, layers[a])
  }

  lemma NodeIs(nodes: seq<Node>, paths: seq<seq<uint32>>, layers: map<uint32, nat>, a: uint32)
    requires NodesFit(nodes, paths) && Depths(paths, layers) && a in layers
    ensures Node(a, "", layers[a]) in nodes
  {
    var n := HasNode(nodes, paths, a, layers[a]);
    DeepestLayer(nodes, paths, n, layers[a]);
  }

  lemma NodesAre(nodes: seq<Node>, paths: seq<seq<uint32>>, layers: map<uint32, nat>, n: Node)
    requires NodesFit(nodes, paths) && Depths(paths, layers) && n in nodes
    ensures n.asn in layers && n == Node(n.asn, "", layers[n.asn])
  {
    DeepestLayer(nodes, paths, n, 0);
    NodeIs(nodes, paths, layers, n.asn);
    SameNode(nodes, n, Node(n.asn, "", layers[n.asn]));
  }

  lemma {:induction false} CollapseKeeps(path: seq<uint32>)
    requires forall i :: 0 <= i < |path| - 1 ==> path[i] != path[i + 1]
    ensures Collapse(path) == path
  {
    if |path| > 1 {
      var front := path[..|path| - 1];
      assert forall i :: 0 <= i < |front| - 1 ==> front[i] != front[i + 1];
      CollapseKeeps(front);
      assert path == front + [path[|path| - 1]];
    }
  }

  const TRIANGLE: seq<seq<uint32>> := [[1, 2, 3], [1, 3]]
  const CORNER: seq<seq<uint32>> := [[1, 2, 3], [1, 4, 5], [1, 5]]

  ghost predicate OnSome(paths: seq<seq<uint32>>, asn: uint32, depth: nat) {
    exists p :: p in paths && AtDepth(p, asn, depth)
  }

  /** On paths without repeats the depth is the place in the path. */
  lemma AtOnPaths(paths: seq<seq<uint32>>, asn: uint32, d: nat)
    requires forall p :: p in paths ==> Collapse(p) == p
    ensures At(paths, asn, d) <==> OnSome(paths, asn, d)
  {}

  lemma TriangleAt(a: uint32, d: nat)
    ensures At(TRIANGLE, a, d) <==> (a == 1 && 1 <= d <= 2) || (a == 2 && d == 1) || (a == 3 && d == 0)
  {
    forall p | p in TRIANGLE ensures Collapse(p) == p { CollapseKeeps(p); }
    AtOnPaths(TRIANGLE, a, d);
    assert OnSome(TRIANGLE, a, d) <==> AtDepth(TRIANGLE[0], a, d) || AtDepth(TRIANGLE[1], a, d);
  }

  lemma TriangleDepths()
    ensures Depths(TRIANGLE, map[1 := 2, 2 := 1, 3 := 0])
  {
    forall a: uint32, d: nat
      ensures At(TRIANGLE, a, d) <==> (a == 1 && 1 <= d <= 2) || (a == 2 && d == 1) || (a == 3 && d == 0)
    {
      TriangleAt(a, d);
    }
  }

  lemma CornerAt(a: uint32, d: nat)
    ensures At(CORNER, a, d) <==> (a == 1 && 1 <= d <= 2) || (a in {2, 4} && d == 1) || (a in {3, 5} && d == 0)
  {
    forall p | p in CORNER ensures Collapse(p) == p { CollapseKeeps(p); }
    AtOnPaths(CORNER, a, d);
    assert OnSome(CORNER, a, d)
      <==> AtDepth(CORNER[0], a, d) || AtDepth(CORNER[1], a, d) || AtDepth(CORNER[2], a, d);
  }

  lemma CornerDepths()
    ensures Depths(CORNER, map[1 := 2, 2 := 1, 3 := 0, 4 := 1, 5 := 0])
  {
    forall a: uint32, d: nat
      ensures At(CORNER, a, d) <==> (a == 1 && 1 <= d <= 2) || (a in {2, 4} && d == 1) || (a in {3, 5} && d == 0)
    {
      CornerAt(a, d);
    }
  }

  /** The nodes are exactly those of the table. */
  ghost predicate Tabled(nodes: seq<Node>, layers: map<uint32, nat>) {
    forall n :: n in nodes <==> n.asn in layers && n == Node(n.asn, "", layers[n.asn])
  }

  lemma NodesTabled(nodes: seq<Node>, paths: seq<seq<uint32>>, layers: map<uint32, nat>)
    requires NodesFit(nodes, paths) && Depths(paths, layers)
    ensures UniqueASNs(nodes) && Tabled(nodes, layers) && |nodes| <= |layers|
  {
    forall n | n in nodes ensures n.asn in layers && n == Node(n.asn, "", layers[n.asn]) {
      NodesAre(nodes, paths, layers, n);
    }
    forall a | a in layers ensures Node(a, "", layers[a]) in nodes { NodeIs(nodes, paths, layers, a); }
    UniqueCount(nodes, layers.Keys);
  }

  lemma {:induction false} UniqueCount(nodes: seq<Node>, asns: set<uint32>)
    requires UniqueASNs(nodes) && forall i :: 0 <= i < |nodes| ==> nodes[i].asn in asns
    ensures |nodes| <= |asns|
  {
    if nodes != [] {
      var n := |nodes| - 1;
      UniqueCount(nodes[..n], asns - {nodes[n].asn});
    }
  }

  /** The edge from AS1 to AS3 runs along the only row, through AS2. */
  lemma TriangleSkips(g: Graph)
    requires Tabled(g.nodes, map[1 := 2, 2 := 1, 3 := 0]) && Edge(1, 3) in g.edges
    ensures Skipped(g, Node(2, "", 1))
  {
    assert Smaller(g.nodes, Node(2, "", 1)) == {} == Smaller(g.nodes, Node(3, "", 0));
    assert Node(1, "", 2) in g.nodes && Node(3, "", 0) in g.nodes;
    assert Skips(g.nodes, Edge(1, 3), Node(2, "", 1));
  }

  /** The edge from AS1 to AS5 turns into the second row and runs through AS4. */
  lemma CornerSkips(g: Graph)
    requires Tabled(g.nodes, map[1 := 2, 2 := 1, 3 := 0, 4 := 1, 5 := 0]) && Edge(1, 5) in g.edges
    ensures Skipped(g, Node(4, "", 1)) && Rank(g.nodes, Node(1, "", 2)) != Rank(g.nodes, Node(5, "", 0))
  {
    assert Smaller(g.nodes, Node(1, "", 2)) == {};
    assert Smaller(g.nodes, Node(4, "", 1)) == {Node(2, "", 1)};
    assert Smaller(g.nodes, Node(5, "", 0)) == {Node(3, "", 0)};
    assert Node(1, "", 2) in g.nodes && Node(5, "", 0) in g.nodes;
    assert Skips(g.nodes, Edge(1, 5), Node(4, "", 1));
  }

  lemma LastEdge(edges: seq<Edge>, paths: seq<seq<uint32>>, from: uint32, to: uint32)
    requires EdgesFit(edges, paths) && from != to && [from, to] in paths
    ensures Edge(from, to) in edges
  {
    var hop: seq<uint32> := [from, to];
    assert hop[0] == from && hop[0 + 1] == to;
    assert Linked(hop, from, to);
  }

  /** The first padding cell of a node's box does not show blank. */
  ghost predicate Overdrawn(grid: Grid, p: Position, n: Node)
    requires p.width >= 2
    reads grid.cells
  {
    var x, y := p.x + 1, p.y + 1;
    InBox(p, x, y) && grid.On(x, y) && BoxChar(p, Label(n), x, y) == ' ' && grid.cells[y, x] != ' '
  }

  lemma SkippedIsOverdrawn(grid: Grid, g: Graph, positions: map<uint32, Position>, n: Node)
    requires AllPadded(grid, g, positions) && n in g.nodes && Skipped(g, n) && n.name == "" && n.asn < 10
    ensures n.asn in positions && positions[n.asn].width >= 2 && Overdrawn(grid, positions[n.asn], n)
  {
    var p := positions[n.asn];
    assert |Decimal(n.asn)| == 1 && |Label(n)| == 3;
    assert PadLeft(p.width - 2, 3) >= 3;
    assert InBox(p, p.x + 1, p.y + 1) && BoxChar(p, Label(n), p.x + 1, p.y + 1) == ' ';
  }

  lemma TriangleNodes(nodes: seq<Node>)
    requires NodesFit(nodes, TRIANGLE)
    ensures Tabled(nodes, map[1 := 2, 2 := 1, 3 := 0]) && Node(2, "", 1) in nodes && |nodes| <= 3
  {
    TriangleDepths();
    NodesTabled(nodes, TRIANGLE, map[1 := 2, 2 := 1, 3 := 0]);
    assert Node(2, "", 1) in nodes;
  }

  lemma CornerNodes(nodes: seq<Node>)
    requires NodesFit(nodes, CORNER)
    ensures Tabled(nodes, map[1 := 2, 2 := 1, 3 := 0, 4 := 1, 5 := 0]) && Node(4, "", 1) in nodes && |nodes| <= 5
  {
    CornerDepths();
    NodesTabled(nodes, CORNER, map[1 := 2, 2 := 1, 3 := 0, 4 := 1, 5 := 0]);
    assert Node(4, "", 1) in nodes;
  }

  lemma TriangleOverdrawn(g: Graph)
    requires NodesFit(g.nodes, TRIANGLE) && EdgesFit(g.edges, TRIANGLE)
    ensures 0 < |g.nodes| <= 3 && Node(2, "", 1) in g.nodes && Skipped(g, Node(2, "", 1))
  {
    TriangleNodes(g.nodes);
    assert TRIANGLE[1] in TRIANGLE;
    LastEdge(g.edges, TRIANGLE, 1, 3);
    TriangleSkips(g);
  }

  lemma CornerOverdrawn(g: Graph)
    requires NodesFit(g.nodes, CORNER) && EdgesFit(g.edges, CORNER)
    ensures 0 < |g.nodes| <= 5 && Node(4, "", 1) in g.nodes && Skipped(g, Node(4, "", 1))
  {
    CornerNodes(g.nodes);
    assert CORNER[2] in CORNER;
    LastEdge(g.edges, CORNER, 1, 5);
    CornerSkips(g);
  }

  /** Drawn from two paths, the picture shows a straight edge inside the box of AS2, where its
      padding should be. */
  method RenderTriangle() returns (r: Drawing, ghost p: Position)
    ensures r.Drawn? && p.width >= 2 && Overdrawn(r.grid, p, Node(2, "", 1))
  {
    var g;
    ghost var positions;
    g, r, positions := RenderPaths(TRIANGLE);
    TriangleOverdrawn(g);
    SkippedIsOverdrawn(r.grid, g, positions, Node(2, "", 1));
    p := positions[2];
  }

  /** Drawn from three, it shows a bent edge inside the box of AS4. */
  method RenderCorner() returns (r: Drawing, ghost p: Position)
    ensures r.Drawn? && p.width >= 2 && Overdrawn(r.grid, p, Node(4, "", 1))
  {
    var g;
    ghost var positions;
    g, r, positions := RenderPaths(CORNER);
    CornerOverdrawn(g);
    SkippedIsOverdrawn(r.grid, g, positions, Node(4, "", 1));
    p := positions[4];
  }
}
