/** The layered layout: where the boxes of a topology graph go. */
module Layout {
  import opened Wire
  import opened AsGraph
  import Sorting

  datatype Config = Config(
    nodeHeight: nat, nodeMinWidth: nat, nodeMaxWidth: nat, nodePadding: nat,
    horizontalGap: nat, verticalGap: nat, padding: nat, charWidth: nat)

  const TEXT_CONFIG := Config(3, 11, 30, 2, 6, 1, 0, 1)

  datatype Position = Position(x: nat, y: nat, width: nat, height: nat)
  datatype Placement = Placement(positions: map<uint32, Position>, width: nat, height: nat)

  // ---------- labels ----------

  function Decimal(n: nat): string {
    var digit := '0' + (n % 10) as char;
    if n < 10 then [digit] else Decimal(n / 10) + [digit]
  }

  predicate IsDigit(c: char) {
    '0' <= c <= '9'
  }

  /** The number that digits stand for, the most significant first. */
  function NumberOf(digits: string): int
    requires forall i :: 0 <= i < |digits| ==> IsDigit(digits[i])
  {
    if digits == "" then 0
    else 10 * NumberOf(digits[..|digits| - 1]) + (digits[|digits| - 1] as int - '0' as int)
  }

  /** Decimal digits of the number, without leading zeros. */
  lemma {:induction false} DecimalReads(n: nat)
    ensures forall i :: 0 <= i < |Decimal(n)| ==> IsDigit(Decimal(n)[i])
    ensures NumberOf(Decimal(n)) == n && Decimal(n) != "" && (n > 0 ==> Decimal(n)[0] != '0')
  {
    var s := Decimal(n);
    if n >= 10 {
      DecimalReads(n / 10);
      assert s[..|s| - 1] == Decimal(n / 10);
    } else {
      assert s[..0] == "";
    }
  }

  /** Characters stand for the bytes of the label. */
  function Label(n: Node): string {
    if n.name == "" then "AS" + Decimal(n.asn) else "AS" + Decimal(n.asn) + " " + n.name
  }

  function BoxWidth(cfg: Config, n: Node): nat {
    var w := |Label(n)| * cfg.charWidth + cfg.nodePadding * 2;
    if w < cfg.nodeMaxWidth then w else cfg.nodeMaxWidth
  }

  // ---------- columns ----------

  type Columns = map<nat, seq<Node>>

  function Column(cols: Columns, layer: nat): seq<Node> {
    if layer in cols then cols[layer] else []
  }

  /** The widest box of a column, and at least the minimum. */
  function Width(cfg: Config, col: seq<Node>): nat {
    if col == [] then cfg.nodeMinWidth else
      var w, last := Width(cfg, col[..|col| - 1]), BoxWidth(cfg, col[|col| - 1]);
      if last > w then last else w
  }

  lemma {:induction false} WidthIsWidest(cfg: Config, col: seq<Node>)
    ensures Width(cfg, col) >= cfg.nodeMinWidth && forall n :: n in col ==> Width(cfg, col) >= BoxWidth(cfg, n)
    ensures Width(cfg, col) == cfg.nodeMinWidth || exists n :: n in col && Width(cfg, col) == BoxWidth(cfg, n)
  {
    if col != [] {
      WidthIsWidest(cfg, col[..|col| - 1]);
      assert col == col[..|col| - 1] + [col[|col| - 1]];
    }
  }

  /** Where a column starts: the highest layer is leftmost. */
  function Left(cfg: Config, cols: Columns, top: nat, layer: nat): nat
    requires layer <= top
    decreases top - layer
  {
    if layer == top then cfg.padding
    else Left(cfg, cols, top, layer + 1) + Width(cfg, Column(cols, layer + 1)) + cfg.horizontalGap
  }

  /** Where a row starts. */
  function Top(cfg: Config, row: nat): nat {
    if row == 0 then cfg.padding else Top(cfg, row - 1) + cfg.nodeHeight + cfg.verticalGap
  }

  lemma {:induction false} TopIsProduct(cfg: Config, row: nat)
    ensures Top(cfg, row) == cfg.padding + row * (cfg.nodeHeight + cfg.verticalGap)
  {
    if row > 0 {
      TopIsProduct(cfg, row - 1);
      var step := cfg.nodeHeight + cfg.verticalGap;
      assert row * step == (row - 1) * step + step;
    }
  }

  function Slot(cfg: Config, cols: Columns, top: nat, layer: nat, row: nat): Position
    requires layer <= top
  {
    Position(Left(cfg, cols, top, layer), Top(cfg, row), Width(cfg, Column(cols, layer)), cfg.nodeHeight)
  }

  /** The boxes of a text picture: three rows high with one between, six characters between columns, and
      as wide as the widest label with two characters on either side, but at least 11 and at most 30. */
  lemma TextBoxes(cols: Columns, top: nat, layer: nat, row: nat)
    requires layer <= top
    ensures var p, col := Slot(TEXT_CONFIG, cols, top, layer, row), Column(cols, layer);
            && p.height == 3 && p.y == 4 * row
            && 11 <= p.width <= 30 && (forall n :: n in col ==> |Label(n)| + 4 <= p.width || p.width == 30)
            && (p.width == 11 || exists n :: n in col && (p.width == |Label(n)| + 4 || p.width == 30 <= |Label(n)| + 4))
            && (if layer == top then p.x == 0
                else var left := Slot(TEXT_CONFIG, cols, top, layer + 1, row); p.x == left.x + left.width + 6)
  {
    WidthIsWidest(TEXT_CONFIG, Column(cols, layer));
    TopIsProduct(TEXT_CONFIG, row);
  }

  // ---------- boxes stay apart ----------

  predicate Apart(p: Position, q: Position, dx: nat, dy: nat) {
    || p.x + p.width + dx <= q.x || q.x + q.width + dx <= p.x
    || p.y + p.height + dy <= q.y || q.y + q.height + dy <= p.y
  }

  predicate Inside(p: Position, width: nat, height: nat) {
    p.x + p.width <= width && p.y + p.height <= height
  }

  lemma {:induction false} ColumnsApart(cfg: Config, cols: Columns, top: nat, higher: nat, lower: nat)
    requires lower < higher <= top
    ensures Left(cfg, cols, top, higher) + Width(cfg, Column(cols, higher)) + cfg.horizontalGap
         <= Left(cfg, cols, top, lower)
    decreases higher - lower
  {
    if lower + 1 < higher { ColumnsApart(cfg, cols, top, higher, lower + 1); }
  }

  lemma {:induction false} RowsApart(cfg: Config, upper: nat, lower: nat)
    requires upper < lower
    ensures Top(cfg, upper) + cfg.nodeHeight + cfg.verticalGap <= Top(cfg, lower)
    decreases lower
  {
    if upper + 1 < lower { RowsApart(cfg, upper, lower - 1); }
  }

  /** Two slots never come closer than the gaps of the configuration. */
  lemma SlotsApart(cfg: Config, cols: Columns, top: nat, l: nat, i: nat, m: nat, j: nat)
    requires l <= top && m <= top && (l != m || i != j)
    ensures Apart(Slot(cfg, cols, top, l, i), Slot(cfg, cols, top, m, j), cfg.horizontalGap, cfg.verticalGap)
  {
    if l < m { ColumnsApart(cfg, cols, top, m, l); }
    if m < l { ColumnsApart(cfg, cols, top, l, m); }
    if i < j { RowsApart(cfg, i, j); }
    if j < i { RowsApart(cfg, j, i); }
  }

  function CanvasWidth(cfg: Config, cols: Columns, top: nat): nat {
    Left(cfg, cols, top, 0) + Width(cfg, Column(cols, 0)) + cfg.padding
  }

  lemma SlotInWidth(cfg: Config, cols: Columns, top: nat, layer: nat, row: nat)
    requires layer <= top
    ensures Slot(cfg, cols, top, layer, row).x + Slot(cfg, cols, top, layer, row).width + cfg.padding
         <= CanvasWidth(cfg, cols, top)
  {
    if layer > 0 { ColumnsApart(cfg, cols, top, layer, 0); }
  }

  // ---------- computing it ----------

  function InLayer(nodes: seq<Node>, layer: nat): seq<Node> {
    if nodes == [] then [] else
      var before, n := InLayer(nodes[..|nodes| - 1], layer), nodes[|nodes| - 1];
      if n.layer == layer then before + [n] else before
  }

  method GroupByLayer(nodes: seq<Node>) returns (layers: Columns, maxLayer: nat)
    ensures forall l :: l in layers <==> exists n :: n in nodes && n.layer == l
    ensures forall l: nat :: Column(layers, l) == InLayer(nodes, l)
    ensures forall l :: l in layers ==> l <= maxLayer
  {
    layers, maxLayer := map[], 0;
    for k := 0 to |nodes|
      invariant forall l :: l in layers <==> exists n :: n in nodes[..k] && n.layer == l
      invariant forall l: nat :: Column(layers, l) == InLayer(nodes[..k], l)
      invariant forall l :: l in layers ==> l <= maxLayer
    {
      var n := nodes[k];
      assert nodes[..k + 1] == nodes[..k] + [n];
      assert nodes[..k + 1][..k] == nodes[..k];
      layers := layers[n.layer := Column(layers, n.layer) + [n]];
      if n.layer > maxLayer { maxLayer := n.layer; }
    }
    assert nodes[..|nodes|] == nodes;
  }

  function ByASN(n: Node): (int, int) {
    (n.asn, 0)
  }

  /** Every column holds the nodes of its layer, by ascending ASN. */
  ghost predicate Arranged(nodes: seq<Node>, cols: Columns) {
    && (forall l :: l in cols <==> exists n :: n in nodes && n.layer == l)
    && forall l: nat :: multiset(Column(cols, l)) == multiset(InLayer(nodes, l)) && Sorting.Ordered(Column(cols, l), ByASN)
  }

  method SortLayers(nodes: seq<Node>, layers: Columns) returns (cols: Columns)
    requires forall l :: l in layers <==> exists n :: n in nodes && n.layer == l
    requires forall l: nat :: Column(layers, l) == InLayer(nodes, l)
    ensures Arranged(nodes, cols) && cols.Keys == layers.Keys
  {
    cols := layers;
    var todo := layers.Keys;
    while todo != {}
      invariant cols.Keys == layers.Keys && todo <= layers.Keys
      invariant forall l: nat :: multiset(Column(cols, l)) == multiset(Column(layers, l))
      invariant forall l: nat :: l in todo || Sorting.Ordered(Column(cols, l), ByASN)
    {
      var l :| l in todo;
      var sorted := Sorting.Sort(cols[l], ByASN);
      cols := cols[l := sorted];
      todo := todo - {l};
    }
  }

  method ColumnWidth(cfg: Config, col: seq<Node>) returns (w: nat)
    ensures w == Width(cfg, col)
  {
    w := cfg.nodeMinWidth;
    for i := 0 to |col|
      invariant w == Width(cfg, col[..i])
    {
      assert col[..i + 1][..i] == col[..i];
      if BoxWidth(cfg, col[i]) > w { w := BoxWidth(cfg, col[i]); }
    }
    assert col[..|col|] == col;
  }

  method ColumnWidths(cfg: Config, cols: Columns) returns (widths: map<nat, nat>)
    ensures widths.Keys == cols.Keys && forall l :: l in cols ==> widths[l] == Width(cfg, cols[l])
  {
    widths := map[];
    var todo := cols.Keys;
    while todo != {}
      invariant todo <= cols.Keys && widths.Keys == cols.Keys - todo
      invariant forall l :: l in widths ==> widths[l] == Width(cfg, cols[l])
    {
      var l :| l in todo;
      var w := ColumnWidth(cfg, cols[l]);
      widths := widths[l := w];
      todo := todo - {l};
    }
  }

  method ColumnStarts(cfg: Config, cols: Columns, widths: map<nat, nat>, maxLayer: nat)
    returns (starts: map<nat, nat>, width: nat)
    requires widths.Keys == cols.Keys && forall l :: l in cols ==> widths[l] == Width(cfg, cols[l])
    ensures Started(cfg, cols, maxLayer, 0, starts)
    ensures width == CanvasWidth(cfg, cols, maxLayer)
  {
    starts := map[];
    var x := cfg.padding;
    for layer := maxLayer + 1 downto 0
      invariant x == After(cfg, cols, maxLayer, layer) && Started(cfg, cols, maxLayer, layer, starts)
    {
      starts := starts[layer := x];
      var w := if layer in widths then widths[layer] else cfg.nodeMinWidth;
      x := x + w + cfg.horizontalGap;
    }
    width := x - cfg.horizontalGap + cfg.padding;
  }

  /** Where the column right of a layer's starts. */
  function After(cfg: Config, cols: Columns, top: nat, layer: nat): nat
    requires layer <= top + 1
  {
    if layer == top + 1 then cfg.padding
    else Left(cfg, cols, top, layer) + Width(cfg, Column(cols, layer)) + cfg.horizontalGap
  }

  predicate Started(cfg: Config, cols: Columns, top: nat, from: nat, starts: map<nat, nat>) {
    forall l: nat :: from <= l <= top ==> l in starts && starts[l] == Left(cfg, cols, top, l)
  }

  /** The position is the slot of a node of that AS, within the height. */
  predicate Holds(cfg: Config, frame: Frame, asn: uint32, slot: (nat, nat), pos: Position, height: nat) {
    && slot.0 in frame.cols && slot.0 in frame.starts && slot.0 in frame.widths
    && slot.1 < |frame.cols[slot.0]| && frame.cols[slot.0][slot.1].asn == asn
    && pos == Position(frame.starts[slot.0], Top(cfg, slot.1), frame.widths[slot.0], cfg.nodeHeight)
    && pos.y + pos.height <= height
  }

  /** The columns with where each starts and how wide it is. */
  datatype Frame = Frame(cols: Columns, starts: map<nat, nat>, widths: map<nat, nat>)

  ghost predicate Framed(cfg: Config, frame: Frame, top: nat) {
    && (forall l :: l in frame.cols ==> l <= top)
    && Started(cfg, frame.cols, top, 0, frame.starts)
    && frame.widths.Keys == frame.cols.Keys && forall l :: l in frame.cols ==> frame.widths[l] == Width(cfg, frame.cols[l])
  }

  type Slots = map<uint32, (nat, nat)>

  /** The layout puts every AS in the slot recorded for it. */
  ghost predicate Places(cfg: Config, frame: Frame, positions: map<uint32, Position>, slots: Slots, height: nat) {
    positions.Keys == slots.Keys
    && forall a :: a in positions ==> Holds(cfg, frame, a, slots[a], positions[a], height)
  }

  lemma PlacesOneMore(
    cfg: Config, frame: Frame, positions: map<uint32, Position>, slots: Slots, height: nat,
    asn: uint32, slot: (nat, nat), pos: Position, bottom: nat)
    requires Places(cfg, frame, positions, slots, height) && height <= bottom && Holds(cfg, frame, asn, slot, pos, bottom)
    ensures Places(cfg, frame, positions[asn := pos], slots[asn := slot], bottom)
  {
  }

  method PlaceNode(
    cfg: Config, frame: Frame, layer: nat, row: nat, was: map<uint32, Position>, ghost held: Slots, height: nat)
    returns (positions: map<uint32, Position>, ghost slots: Slots, maxHeight: nat)
    requires layer in frame.cols && layer in frame.starts && layer in frame.widths && row < |frame.cols[layer]|
    requires Places(cfg, frame, was, held, height)
    ensures Places(cfg, frame, positions, slots, maxHeight)
    ensures positions.Keys == was.Keys + {frame.cols[layer][row].asn}
  {
    TopIsProduct(cfg, row);
    var asn, y := frame.cols[layer][row].asn, cfg.padding + row * (cfg.nodeHeight + cfg.verticalGap);
    var pos := Position(frame.starts[layer], y, frame.widths[layer], cfg.nodeHeight);
    var bottom := y + cfg.nodeHeight;
    maxHeight := if bottom > height then bottom else height;
    PlacesOneMore(cfg, frame, was, held, height, asn, (layer, row), pos, maxHeight);
    positions, slots := was[asn := pos], held[asn := (layer, row)];
  }

  function ASNs(nodes: seq<Node>): set<uint32> {
    if nodes == [] then {} else ASNs(nodes[..|nodes| - 1]) + {nodes[|nodes| - 1].asn}
  }

  lemma {:induction false} ASNsHold(nodes: seq<Node>, a: uint32)
    ensures a in ASNs(nodes) <==> exists n :: n in nodes && n.asn == a
  {
    if nodes != [] {
      var front, last := nodes[..|nodes| - 1], nodes[|nodes| - 1];
      ASNsHold(front, a);
      assert nodes == front + [last];
      assert last in nodes;
    }
  }

  method PlaceColumn(cfg: Config, frame: Frame, layer: nat, was: map<uint32, Position>, ghost held: Slots, height: nat)
    returns (positions: map<uint32, Position>, ghost slots: Slots, maxHeight: nat)
    requires layer in frame.cols && layer in frame.starts && layer in frame.widths
    requires Places(cfg, frame, was, held, height)
    ensures Places(cfg, frame, positions, slots, maxHeight)
    ensures positions.Keys == was.Keys + ASNs(frame.cols[layer])
  {
    positions, slots, maxHeight := was, held, height;
    var col := frame.cols[layer];
    for i := 0 to |col|
      invariant Places(cfg, frame, positions, slots, maxHeight)
      invariant positions.Keys == was.Keys + ASNs(col[..i])
    {
      assert col[..i + 1][..i] == col[..i];
      positions, slots, maxHeight := PlaceNode(cfg, frame, layer, i, positions, slots, maxHeight);
    }
    assert col[..|col|] == col;
  }

  method PlaceColumns(cfg: Config, frame: Frame, ghost top: nat)
    returns (positions: map<uint32, Position>, ghost slots: Slots, maxHeight: nat)
    requires Framed(cfg, frame, top)
    ensures Places(cfg, frame, positions, slots, maxHeight)
    ensures forall a :: a in positions <==> InColumns(frame.cols, a)
  {
    positions, slots, maxHeight := map[], map[], 0;
    var todo := frame.cols.Keys;
    while todo != {}
      invariant todo <= frame.cols.Keys && Places(cfg, frame, positions, slots, maxHeight)
      invariant Covers(frame.cols, todo, positions.Keys)
    {
      var l :| l in todo;
      CoversMore(frame.cols, todo, positions.Keys, l);
      positions, slots, maxHeight := PlaceColumn(cfg, frame, l, positions, slots, maxHeight);
      todo := todo - {l};
    }
  }

  ghost predicate Covers(cols: Columns, todo: set<nat>, asns: set<uint32>) {
    forall a :: a in asns <==> exists l :: l in cols && l !in todo && a in ASNs(cols[l])
  }

  lemma CoversMore(cols: Columns, todo: set<nat>, asns: set<uint32>, l: nat)
    requires Covers(cols, todo, asns) && l in todo && l in cols
    ensures Covers(cols, todo - {l}, asns + ASNs(cols[l]))
  {
    forall a | a in asns ensures exists m :: m in cols && m !in todo - {l} && a in ASNs(cols[m]) {
      var m :| m in cols && m !in todo && a in ASNs(cols[m]);
    }
  }

  /** ComputeLayout: every AS of the graph gets the slot of its column and row, columns
      from the highest layer to layer zero, rows by ASN. */
  method ComputeLayout(nodes: seq<Node>, cfg: Config)
    returns (layout: Placement, ghost frame: Frame, ghost top: nat, ghost slots: Slots)
    ensures layout.positions.Keys == ASNs(nodes)
    ensures nodes == [] ==> layout == Placement(map[], 0, 0)
    ensures nodes != [] ==> Arranged(nodes, frame.cols) && Framed(cfg, frame, top)
    ensures nodes != [] ==> layout.width == CanvasWidth(cfg, frame.cols, top) && layout.height >= cfg.padding
    ensures nodes != [] ==> Places(cfg, frame, layout.positions, slots, layout.height - cfg.padding)
  {
    if nodes == [] { return Placement(map[], 0, 0), Frame(map[], map[], map[]), 0, map[]; }
    var layers, maxLayer := GroupByLayer(nodes);
    var cols := SortLayers(nodes, layers);
    var widths := ColumnWidths(cfg, cols);
    var starts, width := ColumnStarts(cfg, cols, widths, maxLayer);
    var drawn := Frame(cols, starts, widths);
    var positions, held, maxHeight := PlaceColumns(cfg, drawn, maxLayer);
    forall a: uint32 ensures InColumns(cols, a) <==> a in ASNs(nodes) { ArrangedHold(nodes, cols, a); }
    layout := Placement(positions, width, maxHeight + cfg.padding);
    frame, top, slots := drawn, maxLayer, held;
  }

  ghost predicate InColumns(cols: Columns, a: uint32) {
    exists l :: l in cols && a in ASNs(cols[l])
  }

  lemma ArrangedHold(nodes: seq<Node>, cols: Columns, a: uint32)
    requires Arranged(nodes, cols)
    ensures InColumns(cols, a) <==> a in ASNs(nodes)
  {
    ASNsHold(nodes, a);
    forall l | l in cols ensures a in ASNs(cols[l]) <==> exists n :: n in nodes && n.layer == l && n.asn == a {
      ColumnHolds(nodes, cols, l, a);
    }
    if a in ASNs(nodes) {
      var n :| n in nodes && n.asn == a;
      assert n.layer in cols && a in ASNs(cols[n.layer]);
    }
  }

  lemma ColumnHolds(nodes: seq<Node>, cols: Columns, l: nat, a: uint32)
    requires Arranged(nodes, cols) && l in cols
    ensures a in ASNs(cols[l]) <==> exists n :: n in nodes && n.layer == l && n.asn == a
  {
    ASNsHold(cols[l], a);
    assert multiset(Column(cols, l)) == multiset(InLayer(nodes, l));
    Sorting.SameMembers(cols[l], InLayer(nodes, l));
    forall n: Node ensures n in InLayer(nodes, l) <==> n in nodes && n.layer == l { InLayerHolds(nodes, l, n); }
  }

  lemma {:induction false} InLayerHolds(nodes: seq<Node>, l: nat, n: Node)
    ensures n in InLayer(nodes, l) <==> n in nodes && n.layer == l
  {
    if nodes != [] {
      var front := nodes[..|nodes| - 1];
      InLayerHolds(front, l, n);
      assert nodes == front + [nodes[|nodes| - 1]];
    }
  }

  /** The boxes of two different ASes keep the gaps of the configuration between them. */
  lemma BoxesApart(
    cfg: Config, frame: Frame, top: nat, positions: map<uint32, Position>, slots: Slots, height: nat, a: uint32, b: uint32)
    requires Framed(cfg, frame, top) && Places(cfg, frame, positions, slots, height)
    requires a in positions && b in positions && a != b
    ensures Apart(positions[a], positions[b], cfg.horizontalGap, cfg.verticalGap)
  {
    SlotsApart(cfg, frame.cols, top, slots[a].0, slots[a].1, slots[b].0, slots[b].1);
  }

  /** Every box lies within the canvas, the outer padding kept free on the right and below. */
  lemma BoxInside(
    cfg: Config, frame: Frame, top: nat, positions: map<uint32, Position>, slots: Slots, height: nat, a: uint32)
    requires Framed(cfg, frame, top) && Places(cfg, frame, positions, slots, height) && a in positions
    ensures Inside(positions[a], CanvasWidth(cfg, frame.cols, top) - cfg.padding, height)
  {
    SlotInWidth(cfg, frame.cols, top, slots[a].0, slots[a].1);
  }
}
