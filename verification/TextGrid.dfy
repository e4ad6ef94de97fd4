/** Drawing the layout as box-drawing characters on a grid. */
module TextGrid {
  import opened Wire
  import opened AsGraph
  import opened Layout

  const MAX_NODES: nat := 100

  // ---------- one box ----------

  /** The bytes of the character that marks a shortened label. */
  const ELLIPSIS: string := ['\U{E2}', '\U{80}', '\U{A6}']

  /** The label as it is handed to the drawing: cut to the room inside the box, in bytes. */
  function Shortened(caption: string, room: nat): string {
    if |caption| <= room then caption
    else if room > 1 then caption[..room - 1] + ELLIPSIS
    else caption[..room]
  }

  /** Half the room left over, rounded toward zero; negative when the label overflows. */
  function PadLeft(room: nat, length: nat): int {
    if length <= room then (room - length) / 2 else -((length - room) / 2)
  }

  /** What the middle row shows at an offset inside the box. */
  function Inner(caption: string, room: nat, offset: nat): char {
    var text := Shortened(caption, room);
    var i := offset - PadLeft(room, |text|);
    if 0 <= i < |text| then text[i] else ' '
  }

  predicate InBox(pos: Position, x: int, y: int) {
    pos.x <= x < pos.x + pos.width && pos.y <= y < pos.y + 3
  }

  predicate OnBorder(pos: Position, x: int, y: int) {
    InBox(pos, x, y) && (y != pos.y + 1 || x == pos.x || x == pos.x + pos.width - 1)
  }

  function RowChar(x: int, left: int, right: int, first: char, middle: char, last: char): char {
    if x == left then first else if x == right then last else middle
  }

  function LabelChar(caption: string, left: int, width: nat, x: int): char
    requires width >= 2 && left <= x < left + width
  {
    if x == left || x == left + width - 1 then '\U{2502}' else Inner(caption, width - 2, x - left - 1)
  }

  function BorderChar(pos: Position, x: int, y: int): char {
    var left, right := pos.x, pos.x + pos.width - 1;
    if y == pos.y then RowChar(x, left, right, '\U{250C}', '\U{2500}', '\U{2510}')
    else if y == pos.y + 1 then '\U{2502}'
    else RowChar(x, left, right, '\U{2514}', '\U{2500}', '\U{2518}')
  }

  function BoxChar(pos: Position, caption: string, x: int, y: int): char
    requires pos.width >= 2 && InBox(pos, x, y)
  {
    if OnBorder(pos, x, y) then BorderChar(pos, x, y) else Inner(caption, pos.width - 2, x - pos.x - 1)
  }

  /** A box three rows high: corners, lines and sides, and within them the label. */
  lemma BoxLooks(pos: Position, caption: string, x: int, y: int)
    requires pos.width >= 2 && InBox(pos, x, y)
    ensures var left, right := x == pos.x, x == pos.x + pos.width - 1;
            && (OnBorder(pos, x, y) <==> y == pos.y || y == pos.y + 2 || left || right)
            && (y == pos.y ==>
                  BoxChar(pos, caption, x, y) == if left then '\U{250C}' else if right then '\U{2510}' else '\U{2500}')
            && (y == pos.y + 2 ==>
                  BoxChar(pos, caption, x, y) == if left then '\U{2514}' else if right then '\U{2518}' else '\U{2500}')
            && (y == pos.y + 1 ==>
                  BoxChar(pos, caption, x, y) == if left || right then '\U{2502}' else Inner(caption, pos.width - 2, x - pos.x - 1))
  {}

  // ---------- one edge ----------

  /** A drop of ink lands only on a blank cell. */
  function Over(c: char, here: bool, ink: char): char {
    if c == ' ' && here then ink else c
  }

  predicate Across(x: int, y: int, from: int, to: int, row: int) {
    y == row && from <= x < to
  }

  predicate Down(x: int, y: int, column: int, above: int, below: int) {
    x == column && above < y < below
  }

  function EdgeCell(c: char, from: Position, to: Position, x: int, y: int): char {
    var fromX, fromY, toX, toY := from.x + from.width, from.y + 1, to.x - 1, to.y + 1;
    if fromY == toY then
      Over(Over(c, Across(x, y, fromX, toX, fromY), '\U{2500}'), x == toX && y == toY, '>')
    else
      var midX := if fromX + 1 >= toX then fromX else fromX + 1;
      var c1 := Over(c, Across(x, y, fromX, midX, fromY), '\U{2500}');
      var c2 := Over(c1, x == midX && y == fromY, if fromY < toY then '\U{2510}' else '\U{2518}');
      var c3 := Over(c2, if fromY < toY then Down(x, y, midX, fromY, toY) else Down(x, y, midX, toY, fromY), '\U{2502}');
      var c4 := Over(c3, x == midX && y == toY, if fromY < toY then '\U{2514}' else '\U{250C}');
      var c5 := Over(c4, Across(x, y, midX + 1, toX, toY), '\U{2500}');
      Over(c5, x == toX && y == toY, '>')
  }

  /** What an edge draws on an empty grid.  To a box in the same row: a line from behind the one box to before
      the other, and an arrow head.  Else it turns in the first free column, or right behind
      the box if there is no room, and turns again in the row it ends in. */
  lemma EdgeLooks(from: Position, to: Position, x: int, y: int)
    ensures var start, end, row, last := from.x + from.width, to.x - 1, from.y + 1, to.y + 1;
            var bend := if start + 1 < end then start + 1 else start;
            var down := from.y < to.y;
            EdgeCell(' ', from, to, x, y) ==
              if from.y == to.y && y == row && start <= x < end then '\U{2500}'
              else if from.y == to.y && y == row && x == end then '>'
              else if from.y == to.y then ' '
              else if y == row && x == bend then (if down then '\U{2510}' else '\U{2518}')
              else if y == row && start <= x < bend then '\U{2500}'
              else if y == last && x == bend then (if down then '\U{2514}' else '\U{250C}')
              else if x == bend && (row < y < last || last < y < row) then '\U{2502}'
              else if y == last && bend < x < end then '\U{2500}'
              else if y == last && x == end then '>' else ' '
  {}

  /** An edge never changes a cell that holds anything. */
  lemma EdgeKeepsInk(c: char, from: Position, to: Position, x: int, y: int)
    ensures c != ' ' ==> EdgeCell(c, from, to, x, y) == c
  {
  }

  // ---------- the grid ----------

  class Grid {
    const cells: array2<char>

    constructor (width: nat, height: nat)
      ensures fresh(cells)
      ensures cells.Length1 == (if width < 1 then 1 else width) && cells.Length0 == (if height < 1 then 1 else height)
      ensures forall x, y :: On(x, y) ==> cells[y, x] == ' '
    {
      var w, h := if width < 1 then 1 else width, if height < 1 then 1 else height;
      cells := new char[h, w]((_, _) => ' ');
    }

    predicate On(x: int, y: int) {
      0 <= y < cells.Length0 && 0 <= x < cells.Length1
    }

    method Set(x: int, y: int, ch: char)
      modifies cells
      ensures forall u, v :: On(u, v) ==> cells[v, u] == if u == x && v == y then ch else old(cells[v, u])
    {
      if On(x, y) { cells[y, x] := ch; }
    }

    method SetIfEmpty(x: int, y: int, ch: char)
      modifies cells
      ensures forall u, v :: On(u, v) ==> cells[v, u] == Over(old(cells[v, u]), u == x && v == y, ch)
    {
      if On(x, y) && cells[y, x] == ' ' { Set(x, y, ch); }
    }

    /** A border row: its two corners and what lies between. */
    method DrawRow(x: nat, y: nat, width: nat, first: char, middle: char, last: char)
      requires width >= 2
      modifies cells
      ensures forall u, v :: On(u, v) ==>
        cells[v, u] == if v == y && x <= u < x + width then RowChar(u, x, x + width - 1, first, middle, last) else old(cells[v, u])
    {
      Set(x, y, first);
      for i := 1 to width - 1
        invariant forall u, v :: On(u, v) ==>
          cells[v, u] == if v == y && x <= u < x + i then (if u == x then first else middle) else old(cells[v, u])
      {
        Set(x + i, y, middle);
      }
      Set(x + width - 1, y, last);
    }

    method DrawLabel(x: nat, y: nat, width: nat, caption: string)
      requires width >= 2
      modifies cells
      ensures forall u, v :: On(u, v) ==>
        cells[v, u] == if v == y && x <= u < x + width then LabelChar(caption, x, width, u) else old(cells[v, u])
    {
      var room := width - 2;
      var text := Shortened(caption, room);
      Set(x, y, '\U{2502}');
      var padLeft := PadLeft(room, |text|);
      for i := 1 to width - 1
        invariant forall u, v :: On(u, v) ==>
          cells[v, u] == if v == y && x <= u < x + i then LabelChar(caption, x, width, u) else old(cells[v, u])
      {
        var k := i - 1 - padLeft;
        Set(x + i, y, if 0 <= k < |text| then text[k] else ' ');
      }
      Set(x + width - 1, y, '\U{2502}');
    }

    method DrawBox(pos: Position, caption: string)
      requires pos.width >= 2
      modifies cells
      ensures forall u, v :: On(u, v) ==>
        cells[v, u] == if InBox(pos, u, v) then BoxChar(pos, caption, u, v) else old(cells[v, u])
    {
      DrawRow(pos.x, pos.y, pos.width, '\U{250C}', '\U{2500}', '\U{2510}');
      DrawLabel(pos.x, pos.y + 1, pos.width, caption);
      DrawRow(pos.x, pos.y + 2, pos.width, '\U{2514}', '\U{2500}', '\U{2518}');
    }

    method DrawAcross(from: int, to: int, y: int, ch: char)
      requires ch != ' '
      modifies cells
      ensures forall u, v :: On(u, v) ==> cells[v, u] == Over(old(cells[v, u]), Across(u, v, from, to, y), ch)
    {
      var x := from;
      while x < to
        invariant x == from || from < x <= to
        invariant forall u, v :: On(u, v) ==> cells[v, u] == Over(old(cells[v, u]), Across(u, v, from, x, y), ch)
      {
        SetIfEmpty(x, y, ch);
        x := x + 1;
      }
    }

    /** The cells of a column strictly between two rows. */
    method DrawDown(x: int, above: int, below: int, ch: char)
      requires ch != ' ' && above < below
      modifies cells
      ensures forall u, v :: On(u, v) ==> cells[v, u] == Over(old(cells[v, u]), Down(u, v, x, above, below), ch)
    {
      var y := above + 1;
      while y < below
        invariant above < y <= below
        invariant forall u, v :: On(u, v) ==> cells[v, u] == Over(old(cells[v, u]), Down(u, v, x, above, y), ch)
      {
        SetIfEmpty(x, y, ch);
        y := y + 1;
      }
    }

    method DrawUp(x: int, above: int, below: int, ch: char)
      requires ch != ' ' && above < below
      modifies cells
      ensures forall u, v :: On(u, v) ==> cells[v, u] == Over(old(cells[v, u]), Down(u, v, x, above, below), ch)
    {
      var y := below - 1;
      while y > above
        invariant above <= y < below
        invariant forall u, v :: On(u, v) ==> cells[v, u] == Over(old(cells[v, u]), Down(u, v, x, y, below), ch)
      {
        SetIfEmpty(x, y, ch);
        y := y - 1;
      }
    }

    method DrawEdge(from: Position, to: Position)
      modifies cells
      ensures forall u, v :: On(u, v) ==> cells[v, u] == EdgeCell(old(cells[v, u]), from, to, u, v)
    {
      var fromX, fromY, toX, toY := from.x + from.width, from.y + 1, to.x - 1, to.y + 1;
      if fromY == toY {
        DrawAcross(fromX, toX, fromY, '\U{2500}');
        SetIfEmpty(toX, toY, '>');
        return;
      }
      var midX := if fromX + 1 >= toX then fromX else fromX + 1;
      DrawAcross(fromX, midX, fromY, '\U{2500}');
      if fromY < toY {
        SetIfEmpty(midX, fromY, '\U{2510}');
        DrawDown(midX, fromY, toY, '\U{2502}');
        SetIfEmpty(midX, toY, '\U{2514}');
      } else {
        SetIfEmpty(midX, fromY, '\U{2518}');
        DrawUp(midX, toY, fromY, '\U{2502}');
        SetIfEmpty(midX, toY, '\U{250C}');
      }
      DrawAcross(midX + 1, toX, toY, '\U{2500}');
      SetIfEmpty(toX, toY, '>');
    }
  }

  // ---------- the whole picture ----------

  datatype Box = Box(pos: Position, caption: string)
  datatype Arrow = Arrow(from: Position, to: Position)

  /** What the boxes leave in a cell: the last one drawn there. */
  function Painted(boxes: seq<Box>, x: int, y: int): char
    requires forall b :: b in boxes ==> b.pos.width >= 2
  {
    if boxes == [] then ' ' else
      var b := boxes[|boxes| - 1];
      if InBox(b.pos, x, y) then BoxChar(b.pos, b.caption, x, y) else Painted(boxes[..|boxes| - 1], x, y)
  }

  /** What the edges make of it. */
  function Traced(c: char, arrows: seq<Arrow>, x: int, y: int): char {
    if arrows == [] then c else
      var a := arrows[|arrows| - 1];
      EdgeCell(Traced(c, arrows[..|arrows| - 1], x, y), a.from, a.to, x, y)
  }

  lemma {:induction false} TracingKeepsInk(c: char, arrows: seq<Arrow>, x: int, y: int)
    requires c != ' '
    ensures Traced(c, arrows, x, y) == c
  {
    if arrows != [] {
      TracingKeepsInk(c, arrows[..|arrows| - 1], x, y);
      var a := arrows[|arrows| - 1];
      EdgeKeepsInk(c, a.from, a.to, x, y);
    }
  }

  lemma BorderHasInk(pos: Position, x: int, y: int)
    requires OnBorder(pos, x, y)
    ensures BorderChar(pos, x, y) != ' '
  {
  }

  /** Boxes drawn at the same place have the same border; others do not touch. */
  predicate Compatible(p: Position, q: Position) {
    p == q || Apart(p, q, 0, 0)
  }

  lemma {:induction false} BoxShows(boxes: seq<Box>, k: nat, x: int, y: int)
    requires forall b :: b in boxes ==> b.pos.width >= 2 && b.pos.height == 3
    requires k < |boxes| && OnBorder(boxes[k].pos, x, y)
    requires forall j :: 0 <= j < |boxes| ==> Compatible(boxes[j].pos, boxes[k].pos)
    ensures Painted(boxes, x, y) == BorderChar(boxes[k].pos, x, y)
    decreases |boxes|
  {
    var last := |boxes| - 1;
    assert Compatible(boxes[last].pos, boxes[k].pos);
    if k < last && boxes[last].pos != boxes[k].pos {
      assert !InBox(boxes[last].pos, x, y);
      assert forall j :: 0 <= j < last ==> boxes[..last][j] == boxes[j];
      BoxShows(boxes[..last], k, x, y);
    }
  }

  /** Once every box and every edge is drawn, every cell of a box's border shows the
      border. */
  lemma BordersSurvive(boxes: seq<Box>, arrows: seq<Arrow>, k: nat, x: int, y: int)
    requires forall b :: b in boxes ==> b.pos.width >= 2 && b.pos.height == 3
    requires k < |boxes| && OnBorder(boxes[k].pos, x, y)
    requires forall j :: 0 <= j < |boxes| ==> Compatible(boxes[j].pos, boxes[k].pos)
    ensures Traced(Painted(boxes, x, y), arrows, x, y) == BorderChar(boxes[k].pos, x, y)
  {
    BoxShows(boxes, k, x, y);
    BorderHasInk(boxes[k].pos, x, y);
    TracingKeepsInk(Painted(boxes, x, y), arrows, x, y);
  }

  /** Where no other box was drawn, everything but the blanks of a box survives too. */
  lemma {:induction false} BoxAloneShows(boxes: seq<Box>, k: nat, x: int, y: int)
    requires forall b :: b in boxes ==> b.pos.width >= 2 && b.pos.height == 3
    requires k < |boxes| && InBox(boxes[k].pos, x, y)
    requires forall j :: 0 <= j < |boxes| && j != k ==> Apart(boxes[j].pos, boxes[k].pos, 0, 0)
    ensures Painted(boxes, x, y) == BoxChar(boxes[k].pos, boxes[k].caption, x, y)
    decreases |boxes|
  {
    var last := |boxes| - 1;
    if k < last {
      assert Apart(boxes[last].pos, boxes[k].pos, 0, 0);
      assert !InBox(boxes[last].pos, x, y);
      assert forall j :: 0 <= j < last ==> boxes[..last][j] == boxes[j];
      BoxAloneShows(boxes[..last], k, x, y);
    }
  }

  lemma LabelsSurvive(boxes: seq<Box>, arrows: seq<Arrow>, k: nat, x: int, y: int)
    requires forall b :: b in boxes ==> b.pos.width >= 2 && b.pos.height == 3
    requires k < |boxes| && InBox(boxes[k].pos, x, y)
    requires forall j :: 0 <= j < |boxes| && j != k ==> Apart(boxes[j].pos, boxes[k].pos, 0, 0)
    ensures var c := BoxChar(boxes[k].pos, boxes[k].caption, x, y);
            c != ' ' ==> Traced(Painted(boxes, x, y), arrows, x, y) == c
  {
    BoxAloneShows(boxes, k, x, y);
    if Painted(boxes, x, y) != ' ' { TracingKeepsInk(Painted(boxes, x, y), arrows, x, y); }
  }

  // ---------- where edges run ----------

  /** The cells an edge runs over. */
  predicate OnRoute(from: Position, to: Position, x: int, y: int) {
    var fromX, fromY, toX, toY := from.x + from.width, from.y + 1, to.x - 1, to.y + 1;
    if fromY == toY then y == fromY && (fromX <= x < toX || x == toX)
    else
      var midX := if fromX + 1 < toX then fromX + 1 else fromX;
      || (y == fromY && fromX <= x <= midX)
      || (x == midX && (fromY <= y <= toY || toY <= y <= fromY))
      || (y == toY && (midX <= x < toX || x == toX))
  }

  lemma InkIffOnRoute(from: Position, to: Position, x: int, y: int)
    ensures EdgeCell(' ', from, to, x, y) != ' ' <==> OnRoute(from, to, x, y)
  {
  }

  /** A blank cell, inside a box or out, stays blank exactly when no edge runs over it. */
  lemma {:induction false} BlankStaysIff(arrows: seq<Arrow>, x: int, y: int)
    ensures Traced(' ', arrows, x, y) == ' ' <==> forall a :: a in arrows ==> !OnRoute(a.from, a.to, x, y)
  {
    if arrows != [] {
      var front, a := arrows[..|arrows| - 1], arrows[|arrows| - 1];
      assert arrows == front + [a];
      BlankStaysIff(front, x, y);
      InkIffOnRoute(a.from, a.to, x, y);
      EdgeKeepsInk(Traced(' ', front, x, y), a.from, a.to, x, y);
    }
  }

  // ---------- labels ----------

  /** A label that fits is shown whole and centred; one that does not loses its first byte
      and ends in the first two bytes of the ellipsis. */
  lemma LabelShown(caption: string, room: nat, offset: nat)
    requires offset < room
    ensures |caption| <= room ==>
      var pad := (room - |caption|) / 2;
      Inner(caption, room, offset) == if pad <= offset < pad + |caption| then caption[offset - pad] else ' '
    ensures |caption| > room > 1 ==>
      Inner(caption, room, offset) ==
        if offset + 2 < room then caption[offset + 1] else if offset + 2 == room then '\U{E2}' else '\U{80}'
    ensures |caption| > room == 1 ==> Inner(caption, room, offset) == caption[0]
  {
    if |caption| > room > 1 {
      var text := Shortened(caption, room);
      assert |text| == room + 2 && PadLeft(room, |text|) == -1;
      assert offset + 2 < room ==> text[offset + 1] == caption[offset + 1];
      assert offset + 2 >= room ==> text[offset + 1] == ELLIPSIS[offset + 2 - room];
    }
  }

  // ---------- rendering ----------

  function BoxesOf(nodes: seq<Node>, positions: map<uint32, Position>): seq<Box> {
    if nodes == [] then [] else
      var before, n := BoxesOf(nodes[..|nodes| - 1], positions), nodes[|nodes| - 1];
      if n.asn in positions then before + [Box(positions[n.asn], Label(n))] else before
  }

  function ArrowsOf(edges: seq<Edge>, positions: map<uint32, Position>): seq<Arrow> {
    if edges == [] then [] else
      var before, e := ArrowsOf(edges[..|edges| - 1], positions), edges[|edges| - 1];
      if e.from in positions && e.to in positions then before + [Arrow(positions[e.from], positions[e.to])] else before
  }

  /** Boxes as the text configuration makes them. */
  ghost predicate Sized(positions: map<uint32, Position>) {
    forall a :: a in positions ==> positions[a].width >= 2 && positions[a].height == 3
  }

  lemma {:induction false} BoxesSized(nodes: seq<Node>, positions: map<uint32, Position>)
    requires Sized(positions)
    ensures forall b :: b in BoxesOf(nodes, positions) ==> b.pos.width >= 2 && b.pos.height == 3
  {
    if nodes != [] { BoxesSized(nodes[..|nodes| - 1], positions); }
  }

  lemma PaintedNext(boxes: seq<Box>, b: Box, x: int, y: int)
    requires forall c :: c in boxes ==> c.pos.width >= 2
    requires b.pos.width >= 2
    ensures forall c :: c in boxes + [b] ==> c.pos.width >= 2
    ensures Painted(boxes + [b], x, y) == if InBox(b.pos, x, y) then BoxChar(b.pos, b.caption, x, y) else Painted(boxes, x, y)
  {
    assert (boxes + [b])[..|boxes|] == boxes;
  }

  lemma TracedNext(c: char, arrows: seq<Arrow>, a: Arrow, x: int, y: int)
    ensures Traced(c, arrows + [a], x, y) == EdgeCell(Traced(c, arrows, x, y), a.from, a.to, x, y)
  {
    assert (arrows + [a])[..|arrows|] == arrows;
  }

  method DrawBoxes(grid: Grid, nodes: seq<Node>, positions: map<uint32, Position>)
    requires Sized(positions) && forall x, y :: grid.On(x, y) ==> grid.cells[y, x] == ' '
    modifies grid.cells
    ensures forall b :: b in BoxesOf(nodes, positions) ==> b.pos.width >= 2
    ensures forall x, y :: grid.On(x, y) ==> grid.cells[y, x] == Painted(BoxesOf(nodes, positions), x, y)
  {
    for i := 0 to |nodes|
      invariant forall b :: b in BoxesOf(nodes[..i], positions) ==> b.pos.width >= 2
      invariant forall x, y :: grid.On(x, y) ==> grid.cells[y, x] == Painted(BoxesOf(nodes[..i], positions), x, y)
    {
      var n := nodes[i];
      assert nodes[..i + 1][..i] == nodes[..i];
      if n.asn in positions {
        ghost var boxes := BoxesOf(nodes[..i], positions);
        ghost var b := Box(positions[n.asn], Label(n));
        grid.DrawBox(positions[n.asn], Label(n));
        forall x, y | grid.On(x, y) ensures grid.cells[y, x] == Painted(boxes + [b], x, y) { PaintedNext(boxes, b, x, y); }
      }
    }
    assert nodes[..|nodes|] == nodes;
  }

  method DrawEdges(grid: Grid, edges: seq<Edge>, positions: map<uint32, Position>)
    modifies grid.cells
    ensures forall x, y :: grid.On(x, y) ==>
      grid.cells[y, x] == Traced(old(grid.cells[y, x]), ArrowsOf(edges, positions), x, y)
  {
    for i := 0 to |edges|
      invariant forall x, y :: grid.On(x, y) ==>
        grid.cells[y, x] == Traced(old(grid.cells[y, x]), ArrowsOf(edges[..i], positions), x, y)
    {
      var e := edges[i];
      assert edges[..i + 1][..i] == edges[..i];
      if e.from in positions && e.to in positions {
        ghost var arrows := ArrowsOf(edges[..i], positions);
        ghost var a := Arrow(positions[e.from], positions[e.to]);
        grid.DrawEdge(positions[e.from], positions[e.to]);
        forall x, y | grid.On(x, y) ensures grid.cells[y, x] == Traced(old(grid.cells[y, x]), arrows + [a], x, y) {
          TracedNext(old(grid.cells[y, x]), arrows, a, x, y);
        }
      }
    }
    assert edges[..|edges|] == edges;
  }

  /** The boxes of different ASes do not touch, and all lie on the canvas. */
  ghost predicate Clear(positions: map<uint32, Position>, width: nat, height: nat) {
    && (forall a, b :: a in positions && b in positions && a != b ==> Apart(positions[a], positions[b], 0, 0))
    && forall a :: a in positions ==> Inside(positions[a], width, height)
  }

  lemma LayoutIsClear(frame: Frame, top: nat, positions: map<uint32, Position>, slots: Slots, height: nat)
    requires Framed(TEXT_CONFIG, frame, top) && Places(TEXT_CONFIG, frame, positions, slots, height)
    ensures Clear(positions, CanvasWidth(TEXT_CONFIG, frame.cols, top), height) && Sized(positions)
  {
    forall a, b | a in positions && b in positions && a != b ensures Apart(positions[a], positions[b], 0, 0) {
      BoxesApart(TEXT_CONFIG, frame, top, positions, slots, height, a, b);
    }
    forall a | a in positions
      ensures Inside(positions[a], CanvasWidth(TEXT_CONFIG, frame.cols, top), height)
      ensures positions[a].width >= 2 && positions[a].height == 3
    {
      BoxInside(TEXT_CONFIG, frame, top, positions, slots, height, a);
      WidthIsWidest(TEXT_CONFIG, frame.cols[slots[a].0]);
    }
  }

  lemma {:induction false} BoxIsPlaced(nodes: seq<Node>, positions: map<uint32, Position>, j: nat) returns (a: uint32)
    requires j < |BoxesOf(nodes, positions)|
    ensures a in positions && BoxesOf(nodes, positions)[j].pos == positions[a]
  {
    var front, n := nodes[..|nodes| - 1], nodes[|nodes| - 1];
    if j < |BoxesOf(front, positions)| {
      a := BoxIsPlaced(front, positions, j);
    } else {
      a := n.asn;
    }
  }

  lemma {:induction false} NodeHasBox(nodes: seq<Node>, positions: map<uint32, Position>, n: Node) returns (k: nat)
    requires n in nodes && n.asn in positions
    ensures k < |BoxesOf(nodes, positions)| && BoxesOf(nodes, positions)[k].pos == positions[n.asn]
  {
    var front, last := nodes[..|nodes| - 1], nodes[|nodes| - 1];
    if n == last {
      k := |BoxesOf(front, positions)|;
    } else {
      assert nodes == front + [last];
      k := NodeHasBox(front, positions, n);
    }
  }

  lemma NodeBorderShows(
    nodes: seq<Node>, positions: map<uint32, Position>, width: nat, height: nat, arrows: seq<Arrow>, n: Node, x: int, y: int)
    requires Clear(positions, width, height) && Sized(positions)
    requires n in nodes && n.asn in positions && OnBorder(positions[n.asn], x, y)
    ensures forall b :: b in BoxesOf(nodes, positions) ==> b.pos.width >= 2
    ensures Traced(Painted(BoxesOf(nodes, positions), x, y), arrows, x, y) == BorderChar(positions[n.asn], x, y)
  {
    BoxesSized(nodes, positions);
    var boxes := BoxesOf(nodes, positions);
    var k := NodeHasBox(nodes, positions, n);
    forall j | 0 <= j < |boxes| ensures Compatible(boxes[j].pos, boxes[k].pos) {
      var a := BoxIsPlaced(nodes, positions, j);
      assert a != n.asn ==> Apart(positions[a], positions[n.asn], 0, 0);
    }
    BordersSurvive(boxes, arrows, k, x, y);
  }

  // ---------- what shows in a box ----------

  /** Some edge runs over the cell. */
  ghost predicate Crossed(edges: seq<Edge>, positions: map<uint32, Position>, x: int, y: int) {
    exists e :: e in edges && RunsOver(e, positions, x, y)
  }

  predicate RunsOver(e: Edge, positions: map<uint32, Position>, x: int, y: int) {
    e.from in positions && e.to in positions && OnRoute(positions[e.from], positions[e.to], x, y)
  }

  lemma {:induction false} ArrowsCross(edges: seq<Edge>, positions: map<uint32, Position>, x: int, y: int)
    ensures (exists a :: a in ArrowsOf(edges, positions) && OnRoute(a.from, a.to, x, y)) <==> Crossed(edges, positions, x, y)
  {
    if edges != [] {
      var front, e := edges[..|edges| - 1], edges[|edges| - 1];
      ArrowsCross(front, positions, x, y);
      assert edges == front + [e];
      if RunsOver(e, positions, x, y) {
        assert Arrow(positions[e.from], positions[e.to]) in ArrowsOf(edges, positions);
      }
      assert Crossed(front, positions, x, y) ==> Crossed(edges, positions, x, y);
    }
  }

  lemma {:induction false} BoxesOfAll(nodes: seq<Node>, positions: map<uint32, Position>)
    requires forall n :: n in nodes ==> n.asn in positions
    ensures |BoxesOf(nodes, positions)| == |nodes|
    ensures forall i :: 0 <= i < |nodes| ==> BoxesOf(nodes, positions)[i] == Box(positions[nodes[i].asn], Label(nodes[i]))
  {
    if nodes != [] { BoxesOfAll(nodes[..|nodes| - 1], positions); }
  }

  lemma NodePainted(nodes: seq<Node>, positions: map<uint32, Position>, width: nat, height: nat, i: nat, x: int, y: int)
    requires Clear(positions, width, height) && Sized(positions)
    requires UniqueASNs(nodes) && forall n :: n in nodes ==> n.asn in positions
    requires i < |nodes| && InBox(positions[nodes[i].asn], x, y)
    ensures forall b :: b in BoxesOf(nodes, positions) ==> b.pos.width >= 2
    ensures Painted(BoxesOf(nodes, positions), x, y) == BoxChar(positions[nodes[i].asn], Label(nodes[i]), x, y)
  {
    BoxesSized(nodes, positions);
    BoxesOfAll(nodes, positions);
    var boxes := BoxesOf(nodes, positions);
    forall j | 0 <= j < |boxes| && j != i ensures Apart(boxes[j].pos, boxes[i].pos, 0, 0) {
      assert nodes[j].asn != nodes[i].asn;
    }
    BoxAloneShows(boxes, i, x, y);
  }

  /** Ink stays, and a blank stays blank exactly when no edge runs over it. */
  lemma TracedIff(c: char, edges: seq<Edge>, positions: map<uint32, Position>, x: int, y: int)
    ensures var r := Traced(c, ArrowsOf(edges, positions), x, y);
            if c != ' ' then r == c else r == ' ' <==> !Crossed(edges, positions, x, y)
  {
    var arrows := ArrowsOf(edges, positions);
    if c != ' ' {
      TracingKeepsInk(c, arrows, x, y);
    } else {
      BlankStaysIff(arrows, x, y);
      ArrowsCross(edges, positions, x, y);
    }
  }

  /** What a cell shows where the boxes left `c`. */
  ghost predicate Shows(cell: char, c: char, edges: seq<Edge>, positions: map<uint32, Position>, x: int, y: int) {
    if c != ' ' then cell == c else cell == ' ' <==> !Crossed(edges, positions, x, y)
  }

  /** Inside the box of a node everything drawn shows, and the rest is blank except where an
      edge runs over it. */
  ghost predicate FilledIn(grid: Grid, n: Node, edges: seq<Edge>, positions: map<uint32, Position>)
    requires n.asn in positions && positions[n.asn].width >= 2
    reads grid.cells
  {
    forall x, y :: InBox(positions[n.asn], x, y) ==>
      grid.On(x, y) && Shows(grid.cells[y, x], BoxChar(positions[n.asn], Label(n), x, y), edges, positions, x, y)
  }

  ghost predicate AllFilled(grid: Grid, g: Graph, positions: map<uint32, Position>)
    reads grid.cells
  {
    forall n :: n in g.nodes ==>
      n.asn in positions && positions[n.asn].width >= 2 && FilledIn(grid, n, g.edges, positions)
  }

  /** Outside the boxes there is nothing but edges. */
  ghost predicate Background(grid: Grid, g: Graph, positions: map<uint32, Position>)
    reads grid.cells
  {
    forall x, y :: grid.On(x, y) && (forall n :: n in g.nodes && n.asn in positions ==> !InBox(positions[n.asn], x, y)) ==>
      (grid.cells[y, x] == ' ' <==> !Crossed(g.edges, positions, x, y))
  }

  // ---------- rendering a graph ----------

  datatype Drawing = Refused(nodes: nat) | Nothing | Drawn(grid: Grid)

  /** Every border cell of a node's box is on the grid and shows the border. */
  ghost predicate Framing(grid: Grid, pos: Position)
    reads grid.cells
  {
    forall x, y :: OnBorder(pos, x, y) ==> grid.On(x, y) && grid.cells[y, x] == BorderChar(pos, x, y)
  }

  /** RenderText, for any graph: refused past the limit, nothing for no nodes, else a grid
      on which the boxes of the layout do not touch and every box's border is whole.  If no
      AS stands twice, every label shows, and every other cell is blank exactly where no edge
      runs over it. */
  method RenderText(g: Graph)
    returns (r: Drawing, ghost positions: map<uint32, Position>, ghost frame: Frame, ghost top: nat, ghost slots: Slots)
    ensures r.Refused? <==> |g.nodes| > 100
    ensures r.Nothing? <==> g.nodes == []
    ensures r.Drawn? ==> fresh(r.grid) && fresh(r.grid.cells) && positions.Keys == ASNs(g.nodes)
    ensures r.Drawn? ==> LaidOut(g.nodes, positions, frame, top, slots)
    ensures r.Drawn? ==> Clear(positions, r.grid.cells.Length1, r.grid.cells.Length0)
    ensures r.Drawn? ==> AllFraming(r.grid, g.nodes, positions)
    ensures r.Drawn? && UniqueASNs(g.nodes) ==> AllFilled(r.grid, g, positions)
    ensures r.Drawn? ==> Background(r.grid, g, positions)
  {
    positions, frame, top, slots := map[], Frame(map[], map[], map[]), 0, map[];
    if |g.nodes| > MAX_NODES { r := Refused(|g.nodes|); return; }
    if g.nodes == [] { r := Nothing; return; }
    var layout;
    layout, frame, top, slots := ComputeLayout(g.nodes, TEXT_CONFIG);
    LayoutIsClear(frame, top, layout.positions, slots, layout.height);
    var grid := Draw(g, layout);
    r, positions := Drawn(grid), layout.positions;
  }

  /** The positions are those of the layered layout: columns by layer, rows by ASN. */
  ghost predicate LaidOut(nodes: seq<Node>, positions: map<uint32, Position>, frame: Frame, top: nat, slots: Slots) {
    && Arranged(nodes, frame.cols) && Framed(TEXT_CONFIG, frame, top)
    && exists height: nat :: Places(TEXT_CONFIG, frame, positions, slots, height)
  }

  /** The cells as the boxes and then the edges leave them. */
  ghost predicate DrawnAs(grid: Grid, g: Graph, positions: map<uint32, Position>)
    reads grid.cells
  {
    && (forall b :: b in BoxesOf(g.nodes, positions) ==> b.pos.width >= 2)
    && forall x, y :: grid.On(x, y) ==>
         grid.cells[y, x] == Traced(Painted(BoxesOf(g.nodes, positions), x, y), ArrowsOf(g.edges, positions), x, y)
  }

  method Draw(g: Graph, layout: Placement) returns (grid: Grid)
    requires Clear(layout.positions, layout.width, layout.height) && Sized(layout.positions)
    requires layout.positions.Keys == ASNs(g.nodes)
    ensures fresh(grid) && fresh(grid.cells) && Clear(layout.positions, grid.cells.Length1, grid.cells.Length0)
    ensures AllFraming(grid, g.nodes, layout.positions)
    ensures UniqueASNs(g.nodes) ==> AllFilled(grid, g, layout.positions)
    ensures Background(grid, g, layout.positions)
  {
    grid := new Grid(layout.width, layout.height);
    DrawBoxes(grid, g.nodes, layout.positions);
    DrawEdges(grid, g.edges, layout.positions);
    assert DrawnAs(grid, g, layout.positions);
    forall n | n in g.nodes ensures n.asn in layout.positions { ASNsHold(g.nodes, n.asn); }
    forall n | n in g.nodes ensures Framing(grid, layout.positions[n.asn]) {
      NodeIsFramed(grid, g, layout.positions, layout.width, layout.height, n);
    }
    if UniqueASNs(g.nodes) { NodesAreFilled(grid, g, layout.positions, layout.width, layout.height); }
    BackgroundIsEdges(grid, g, layout.positions);
  }

  lemma NodesAreFilled(grid: Grid, g: Graph, positions: map<uint32, Position>, width: nat, height: nat)
    requires DrawnAs(grid, g, positions) && Clear(positions, width, height) && Sized(positions)
    requires width <= grid.cells.Length1 && height <= grid.cells.Length0
    requires UniqueASNs(g.nodes) && forall n :: n in g.nodes ==> n.asn in positions
    ensures AllFilled(grid, g, positions)
  {
    forall n | n in g.nodes ensures FilledIn(grid, n, g.edges, positions) {
      var i :| 0 <= i < |g.nodes| && g.nodes[i] == n;
      forall x, y | InBox(positions[n.asn], x, y)
        ensures grid.On(x, y) && Shows(grid.cells[y, x], BoxChar(positions[n.asn], Label(n), x, y), g.edges, positions, x, y)
      {
        assert Inside(positions[n.asn], width, height);
        NodePainted(g.nodes, positions, width, height, i, x, y);
        TracedIff(BoxChar(positions[n.asn], Label(n), x, y), g.edges, positions, x, y);
      }
    }
  }

  lemma {:induction false} NothingPainted(nodes: seq<Node>, positions: map<uint32, Position>, x: int, y: int)
    requires forall b :: b in BoxesOf(nodes, positions) ==> b.pos.width >= 2
    requires forall n :: n in nodes && n.asn in positions ==> !InBox(positions[n.asn], x, y)
    ensures Painted(BoxesOf(nodes, positions), x, y) == ' '
  {
    if nodes != [] {
      var front, n := nodes[..|nodes| - 1], nodes[|nodes| - 1];
      assert nodes == front + [n];
      assert forall b :: b in BoxesOf(front, positions) ==> b in BoxesOf(nodes, positions);
      NothingPainted(front, positions, x, y);
      if n.asn in positions { PaintedNext(BoxesOf(front, positions), Box(positions[n.asn], Label(n)), x, y); }
    }
  }

  lemma BackgroundIsEdges(grid: Grid, g: Graph, positions: map<uint32, Position>)
    requires DrawnAs(grid, g, positions)
    ensures Background(grid, g, positions)
  {
    forall x, y | grid.On(x, y) && (forall n :: n in g.nodes && n.asn in positions ==> !InBox(positions[n.asn], x, y))
      ensures grid.cells[y, x] == ' ' <==> !Crossed(g.edges, positions, x, y)
    {
      NothingPainted(g.nodes, positions, x, y);
      TracedIff(' ', g.edges, positions, x, y);
    }
  }

  ghost predicate AllFraming(grid: Grid, nodes: seq<Node>, positions: map<uint32, Position>)
    reads grid.cells
  {
    forall n :: n in nodes ==> n.asn in positions && Framing(grid, positions[n.asn])
  }

  lemma NodeIsFramed(grid: Grid, g: Graph, positions: map<uint32, Position>, width: nat, height: nat, n: Node)
    requires Clear(positions, width, height) && Sized(positions) && n in g.nodes && n.asn in positions
    requires width <= grid.cells.Length1 && height <= grid.cells.Length0 && DrawnAs(grid, g, positions)
    ensures Framing(grid, positions[n.asn])
  {
    forall x, y | OnBorder(positions[n.asn], x, y)
      ensures grid.On(x, y) && grid.cells[y, x] == BorderChar(positions[n.asn], x, y)
    {
      assert Inside(positions[n.asn], width, height);
      NodeBorderShows(g.nodes, positions, width, height, ArrowsOf(g.edges, positions), n, x, y);
    }
  }
}
