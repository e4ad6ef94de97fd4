/** The AS topology graph of a set of AS paths. */
module AsGraph {
  import opened Collections
  import opened Wire
  import Sorting

  datatype Node = Node(asn: uint32, name: string, layer: nat)
  datatype Edge = Edge(from: uint32, to: uint32)
  datatype Graph = Graph(nodes: seq<Node>, edges: seq<Edge>)

  // ---------- prepending ----------

  /** A path with repeated neighbours collapsed. */
  function Collapse(path: seq<uint32>): (r: seq<uint32>)
    ensures path != [] ==> r != [] && r[|r| - 1] == path[|path| - 1]
    ensures path == [] ==> r == []
  {
    if |path| <= 1 then path
    else if path[|path| - 1] == path[|path| - 2] then Collapse(path[..|path| - 1])
    else Collapse(path[..|path| - 1]) + [path[|path| - 1]]
  }

  /** `a` stands right before `b`. */
  ghost predicate Linked(path: seq<uint32>, a: uint32, b: uint32) {
    exists i :: 0 <= i < |path| - 1 && path[i] == a && path[i + 1] == b
  }

  lemma LinkedAppend(path: seq<uint32>, x: uint32, a: uint32, b: uint32)
    requires path != []
    ensures Linked(path + [x], a, b) <==> Linked(path, a, b) || (path[|path| - 1] == a && x == b)
  {
    var longer := path + [x];
    if Linked(path, a, b) {
      var i :| 0 <= i < |path| - 1 && path[i] == a && path[i + 1] == b;
      assert longer[i] == a && longer[i + 1] == b;
    }
    if path[|path| - 1] == a && x == b {
      assert longer[|path| - 1] == a && longer[|path| - 1 + 1] == b;
    }
    if Linked(longer, a, b) {
      var i :| 0 <= i < |longer| - 1 && longer[i] == a && longer[i + 1] == b;
      assert i < |path| - 1 ==> path[i] == a && path[i + 1] == b;
    }
  }

  /** Collapsing drops exactly the links of an AS with itself. */
  lemma {:induction false} CollapseLinks(path: seq<uint32>, a: uint32, b: uint32)
    ensures Linked(Collapse(path), a, b) <==> a != b && Linked(path, a, b)
  {
    if |path| > 1 {
      var front, x := path[..|path| - 1], path[|path| - 1];
      CollapseLinks(front, a, b);
      assert path == front + [x];
      LinkedAppend(front, x, a, b);
      if front[|front| - 1] != x { LinkedAppend(Collapse(front), x, a, b); }
    }
  }

  /** Collapsing keeps the ASes of a path. */
  lemma {:induction false} CollapseMembers(path: seq<uint32>, a: uint32)
    ensures a in Collapse(path) <==> a in path
  {
    if |path| > 1 {
      var front := path[..|path| - 1];
      CollapseMembers(front, a);
      assert path == front + [path[|path| - 1]];
      assert path[|path| - 2] in front;
    }
  }

  method DeduplicateASPath(path: seq<uint32>) returns (r: seq<uint32>)
    ensures r == Collapse(path)
  {
    if path == [] { return []; }
    r := [path[0]];
    assert path[..1] == [path[0]];
    for i := 1 to |path|
      invariant r == Collapse(path[..i])
    {
      assert path[..i + 1][..i] == path[..i];
      if path[i] != path[i - 1] { r := r + [path[i]]; }
    }
    assert path[..|path|] == path;
  }

  // ---------- building the graph ----------

  /** `asn` stands `depth` hops from the origin on some path. */
  ghost predicate At(paths: seq<seq<uint32>>, asn: uint32, depth: nat) {
    exists p :: p in paths && AtDepth(Collapse(p), asn, depth)
  }

  predicate AtDepth(path: seq<uint32>, asn: uint32, depth: nat) {
    depth < |path| && path[|path| - 1 - depth] == asn
  }

  ghost predicate Adjacent(paths: seq<seq<uint32>>, a: uint32, b: uint32) {
    exists p :: p in paths && Linked(Collapse(p), a, b)
  }

  datatype Sketch = Sketch(nodes: set<uint32>, layers: map<uint32, nat>, edges: set<Edge>)

  /** The sketch holds the ASes of the paths, each at its greatest depth, and their links. */
  ghost predicate Sketches(s: Sketch, paths: seq<seq<uint32>>) {
    && (forall a, d: nat :: At(paths, a, d) ==> a in s.nodes && d <= Get(s.layers, a))
    && (forall a :: a in s.nodes ==> At(paths, a, Get(s.layers, a)))
    && s.layers.Keys <= s.nodes
    && forall e :: e in s.edges <==> Adjacent(paths, e.from, e.to)
  }

  /** One path added: its ASes, their depths where greater, and its links. */
  ghost predicate Adds(s: Sketch, path: seq<uint32>, r: Sketch) {
    && (forall a :: a in r.nodes <==> a in s.nodes || a in path)
    && (forall a :: Get(s.layers, a) <= Get(r.layers, a))
    && (forall a, d: nat :: AtDepth(path, a, d) ==> d <= Get(r.layers, a))
    && (forall a :: Get(r.layers, a) == Get(s.layers, a) || AtDepth(path, a, Get(r.layers, a)))
    && r.layers.Keys <= r.nodes
    && forall e :: e in r.edges <==> e in s.edges || Linked(path, e.from, e.to)
  }

  method AddNodes(s: Sketch, path: seq<uint32>) returns (nodes: set<uint32>, layers: map<uint32, nat>)
    requires s.layers.Keys <= s.nodes
    ensures forall a :: a in nodes <==> a in s.nodes || a in path
    ensures forall a :: Get(s.layers, a) <= Get(layers, a)
    ensures forall a, d: nat :: AtDepth(path, a, d) ==> d <= Get(layers, a)
    ensures forall a :: Get(layers, a) == Get(s.layers, a) || AtDepth(path, a, Get(layers, a))
    ensures layers.Keys <= nodes
  {
    nodes, layers := s.nodes, s.layers;
    for i := 0 to |path|
      invariant forall a :: a in nodes <==> a in s.nodes || a in path[..i]
      invariant forall a :: Get(s.layers, a) <= Get(layers, a)
      invariant forall j :: 0 <= j < i ==> |path| - 1 - j <= Get(layers, path[j])
      invariant forall a :: Get(layers, a) == Get(s.layers, a) || AtDepth(path, a, Get(layers, a))
      invariant layers.Keys <= nodes
    {
      assert path[..i + 1] == path[..i] + [path[i]];
      nodes := nodes + {path[i]};
      var layer := |path| - 1 - i;
      if layer > Get(layers, path[i]) { layers := layers[path[i] := layer]; }
    }
    forall a, d: nat | AtDepth(path, a, d) ensures d <= Get(layers, a) {
      assert |path| - 1 - (|path| - 1 - d) <= Get(layers, path[|path| - 1 - d]);
    }
    assert path[..|path|] == path;
  }

  method AddEdges(edges: set<Edge>, path: seq<uint32>) returns (r: set<Edge>)
    ensures forall e :: e in r <==> e in edges || Linked(path, e.from, e.to)
  {
    r := edges;
    if path == [] { return; }
    for i := 0 to |path| - 1
      invariant forall e :: e in r <==> e in edges || Linked(path[..i + 1], e.from, e.to)
    {
      assert path[..i + 2] == path[..i + 1] + [path[i + 1]];
      forall e: Edge
        ensures Linked(path[..i + 2], e.from, e.to) <==> Linked(path[..i + 1], e.from, e.to) || e == Edge(path[i], path[i + 1])
      {
        LinkedAppend(path[..i + 1], path[i + 1], e.from, e.to);
      }
      r := r + {Edge(path[i], path[i + 1])};
    }
    assert path[..|path|] == path;
  }

  lemma NodeAt(s: Sketch, paths: seq<seq<uint32>>, p: seq<uint32>, r: Sketch, a: uint32)
    requires Sketches(s, paths) && Adds(s, Collapse(p), r) && a in r.nodes
    ensures At(paths, a, Get(r.layers, a)) || AtDepth(Collapse(p), a, Get(r.layers, a))
  {
    if a !in s.nodes {
      assert Get(s.layers, a) == 0;
      var i :| 0 <= i < |Collapse(p)| && Collapse(p)[i] == a;
      assert AtDepth(Collapse(p), a, |Collapse(p)| - 1 - i);
    }
  }

  lemma AddsSketches(s: Sketch, paths: seq<seq<uint32>>, p: seq<uint32>, r: Sketch)
    requires Sketches(s, paths) && Adds(s, Collapse(p), r)
    ensures Sketches(r, paths + [p])
  {
    forall a, d: nat ensures At(paths + [p], a, d) <==> At(paths, a, d) || AtDepth(Collapse(p), a, d) {
      AtAppend(paths, p, a, d);
    }
    forall a, d: nat | At(paths + [p], a, d) ensures a in r.nodes && d <= Get(r.layers, a) {
      if AtDepth(Collapse(p), a, d) { assert a in Collapse(p); }
    }
    forall a | a in r.nodes ensures At(paths + [p], a, Get(r.layers, a)) { NodeAt(s, paths, p, r, a); }
    forall a, b ensures Adjacent(paths + [p], a, b) <==> Adjacent(paths, a, b) || Linked(Collapse(p), a, b) {
      AdjacentAppend(paths, p, a, b);
    }
  }

  lemma AtAppend(paths: seq<seq<uint32>>, p: seq<uint32>, a: uint32, d: nat)
    ensures At(paths + [p], a, d) <==> At(paths, a, d) || AtDepth(Collapse(p), a, d)
  {
    assert p in paths + [p];
    assert forall q :: q in paths ==> q in paths + [p];
  }

  lemma AdjacentAppend(paths: seq<seq<uint32>>, p: seq<uint32>, a: uint32, b: uint32)
    ensures Adjacent(paths + [p], a, b) <==> Adjacent(paths, a, b) || Linked(Collapse(p), a, b)
  {
    assert p in paths + [p];
    assert forall q :: q in paths ==> q in paths + [p];
  }

  method Gather(paths: seq<seq<uint32>>) returns (s: Sketch)
    ensures Sketches(s, paths)
  {
    s := Sketch({}, map[], {});
    for i := 0 to |paths|
      invariant Sketches(s, paths[..i])
    {
      var path := DeduplicateASPath(paths[i]);
      var r := s;
      if path != [] {
        var nodes, layers := AddNodes(s, path);
        var edges := AddEdges(s.edges, path);
        r := Sketch(nodes, layers, edges);
      }
      AddsSketches(s, paths[..i], paths[i], r);
      assert paths[..i + 1] == paths[..i] + [paths[i]];
      s := r;
    }
    assert paths[..|paths|] == paths;
  }

  // Higher layers first, then by ASN; edges by their ends.
  function NodeKey(n: Node): (int, int) {
    (-(n.layer as int), n.asn)
  }

  function EdgeKey(e: Edge): (int, int) {
    (e.from, e.to)
  }

  lemma DistinctAppend<T>(xs: seq<T>, x: T)
    requires Distinct(xs) && x !in xs
    ensures Distinct(xs + [x])
  {
  }

  lemma SortedDistinct<T>(xs: seq<T>, ys: seq<T>)
    requires Distinct(xs) && multiset(xs) == multiset(ys)
    ensures Distinct(ys)
  {
    forall i, j | 0 <= i < j < |ys| ensures ys[i] != ys[j] {
      if ys[i] == ys[j] {
        assert ys == ys[..i] + [ys[i]] + ys[i + 1..j] + [ys[j]] + ys[j + 1..];
        assert multiset(ys)[ys[i]] >= 2;
        OnceIn(xs, ys[i]);
      }
    }
  }

  lemma {:induction false} OnceIn<T>(xs: seq<T>, x: T)
    requires Distinct(xs)
    ensures multiset(xs)[x] <= 1
  {
    if xs != [] {
      var front := xs[..|xs| - 1];
      OnceIn(front, x);
      assert xs == front + [xs[|xs| - 1]];
      assert x == xs[|xs| - 1] ==> x !in front;
    }
  }

  method NodesOf(s: Sketch) returns (nodes: seq<Node>)
    ensures Distinct(nodes) && Sorting.Ordered(nodes, NodeKey)
    ensures forall n :: n in nodes <==> n.asn in s.nodes && n == Node(n.asn, "", Get(s.layers, n.asn))
  {
    var listed: seq<Node> := [];
    var todo := s.nodes;
    while todo != {}
      invariant todo <= s.nodes && Distinct(listed)
      invariant forall n :: n in listed <==> n.asn in s.nodes - todo && n == Node(n.asn, "", Get(s.layers, n.asn))
    {
      var asn :| asn in todo;
      DistinctAppend(listed, Node(asn, "", Get(s.layers, asn)));
      listed := listed + [Node(asn, "", Get(s.layers, asn))];
      todo := todo - {asn};
    }
    nodes := Sorting.Sort(listed, NodeKey);
    SortedDistinct(listed, nodes);
    Sorting.SameMembers(listed, nodes);
  }

  method EdgesOf(s: Sketch) returns (edges: seq<Edge>)
    ensures Distinct(edges) && Sorting.Ordered(edges, EdgeKey)
    ensures forall e :: e in edges <==> e in s.edges
  {
    var listed: seq<Edge> := [];
    var todo := s.edges;
    while todo != {}
      invariant todo <= s.edges && Distinct(listed)
      invariant forall e :: e in listed <==> e in s.edges - todo
    {
      var e :| e in todo;
      DistinctAppend(listed, e);
      listed := listed + [e];
      todo := todo - {e};
    }
    edges := Sorting.Sort(listed, EdgeKey);
    SortedDistinct(listed, edges);
    Sorting.SameMembers(listed, edges);
  }

  /** Each AS once, at its greatest distance from an origin. */
  ghost predicate NodesFit(nodes: seq<Node>, paths: seq<seq<uint32>>) {
    && (forall n :: n in nodes ==> At(paths, n.asn, n.layer) && n.name == "")
    && (forall n, d: nat :: n in nodes && At(paths, n.asn, d) ==> d <= n.layer)
    && (forall a :: OnPath(paths, a) ==> exists n :: n in nodes && n.asn == a)
    && UniqueASNs(nodes)
  }

  ghost predicate OnPath(paths: seq<seq<uint32>>, asn: uint32) {
    exists p :: p in paths && asn in p
  }

  /** An AS on a path stands somewhere on it. */
  lemma OnPathIsAt(paths: seq<seq<uint32>>, asn: uint32) returns (d: nat)
    requires OnPath(paths, asn)
    ensures At(paths, asn, d)
  {
    var p :| p in paths && asn in p;
    CollapseMembers(p, asn);
    var i :| 0 <= i < |Collapse(p)| && Collapse(p)[i] == asn;
    d := |Collapse(p)| - 1 - i;
    assert AtDepth(Collapse(p), asn, d);
  }

  lemma AtIsOnPath(paths: seq<seq<uint32>>, asn: uint32, d: nat)
    requires At(paths, asn, d)
    ensures OnPath(paths, asn)
  {
    var p :| p in paths && AtDepth(Collapse(p), asn, d);
    CollapseMembers(p, asn);
  }

  predicate UniqueASNs(nodes: seq<Node>) {
    forall i, j :: 0 <= i < j < |nodes| ==> nodes[i].asn != nodes[j].asn
  }

  ghost predicate EdgesFit(edges: seq<Edge>, paths: seq<seq<uint32>>) {
    forall e :: e in edges <==> e.from != e.to && exists p :: p in paths && Linked(p, e.from, e.to)
  }

  method BuildGraphFromPaths(paths: seq<seq<uint32>>) returns (g: Graph)
    ensures NodesFit(g.nodes, paths) && EdgesFit(g.edges, paths) && Distinct(g.edges)
    ensures forall i, j :: 0 <= i < j < |g.nodes| ==>
              g.nodes[i].layer > g.nodes[j].layer || (g.nodes[i].layer == g.nodes[j].layer && g.nodes[i].asn < g.nodes[j].asn)
    ensures forall i, j :: 0 <= i < j < |g.edges| ==>
              g.edges[i].from < g.edges[j].from || (g.edges[i].from == g.edges[j].from && g.edges[i].to < g.edges[j].to)
  {
    var s := Gather(paths);
    var nodes := NodesOf(s);
    var edges := EdgesOf(s);
    NodesAreFit(s, nodes, paths);
    EdgesAreFit(s, edges, paths);
    NodesInOrder(nodes, paths);
    EdgesInOrder(edges);
    g := Graph(nodes, edges);
  }

  lemma NodesInOrder(nodes: seq<Node>, paths: seq<seq<uint32>>)
    requires NodesFit(nodes, paths) && Sorting.Ordered(nodes, NodeKey)
    ensures forall i, j :: 0 <= i < j < |nodes| ==>
              nodes[i].layer > nodes[j].layer || (nodes[i].layer == nodes[j].layer && nodes[i].asn < nodes[j].asn)
  {
    forall i, j | 0 <= i < j < |nodes|
      ensures nodes[i].layer > nodes[j].layer || (nodes[i].layer == nodes[j].layer && nodes[i].asn < nodes[j].asn)
    {
      assert Sorting.Precedes(NodeKey(nodes[i]), NodeKey(nodes[j]));
    }
  }

  lemma EdgesInOrder(edges: seq<Edge>)
    requires Distinct(edges) && Sorting.Ordered(edges, EdgeKey)
    ensures forall i, j :: 0 <= i < j < |edges| ==>
              edges[i].from < edges[j].from || (edges[i].from == edges[j].from && edges[i].to < edges[j].to)
  {
    forall i, j | 0 <= i < j < |edges|
      ensures edges[i].from < edges[j].from || (edges[i].from == edges[j].from && edges[i].to < edges[j].to)
    {
      assert Sorting.Precedes(EdgeKey(edges[i]), EdgeKey(edges[j]));
    }
  }

  lemma NodesAreFit(s: Sketch, nodes: seq<Node>, paths: seq<seq<uint32>>)
    requires Sketches(s, paths) && Distinct(nodes)
    requires forall n :: n in nodes <==> n.asn in s.nodes && n == Node(n.asn, "", Get(s.layers, n.asn))
    ensures NodesFit(nodes, paths)
  {
    forall a | OnPath(paths, a) ensures exists n :: n in nodes && n.asn == a {
      var d := OnPathIsAt(paths, a);
      assert Node(a, "", Get(s.layers, a)) in nodes;
    }
    forall i, j | 0 <= i < j < |nodes| ensures nodes[i].asn != nodes[j].asn {
      assert nodes[i] in nodes && nodes[j] in nodes;
    }
  }

  lemma EdgesAreFit(s: Sketch, edges: seq<Edge>, paths: seq<seq<uint32>>)
    requires Sketches(s, paths) && forall e :: e in edges <==> e in s.edges
    ensures EdgesFit(edges, paths)
  {
    forall e: Edge ensures Adjacent(paths, e.from, e.to) <==> e.from != e.to && exists p :: p in paths && Linked(p, e.from, e.to) {
      forall p ensures Linked(Collapse(p), e.from, e.to) <==> e.from != e.to && Linked(p, e.from, e.to) {
        CollapseLinks(p, e.from, e.to);
      }
    }
  }

  lemma OtherNode(nodes: seq<Node>, m: Node, n: Node)
    requires UniqueASNs(nodes) && m in nodes && n in nodes && m != n
    ensures m.asn != n.asn
  {
    if m.asn == n.asn { SameNode(nodes, m, n); }
  }

  lemma SameNode(nodes: seq<Node>, m: Node, n: Node)
    requires UniqueASNs(nodes) && m in nodes && n in nodes && m.asn == n.asn
    ensures m == n
  {
    var i :| 0 <= i < |nodes| && nodes[i] == m;
    var j :| 0 <= j < |nodes| && nodes[j] == n;
    assert i == j;
  }

  /** The node of an AS stands at its greatest distance from an origin. */
  lemma DeepestLayer(nodes: seq<Node>, paths: seq<seq<uint32>>, n: Node, d: nat)
    requires NodesFit(nodes, paths) && n in nodes
    ensures At(paths, n.asn, n.layer) && n.name == ""
    ensures At(paths, n.asn, d) ==> d <= n.layer
  {}

  lemma HasNode(nodes: seq<Node>, paths: seq<seq<uint32>>, asn: uint32, d: nat) returns (n: Node)
    requires NodesFit(nodes, paths) && At(paths, asn, d)
    ensures n in nodes && n.asn == asn
  {
    AtIsOnPath(paths, asn, d);
    n :| n in nodes && n.asn == asn;
  }

  lemma HopIsNode(nodes: seq<Node>, paths: seq<seq<uint32>>, p: seq<uint32>, i: nat) returns (n: Node)
    requires NodesFit(nodes, paths) && p in paths && i < |Collapse(p)|
    ensures n in nodes && n.asn == Collapse(p)[i]
  {
    var asn := Collapse(p)[i];
    CollapseMembers(p, asn);
    assert OnPath(paths, asn);
    n :| n in nodes && n.asn == asn;
  }

  lemma EdgeHasHop(edges: seq<Edge>, paths: seq<seq<uint32>>, e: Edge) returns (p: seq<uint32>, i: nat)
    requires EdgesFit(edges, paths) && e in edges
    ensures p in paths && e.from != e.to && i < |Collapse(p)| - 1
    ensures Collapse(p)[i] == e.from && Collapse(p)[i + 1] == e.to
  {
    p :| p in paths && Linked(p, e.from, e.to);
    CollapseLinks(p, e.from, e.to);
    i :| 0 <= i < |Collapse(p)| - 1 && Collapse(p)[i] == e.from && Collapse(p)[i + 1] == e.to;
  }

  /** An edge joins two different nodes of its graph. */
  lemma EdgeEndsAreNodes(g: Graph, paths: seq<seq<uint32>>, e: Edge) returns (m: Node, n: Node)
    requires NodesFit(g.nodes, paths) && EdgesFit(g.edges, paths) && e in g.edges
    ensures m in g.nodes && n in g.nodes && m.asn == e.from && n.asn == e.to && e.from != e.to
  {
    var p, i := EdgeHasHop(g.edges, paths, e);
    m := HopIsNode(g.nodes, paths, p, i);
    n := HopIsNode(g.nodes, paths, p, i + 1);
  }
}
