/** The reversed AS_PATH trie: its nodes are the distinct suffixes of the paths
    inserted, each with the number of paths that end in it. */
module PathTrie {
  import opened Collections
  import opened Sums

  type ASN = nat
  type Path = seq<ASN>

  predicate EndsIn(p: Path, s: Path) {
    |s| <= |p| && p[|p| - |s|..] == s
  }

  /** How many of the paths end in `s`. */
  function Ending(paths: seq<Path>, s: Path): nat {
    if paths == [] then 0
    else Ending(paths[..|paths| - 1], s) + if EndsIn(paths[|paths| - 1], s) then 1 else 0
  }

  function TotalLength(paths: seq<Path>): nat {
    if paths == [] then 0 else TotalLength(paths[..|paths| - 1]) + |paths[|paths| - 1]|
  }

  datatype Node = Node(children: map<ASN, nat>, count: nat)

  /** The history of a node: the suffix it stands for, and the node it hangs from. */
  datatype Origin = Origin(suffix: Path, parent: nat)

  /** The links follow the labels, in both directions, and children come later. */
  ghost predicate Linked(nodes: seq<Node>, origins: seq<Origin>) {
    && |origins| == |nodes| > 0 && origins[0].suffix == []
    && (forall i, j :: 0 <= i < j < |origins| ==> origins[i].suffix != origins[j].suffix)
    && (forall i, a :: 0 <= i < |nodes| && a in nodes[i].children ==> Leads(nodes, origins, i, a))
    && (forall c :: 0 < c < |nodes| ==> Hangs(nodes, origins, c))
  }

  predicate Leads(nodes: seq<Node>, origins: seq<Origin>, i: nat, a: ASN)
    requires i < |nodes| == |origins| && a in nodes[i].children
  {
    var c := nodes[i].children[a];
    i < c < |nodes| && origins[c].suffix == [a] + origins[i].suffix
  }

  ghost predicate Hangs(nodes: seq<Node>, origins: seq<Origin>, c: nat)
    requires 0 < c < |nodes| == |origins|
  {
    var o := origins[c];
    && o.suffix != [] && o.parent < c && origins[o.parent].suffix == o.suffix[1..]
    && o.suffix[0] in nodes[o.parent].children && nodes[o.parent].children[o.suffix[0]] == c
  }

  /** A suffix with no child for it is new. */
  lemma NewLabel(nodes: seq<Node>, origins: seq<Origin>, node: nat, asn: ASN, c: nat)
    requires Linked(nodes, origins) && node < |nodes| && c < |nodes| && asn !in nodes[node].children
    ensures origins[c].suffix != [asn] + origins[node].suffix
  {
    assert ([asn] + origins[node].suffix)[1..] == origins[node].suffix;
    if c > 0 { assert Hangs(nodes, origins, c); }
  }

  function AddChild(nodes: seq<Node>, node: nat, asn: ASN): seq<Node>
    requires node < |nodes|
  {
    var n := nodes[node];
    nodes[node := n.(children := n.children[asn := |nodes|])] + [Node(map[], 0)]
  }

  lemma AddChildLinked(nodes: seq<Node>, origins: seq<Origin>, node: nat, asn: ASN)
    requires Linked(nodes, origins) && node < |nodes| && asn !in nodes[node].children
    ensures Linked(AddChild(nodes, node, asn), origins + [Origin([asn] + origins[node].suffix, node)])
  {
    var nodes', origins' := AddChild(nodes, node, asn), origins + [Origin([asn] + origins[node].suffix, node)];
    forall c | 0 <= c < |nodes| ensures origins'[c].suffix != origins'[|nodes|].suffix { NewLabel(nodes, origins, node, asn, c); }
    forall i, a | 0 <= i < |nodes'| && a in nodes'[i].children ensures Leads(nodes', origins', i, a) {
      if i < |nodes| && a in nodes[i].children { assert Leads(nodes, origins, i, a); }
    }
    forall c | 0 < c < |nodes'| ensures Hangs(nodes', origins', c) {
      if c < |nodes| { assert Hangs(nodes, origins, c); }
      else { assert ([asn] + origins[node].suffix)[1..] == origins[node].suffix; }
    }
  }

  /** A trieNode is its number in `nodes`, the root being number 0; `paths` is what was inserted. */
  class Trie {
    var nodes: seq<Node>
    ghost var origins: seq<Origin>
    ghost var paths: seq<Path>

    ghost predicate Valid()
      reads this
    {
      Holds(nodes, origins, paths)
    }

    constructor ()
      ensures Valid() && paths == [] && |nodes| == 1
    {
      nodes, origins, paths := [Node(map[], 0)], [Origin([], 0)], [];
    }

    /** The child of `node` for `asn`, made if it is not there. */
    method Child(node: nat, asn: ASN) returns (child: nat)
      requires Linked(nodes, origins) && node < |nodes|
      modifies `nodes, `origins
      ensures Linked(nodes, origins) && old(|nodes|) <= |nodes| <= old(|nodes|) + 1
      ensures origins[..old(|nodes|)] == old(origins) && 0 < child < |nodes|
      ensures origins[child].suffix == [asn] + origins[node].suffix
      ensures forall i :: 0 <= i < old(|nodes|) ==> nodes[i].count == old(nodes[i].count)
      ensures |nodes| > old(|nodes|) ==> child == old(|nodes|) && nodes[child].count == 0
    {
      if asn in nodes[node].children {
        child := nodes[node].children[asn];
        assert Leads(nodes, origins, node, asn);
        return;
      }
      AddChildLinked(nodes, origins, node, asn);
      child := |nodes|;
      var n := nodes[node];
      nodes := nodes[node := n.(children := n.children[asn := child])] + [Node(map[], 0)];
      origins := origins + [Origin([asn] + origins[node].suffix, node)];
    }

    method InsertReversed(p: Path)
      requires Valid()
      modifies this
      ensures Valid() && paths == old(paths) + [p]
    {
      var node: nat := 0;
      var j := |p|;
      while j > 0
        invariant 0 <= j <= |p| && paths == old(paths)
        invariant Linked(nodes, origins) && node < |nodes| && origins[node].suffix == p[j..]
        invariant old(origins) <= origins && |nodes| <= old(|nodes|) + |p| - j
        invariant Counted(nodes, origins, paths, p, |p| - j)
        invariant forall i :: j <= i < |p| ==> Labelled(origins, p[i..])
      {
        j := j - 1;
        ghost var was := origins;
        LabelsKept(old(origins), origins, paths);
        node := Visit(p, j, node);
        forall i | j < i < |p| ensures Labelled(origins, p[i..]) { LabelKept(was, origins, p[i..]); }
      }
      LabelsKept(old(origins), origins, paths);
      forall i | 0 < i < |nodes| ensures nodes[i].count == Ending(paths + [p], origins[i].suffix) {
        EndingAppend(paths, p, origins[i].suffix);
      }
      assert (paths + [p])[..|paths|] == paths;
      paths := paths + [p];
    }

    /** One turn of the loop: from the node of p[j + 1..] to the node of p[j..], counted. */
    method Visit(p: Path, j: nat, node: nat) returns (child: nat)
      requires j < |p| && Linked(nodes, origins) && node < |nodes| && origins[node].suffix == p[j + 1..]
      requires Counted(nodes, origins, paths, p, |p| - j - 1)
      requires forall q, i :: q in paths && 0 <= i < |q| ==> Labelled(origins, q[i..])
      modifies `nodes, `origins
      ensures Linked(nodes, origins) && child < |nodes| && origins[child].suffix == p[j..]
      ensures old(origins) <= origins && |nodes| <= old(|nodes|) + 1
      ensures Counted(nodes, origins, paths, p, |p| - j)
    {
      child := Child(node, p[j]);
      assert [p[j]] + p[j + 1..] == p[j..];
      if |nodes| > old(|nodes|) { NeverSeen(old(origins), origins, paths, p[j..]); }
      BumpCounts(nodes, origins, paths, p, j, child);
      CountHere(child);
    }

    method CountHere(child: nat)
      requires Linked(nodes, origins) && child < |nodes|
      modifies `nodes
      ensures Linked(nodes, origins)
      ensures nodes == old(nodes[child := nodes[child].(count := nodes[child].count + 1)])
    {
      CountLinked(nodes, origins, child);
      nodes := nodes[child := nodes[child].(count := nodes[child].count + 1)];
    }

    /** countTrieNodes: one for each child, and whatever is below it. */
    method CountTrieNodes(node: nat) returns (total: nat)
      requires Linked(nodes, origins) && node < |nodes|
      ensures total == |Below(origins, node)|
      decreases |nodes| - node
    {
      total := 0;
      var todo := nodes[node].children.Keys;
      while todo != {}
        invariant todo <= nodes[node].children.Keys
        invariant total == |Through(origins, node, nodes[node].children.Keys - todo)|
        decreases todo
      {
        var a :| a in todo;
        var child := nodes[node].children[a];
        assert Leads(nodes, origins, node, a);
        var below := CountTrieNodes(child);
        ThroughOneMore(nodes, origins, node, a, todo);
        total := total + 1 + below;
        todo := todo - {a};
      }
      assert nodes[node].children.Keys - {} == nodes[node].children.Keys;
      ThroughAll(nodes, origins, node);
    }

    /** trieDepthStats: each child counts at this depth, and passes the table on. */
    method TrieDepthStats(node: nat, depth: nat, stats: map<nat, nat>) returns (r: map<nat, nat>)
      requires Linked(nodes, origins) && node < |nodes| && depth == |origins[node].suffix|
      ensures Tallied(origins, stats, r, Below(origins, node))
      decreases |nodes| - node
    {
      r := stats;
      var todo, keys := nodes[node].children.Keys, nodes[node].children.Keys;
      assert Through(origins, node, keys - todo) == {};
      NothingTallied(origins, stats);
      while todo != {}
        invariant todo <= keys && Tallied(origins, stats, r, Through(origins, node, keys - todo))
        decreases todo
      {
        var a :| a in todo;
        assert Leads(nodes, origins, node, a);
        ghost var before := r;
        r := r[depth := Get(r, depth) + 1];
        r := TrieDepthStats(nodes[node].children[a], depth + 1, r);
        TallyChild(nodes, origins, node, a, todo, stats, before, r);
        todo := todo - {a};
      }
      assert keys - {} == keys;
      ThroughAll(nodes, origins, node);
    }
  }

  /** What aspathAnalyzeRoute keeps beside the trie. */
  class PathAnalysis {
    const trie: Trie
    var totalPaths: nat
    var totalASNs: nat
    var lengthDist: map<nat, nat>

    ghost predicate Valid()
      reads this, trie
    {
      && trie.Valid() && totalPaths == |trie.paths|
      && totalASNs == TotalLength(trie.paths) && lengthDist == LengthsOf(trie.paths)
    }

    constructor ()
      ensures Valid() && fresh(trie) && trie.paths == []
    {
      trie := new Trie();
      totalPaths, totalASNs, lengthDist := 0, 0, map[];
    }

    /** One decoded AS_PATH; an empty one is not counted. */
    method AddPath(p: Path)
      requires Valid()
      modifies this, trie
      ensures Valid() && trie.paths == if p == [] then old(trie.paths) else old(trie.paths) + [p]
    {
      if p == [] { return; }
      totalPaths := totalPaths + 1;
      totalASNs := totalASNs + |p|;
      LengthsAppend(trie.paths, p);
      lengthDist := lengthDist[|p| := Get(lengthDist, |p|) + 1];
      TotalLengthAppend(trie.paths, p);
      trie.InsertReversed(p);
    }

    /** The numbers of naive storage, summed over the length table, against the nodes:
        the difference that is reported never wraps below zero. */
    method NodeCounts() returns (nodes: nat)
      requires Valid()
      ensures nodes <= Sum(lengthDist, LengthTimes)
      ensures nodes == |trie.nodes| - 1
    {
      NodesAtMostNumbers(trie.nodes, trie.origins, trie.paths);
      LengthTable(trie.paths);
      nodes := trie.CountTrieNodes(0);
    }
  }

  function LengthTimes(length: nat, count: nat): int {
    length * count
  }

  /** The table of path lengths. */
  function LengthsOf(paths: seq<Path>): map<nat, nat> {
    if paths == [] then map[]
    else
      var before, n := LengthsOf(paths[..|paths| - 1]), |paths[|paths| - 1]|;
      before[n := Get(before, n) + 1]
  }

  lemma LengthsAppend(paths: seq<Path>, p: Path)
    ensures LengthsOf(paths + [p]) == LengthsOf(paths)[|p| := Get(LengthsOf(paths), |p|) + 1]
  {
    assert (paths + [p])[..|paths|] == paths;
  }

  /** How many of the paths have the length. */
  function PathsOfLength(paths: seq<Path>, n: nat): nat {
    if paths == [] then 0 else PathsOfLength(paths[..|paths| - 1], n) + if |paths[|paths| - 1]| == n then 1 else 0
  }

  /** The table says for every length how many paths have it, and sums up to their AS numbers. */
  lemma {:induction false} LengthTable(paths: seq<Path>)
    ensures forall n :: Get(LengthsOf(paths), n) == PathsOfLength(paths, n)
    ensures Sum(LengthsOf(paths), LengthTimes) == TotalLength(paths)
  {
    if paths != [] {
      LengthTable(paths[..|paths| - 1]);
      CountLength(LengthsOf(paths[..|paths| - 1]), |paths[|paths| - 1]|);
    }
  }

  lemma CountLength(m: map<nat, nat>, length: nat)
    ensures Sum(m[length := Get(m, length) + 1], LengthTimes) == Sum(m, LengthTimes) + length
  {
    SumChange<nat, nat>(m, LengthTimes, length, Get(m, length) + 1);
    OneMoreTime(length, Get(m, length));
  }

  lemma OneMoreTime(length: nat, count: nat)
    ensures LengthTimes(length, count + 1) == LengthTimes(length, count) + length && LengthTimes(length, 0) == 0
  {
    assert length * (count + 1) == length * count + length;
  }

  lemma TotalLengthAppend(paths: seq<Path>, p: Path)
    ensures TotalLength(paths + [p]) == TotalLength(paths) + |p|
  {
    assert (paths + [p])[..|paths|] == paths;
  }

  /** A trie of exactly the non-empty suffixes of the paths, counted. */
  ghost predicate Holds(nodes: seq<Node>, origins: seq<Origin>, paths: seq<Path>) {
    && Linked(nodes, origins)
    && (forall i :: 0 < i < |nodes| ==> nodes[i].count == Ending(paths, origins[i].suffix) > 0)
    && (forall p, j :: p in paths && 0 <= j < |p| ==> Labelled(origins, p[j..]))
    && |nodes| <= 1 + TotalLength(paths)
  }

  ghost predicate Labelled(origins: seq<Origin>, s: Path) {
    exists i :: 0 <= i < |origins| && origins[i].suffix == s
  }

  lemma LabelKept(before: seq<Origin>, after: seq<Origin>, s: Path)
    requires before <= after && Labelled(before, s)
    ensures Labelled(after, s)
  {
    var i :| 0 <= i < |before| && before[i].suffix == s;
    assert after[i].suffix == s;
  }

  lemma LabelsKept(before: seq<Origin>, after: seq<Origin>, paths: seq<Path>)
    requires before <= after && forall p, j :: p in paths && 0 <= j < |p| ==> Labelled(before, p[j..])
    ensures forall p, j :: p in paths && 0 <= j < |p| ==> Labelled(after, p[j..])
  {
    forall p, j | p in paths && 0 <= j < |p| ensures Labelled(after, p[j..]) { LabelKept(before, after, p[j..]); }
  }

  /** A suffix that had to be given a node ends no path inserted so far. */
  lemma NeverSeen(before: seq<Origin>, after: seq<Origin>, paths: seq<Path>, s: Path)
    requires |after| == |before| + 1 && before <= after && after[|before|].suffix == s != []
    requires forall i, j :: 0 <= i < j < |after| ==> after[i].suffix != after[j].suffix
    requires forall p, j :: p in paths && 0 <= j < |p| ==> Labelled(before, p[j..])
    ensures Ending(paths, s) == 0
  {
    SomeEnds(paths, s);
    forall p | p in paths ensures !EndsIn(p, s) {
      assert |s| <= |p| ==> Labelled(before, p[|p| - |s|..]);
    }
  }

  /** The count of a node with the last `n` numbers of `p` inserted on top of `paths`. */
  function CountOf(paths: seq<Path>, p: Path, n: nat, s: Path): nat {
    Ending(paths, s) + if EndsIn(p, s) && |s| <= n then 1 else 0
  }

  ghost predicate Counted(nodes: seq<Node>, origins: seq<Origin>, paths: seq<Path>, p: Path, n: nat) {
    |origins| == |nodes| &&
    forall i :: 0 < i < |nodes| ==> nodes[i].count == CountOf(paths, p, n, origins[i].suffix) > 0
  }

  lemma BumpCounts(nodes: seq<Node>, origins: seq<Origin>, paths: seq<Path>, p: Path, j: nat, child: nat)
    requires Linked(nodes, origins) && j < |p| && child < |nodes| && origins[child].suffix == p[j..]
    requires forall i :: 0 < i < |nodes| ==> nodes[i].count == CountOf(paths, p, |p| - j - 1, origins[i].suffix)
    requires forall i :: 0 < i < |nodes| && i != child ==> nodes[i].count > 0
    ensures Counted(nodes[child := nodes[child].(count := nodes[child].count + 1)], origins, paths, p, |p| - j)
  {
    OnlyThisNode(nodes, origins, p, j, child);
  }

  lemma OnlyThisNode(nodes: seq<Node>, origins: seq<Origin>, p: Path, j: nat, child: nat)
    requires Linked(nodes, origins) && j < |p| && child < |nodes| && origins[child].suffix == p[j..]
    ensures forall i :: 0 <= i < |nodes| ==>
              (EndsIn(p, origins[i].suffix) && |origins[i].suffix| == |p| - j <==> i == child)
  {
    forall i | 0 <= i < |nodes| ensures EndsIn(p, origins[i].suffix) && |origins[i].suffix| == |p| - j <==> i == child {
      assert origins[i].suffix == origins[child].suffix ==> i == child;
    }
  }

  lemma CountLinked(nodes: seq<Node>, origins: seq<Origin>, child: nat)
    requires Linked(nodes, origins) && child < |nodes|
    ensures Linked(nodes[child := nodes[child].(count := nodes[child].count + 1)], origins)
  {
    var nodes' := nodes[child := nodes[child].(count := nodes[child].count + 1)];
    forall i, a | 0 <= i < |nodes'| && a in nodes'[i].children ensures Leads(nodes', origins, i, a) {
      assert Leads(nodes, origins, i, a);
    }
    forall c | 0 < c < |nodes'| ensures Hangs(nodes', origins, c) { assert Hangs(nodes, origins, c); }
  }

  // ---------- counting ----------

  lemma EndingAppend(paths: seq<Path>, p: Path, s: Path)
    ensures Ending(paths + [p], s) == Ending(paths, s) + if EndsIn(p, s) then 1 else 0
  {
    assert (paths + [p])[..|paths|] == paths;
  }

  lemma {:induction false} SomeEnds(paths: seq<Path>, s: Path)
    ensures Ending(paths, s) > 0 <==> exists p :: p in paths && EndsIn(p, s)
  {
    if paths != [] {
      var before, last := paths[..|paths| - 1], paths[|paths| - 1];
      SomeEnds(before, s);
      assert forall p :: p in paths <==> p in before || p == last;
    }
  }

  // ---------- what the trie holds ----------

  /** Some node stands for `s` with this count. */
  ghost predicate Shows(nodes: seq<Node>, origins: seq<Origin>, s: Path, count: nat) {
    exists i :: 0 < i < |nodes| && i < |origins| && origins[i].suffix == s && nodes[i].count == count
  }

  /** The nodes below the root are one to one with the distinct non-empty suffixes
      of the paths, and each counts the paths that end in its suffix. */
  lemma NodesAreSuffixes(nodes: seq<Node>, origins: seq<Origin>, paths: seq<Path>, s: Path)
    requires Holds(nodes, origins, paths) && s != []
    ensures Ending(paths, s) > 0 ==> Shows(nodes, origins, s, Ending(paths, s))
    ensures forall count :: Shows(nodes, origins, s, count) ==> count == Ending(paths, s) > 0
    ensures forall i, j :: 0 <= i < j < |origins| ==> origins[i].suffix != origins[j].suffix
  {
    SomeEnds(paths, s);
    if Ending(paths, s) > 0 {
      var p :| p in paths && EndsIn(p, s);
      assert Labelled(origins, p[|p| - |s|..]);
      var i :| 0 <= i < |origins| && origins[i].suffix == s;
      assert nodes[i].count == Ending(paths, s);
    }
  }

  lemma {:induction false} EndingInserted(front: seq<Path>, p: Path, back: seq<Path>, s: Path)
    ensures Ending(front + [p] + back, s) == Ending(front + back, s) + if EndsIn(p, s) then 1 else 0
    decreases |back|
  {
    if back == [] {
      assert front + [p] + back == front + [p] && front + back == front;
      EndingAppend(front, p, s);
    } else {
      var init, last := back[..|back| - 1], back[|back| - 1];
      EndingInserted(front, p, init, s);
      assert front + [p] + back == front + [p] + init + [last] && front + back == front + init + [last];
      EndingAppend(front + [p] + init, last, s);
      EndingAppend(front + init, last, s);
    }
  }

  lemma {:induction false} EndingAnyOrder(a: seq<Path>, b: seq<Path>, s: Path)
    requires multiset(a) == multiset(b)
    ensures Ending(a, s) == Ending(b, s)
    decreases |a|
  {
    if a == [] {
      NothingLeft(b);
    } else {
      var front, back := TakeOut(a, b);
      EndingAnyOrder(a[..|a| - 1], front + back, s);
      EndingInserted(front, a[|a| - 1], back, s);
    }
  }

  /** Two tries of the same paths, inserted in any order, show the same suffixes with the same counts. */
  lemma OrderDoesNotMatter(nodes: seq<Node>, origins: seq<Origin>, paths: seq<Path>,
                           nodes': seq<Node>, origins': seq<Origin>, paths': seq<Path>, s: Path, count: nat)
    requires Holds(nodes, origins, paths) && Holds(nodes', origins', paths') && multiset(paths) == multiset(paths')
    ensures s != [] ==> (Shows(nodes, origins, s, count) <==> Shows(nodes', origins', s, count))
  {
    if s != [] {
      EndingAnyOrder(paths, paths', s);
      NodesAreSuffixes(nodes, origins, paths, s);
      NodesAreSuffixes(nodes', origins', paths', s);
    }
  }

  // ---------- walking the trie ----------

  predicate Under(s: Path, base: Path) {
    |s| > |base| && EndsIn(s, base)
  }

  /** The nodes below a node. */
  ghost function Below(origins: seq<Origin>, node: nat): set<nat>
    requires node < |origins|
  {
    set i: nat | i < |origins| && Under(origins[i].suffix, origins[node].suffix)
  }

  /** The number that leads from `base` towards `s`. */
  function Next(s: Path, base: Path): ASN
    requires Under(s, base)
  {
    s[|s| - |base| - 1]
  }

  /** The nodes below a node whose way down starts with one of `done`. */
  ghost function Through(origins: seq<Origin>, node: nat, done: set<ASN>): set<nat>
    requires node < |origins|
  {
    set i: nat | i in Below(origins, node) && Next(origins[i].suffix, origins[node].suffix) in done
  }

  lemma NextStep(s: Path, base: Path, a: ASN)
    ensures Under(s, base) && Next(s, base) == a <==> s == [a] + base || Under(s, [a] + base)
  {
    var longer := [a] + base;
    if Under(s, base) && Next(s, base) == a { assert s[|s| - |longer|..] == [a] + s[|s| - |base|..]; }
    if EndsIn(s, longer) { assert s[|s| - |base|..] == s[|s| - |longer|..][1..]; }
  }

  /** One child more: the child itself and everything below it. */
  lemma ThroughSplits(nodes: seq<Node>, origins: seq<Origin>, node: nat, a: ASN, done: set<ASN>)
    requires Linked(nodes, origins) && node < |nodes| && a in nodes[node].children && a !in done
    requires nodes[node].children[a] < |origins|
    ensures var child := nodes[node].children[a];
            var before, below := Through(origins, node, done), Below(origins, child);
            && Through(origins, node, done + {a}) == before + ({child} + below)
            && child !in before && child !in below && before !! below
  {
    var child := nodes[node].children[a];
    assert Leads(nodes, origins, node, a);
    var before, after, below := Through(origins, node, done), Through(origins, node, done + {a}), Below(origins, child);
    forall i: nat | i < |origins|
      ensures i in after <==> i in before || i == child || i in below
      ensures i in before ==> i != child && i !in below
    {
      NextStep(origins[i].suffix, origins[node].suffix, a);
    }
  }

  lemma ThroughOneMore(nodes: seq<Node>, origins: seq<Origin>, node: nat, a: ASN, todo: set<ASN>)
    requires Linked(nodes, origins) && node < |nodes| && a in nodes[node].children && a in todo
    requires nodes[node].children[a] < |origins|
    ensures var child, keys := nodes[node].children[a], nodes[node].children.Keys;
            |Through(origins, node, keys - (todo - {a}))| ==
            |Through(origins, node, keys - todo)| + 1 + |Below(origins, child)|
  {
    var keys := nodes[node].children.Keys;
    assert keys - (todo - {a}) == keys - todo + {a};
    ThroughSplits(nodes, origins, node, a, keys - todo);
  }

  /** Every suffix of a node's suffix has a node above it. */
  lemma {:induction false} Ancestor(nodes: seq<Node>, origins: seq<Origin>, i: nat, n: nat) returns (c: nat)
    requires Linked(nodes, origins) && i < |nodes| && n <= |origins[i].suffix|
    ensures c < |nodes| && |origins[c].suffix| == n && EndsIn(origins[i].suffix, origins[c].suffix)
  {
    c := i;
    if n < |origins[i].suffix| {
      assert Hangs(nodes, origins, i);
      c := Ancestor(nodes, origins, origins[i].parent, n);
    }
  }

  lemma ThroughAll(nodes: seq<Node>, origins: seq<Origin>, node: nat)
    requires Linked(nodes, origins) && node < |nodes|
    ensures Through(origins, node, nodes[node].children.Keys) == Below(origins, node)
  {
    forall i | i in Below(origins, node) ensures Next(origins[i].suffix, origins[node].suffix) in nodes[node].children {
      var s, base := origins[i].suffix, origins[node].suffix;
      var c := Ancestor(nodes, origins, i, |base| + 1);
      assert Hangs(nodes, origins, c);
      assert origins[c].suffix == s[|s| - |base| - 1..];
      assert origins[c].suffix[1..] == s[|s| - |base|..] == base;
    }
  }

  /** The trie never holds more nodes than the numbers inserted, so the saving reported
      against storing every path in full is never negative. */
  lemma NodesAtMostNumbers(nodes: seq<Node>, origins: seq<Origin>, paths: seq<Path>)
    requires Holds(nodes, origins, paths)
    ensures |Below(origins, 0)| == |nodes| - 1 <= TotalLength(paths)
  {
    forall i: nat | i < |origins| ensures i in Below(origins, 0) <==> i > 0 {
      if i > 0 { assert Hangs(nodes, origins, i); }
    }
    assert Below(origins, 0) == FromOne(|origins|);
  }

  ghost function FromOne(n: nat): (r: set<nat>)
    requires n > 0
    ensures |r| == n - 1 && forall i: nat :: i in r <==> 0 < i < n
  {
    if n == 1 then {} else FromOne(n - 1) + {n - 1}
  }

  // ---------- depth ----------

  ghost function OfLength(origins: seq<Origin>, ids: set<nat>, n: nat): set<nat> {
    set i | i in ids && i < |origins| && |origins[i].suffix| == n
  }

  ghost function DepthCount(origins: seq<Origin>, ids: set<nat>, d: nat): nat {
    |OfLength(origins, ids, d + 1)|
  }

  /** Table `r` is table `stats` with the nodes `ids` counted at their depths. */
  ghost predicate Tallied(origins: seq<Origin>, stats: map<nat, nat>, r: map<nat, nat>, ids: set<nat>) {
    forall d: nat :: Get(r, d) == Get(stats, d) + DepthCount(origins, ids, d)
  }

  lemma NothingTallied(origins: seq<Origin>, stats: map<nat, nat>)
    ensures Tallied(origins, stats, stats, {})
  {
    forall d: nat ensures DepthCount(origins, {}, d) == 0 { assert OfLength(origins, {}, d + 1) == {}; }
  }

  lemma TallyChild(nodes: seq<Node>, origins: seq<Origin>, node: nat, a: ASN, todo: set<ASN>,
                   stats: map<nat, nat>, before: map<nat, nat>, after: map<nat, nat>)
    requires Linked(nodes, origins) && node < |nodes| && a in nodes[node].children && a in todo
    requires nodes[node].children[a] < |origins|
    requires Tallied(origins, stats, before, Through(origins, node, nodes[node].children.Keys - todo))
    requires var depth := |origins[node].suffix|;
             Tallied(origins, before[depth := Get(before, depth) + 1], after, Below(origins, nodes[node].children[a]))
    ensures Tallied(origins, stats, after, Through(origins, node, nodes[node].children.Keys - (todo - {a})))
  {
    var keys, child := nodes[node].children.Keys, nodes[node].children[a];
    assert Leads(nodes, origins, node, a);
    assert keys - (todo - {a}) == keys - todo + {a};
    ThroughSplits(nodes, origins, node, a, keys - todo);
    TallyMore(origins, stats, before, after, Through(origins, node, keys - todo), child, Below(origins, child));
  }

  lemma TallyMore(origins: seq<Origin>, stats: map<nat, nat>, before: map<nat, nat>, after: map<nat, nat>,
                  done: set<nat>, child: nat, below: set<nat>)
    requires child < |origins| && origins[child].suffix != [] && child !in done && child !in below && done !! below
    requires Tallied(origins, stats, before, done)
    requires var depth := |origins[child].suffix| - 1;
             Tallied(origins, before[depth := Get(before, depth) + 1], after, below)
    ensures Tallied(origins, stats, after, done + ({child} + below))
  {
    forall d: nat ensures Get(after, d) == Get(stats, d) + DepthCount(origins, done + ({child} + below), d) {
      SplitLengths(origins, done, child, below, d + 1);
      assert Get(before, d) == Get(stats, d) + DepthCount(origins, done, d);
    }
  }

  lemma SplitLengths(origins: seq<Origin>, before: set<nat>, child: nat, below: set<nat>, n: nat)
    requires child < |origins| && child !in before && child !in below && before !! below
    ensures |OfLength(origins, before + ({child} + below), n)| ==
            |OfLength(origins, before, n)| + (if n == |origins[child].suffix| then 1 else 0) + |OfLength(origins, below, n)|
  {
    var one := if n == |origins[child].suffix| then {child} else {};
    assert OfLength(origins, before + ({child} + below), n) ==
           OfLength(origins, before, n) + (one + OfLength(origins, below, n));
  }

  /** The distinct suffixes of length n. */
  ghost function Suffixes(paths: seq<Path>, n: nat): set<Path> {
    set p | p in paths && |p| >= n :: p[|p| - n..]
  }

  lemma SuffixesOneMore(origins: seq<Origin>, ids: set<nat>, x: nat)
    requires x < |origins| && x !in ids
    requires forall i, j :: 0 <= i < j < |origins| ==> origins[i].suffix != origins[j].suffix
    ensures SuffixesOf(origins, ids + {x}) == SuffixesOf(origins, ids) + {origins[x].suffix}
    ensures origins[x].suffix !in SuffixesOf(origins, ids)
  {}

  lemma {:induction false} AsManySuffixes(origins: seq<Origin>, ids: set<nat>)
    requires forall i :: i in ids ==> i < |origins|
    requires forall i, j :: 0 <= i < j < |origins| ==> origins[i].suffix != origins[j].suffix
    ensures |SuffixesOf(origins, ids)| == |ids|
  {
    if ids != {} {
      var x :| x in ids;
      AsManySuffixes(origins, ids - {x});
      SuffixesOneMore(origins, ids - {x}, x);
      assert ids - {x} + {x} == ids;
    }
  }

  ghost function SuffixesOf(origins: seq<Origin>, ids: set<nat>): set<Path> {
    set i | i in ids && i < |origins| :: origins[i].suffix
  }

  lemma NodeEndsPath(nodes: seq<Node>, origins: seq<Origin>, paths: seq<Path>, i: nat)
    requires Holds(nodes, origins, paths) && 0 < i < |nodes|
    ensures origins[i].suffix in Suffixes(paths, |origins[i].suffix|)
  {
    var s := origins[i].suffix;
    SomeEnds(paths, s);
    var p :| p in paths && EndsIn(p, s);
  }

  lemma SuffixHasNode(nodes: seq<Node>, origins: seq<Origin>, paths: seq<Path>, s: Path, n: nat) returns (i: nat)
    requires Holds(nodes, origins, paths) && n > 0 && s in Suffixes(paths, n)
    ensures i < |origins| && origins[i].suffix == s && |s| == n
  {
    var p :| p in paths && |p| >= n && p[|p| - n..] == s;
    assert Labelled(origins, p[|p| - n..]);
    i :| 0 <= i < |origins| && origins[i].suffix == s;
  }

  /** The nodes at depth d are one to one with the distinct suffixes of length d + 1. */
  lemma DepthIsSuffixLength(nodes: seq<Node>, origins: seq<Origin>, paths: seq<Path>, d: nat)
    requires Holds(nodes, origins, paths)
    ensures DepthCount(origins, Below(origins, 0), d) == |Suffixes(paths, d + 1)|
  {
    AsManySuffixes(origins, OfLength(origins, Below(origins, 0), d + 1));
    SuffixesAtDepth(nodes, origins, paths, d);
  }

  lemma SuffixesAtDepth(nodes: seq<Node>, origins: seq<Origin>, paths: seq<Path>, d: nat)
    requires Holds(nodes, origins, paths)
    ensures SuffixesOf(origins, OfLength(origins, Below(origins, 0), d + 1)) == Suffixes(paths, d + 1)
  {
    var ids := OfLength(origins, Below(origins, 0), d + 1);
    forall s | s in SuffixesOf(origins, ids) ensures s in Suffixes(paths, d + 1) {
      var i :| i in ids && origins[i].suffix == s;
      NodeEndsPath(nodes, origins, paths, i);
    }
    forall s | s in Suffixes(paths, d + 1) ensures s in SuffixesOf(origins, ids) {
      var i := SuffixHasNode(nodes, origins, paths, s, d + 1);
      assert i in ids;
    }
  }
}
