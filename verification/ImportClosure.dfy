/** The Go files a kernel build depends on: the worklist over the import graph, which may
    be cyclic. */
module ImportClosure {
  import opened Collections
  /** Directories are paths below the repository root, as import paths name them. */
  datatype File = File(dir: string, name: string)

  datatype Entry = Entry(name: string, isDir: bool)

  /** The repository as the walk can see it: the module path its go.mod declares, if any,
      the directories that can be listed and the files whose imports can be parsed. */
  datatype Tree = Tree(goModule: Option<string>, listings: map<string, seq<Entry>>, imports: map<File, seq<string>>)

  predicate HasSuffix(s: string, suffix: string) {
    |s| >= |suffix| && s[|s| - |suffix|..] == suffix
  }

  predicate IsGo(name: string) {
    HasSuffix(name, ".go")
  }

  /** The directory of a package of this module, from its import path. */
  function InModule(goModule: string, path: string): Option<string> {
    var prefix := goModule + "/";
    if |path| >= |prefix| && path[..|prefix|] == prefix then Some(path[|prefix|..]) else None
  }

  predicate IsSource(e: Entry) {
    !e.isDir && IsGo(e.name) && !HasSuffix(e.name, "_test.go")
  }

  lemma SuffixIff(s: string, suffix: string)
    ensures HasSuffix(s, suffix) <==> exists stem :: s == stem + suffix
  {
    if HasSuffix(s, suffix) { assert s == s[..|s| - |suffix|] + suffix; }
  }

  /** A source file is a file, named something.go and not something_test.go. */
  lemma SourceIff(e: Entry)
    ensures IsSource(e) <==>
            !e.isDir && (exists stem :: e.name == stem + ".go") && !(exists stem :: e.name == stem + "_test.go")
  {
    SuffixIff(e.name, ".go");
    SuffixIff(e.name, "_test.go");
  }

  /** A path names a directory of the module when it is the module's path, a slash and the directory. */
  lemma InModuleIff(goModule: string, path: string, dir: string)
    ensures InModule(goModule, path) == Some(dir) <==> path == goModule + "/" + dir
  {
    var prefix := goModule + "/";
    if path == prefix + dir { assert path[..|prefix|] == prefix && path[|prefix|..] == dir; }
    if |path| >= |prefix| { assert path == path[..|prefix|] + path[|prefix|..]; }
  }

  /** The non-test Go files of a listing, in order. */
  function Sources(dir: string, entries: seq<Entry>): (files: seq<File>)
    ensures forall f :: f in files <==> f.dir == dir && exists e :: e in entries && IsSource(e) && f == File(dir, e.name)
  {
    if entries == [] then [] else
      var before, e := Sources(dir, entries[..|entries| - 1]), entries[|entries| - 1];
      if IsSource(e) then before + [File(dir, e.name)] else before
  }

  function SourcesOf(t: Tree, dir: string): seq<File> {
    if dir in t.listings then Sources(dir, t.listings[dir]) else []
  }

  /** The files of several directories, one after the other. */
  function AllSources(t: Tree, dirs: seq<string>): seq<File> {
    if dirs == [] then [] else AllSources(t, dirs[..|dirs| - 1]) + SourcesOf(t, dirs[|dirs| - 1])
  }

  // ---------- what the answer should be ----------

  /** A file that is read imports a package of the module. */
  predicate Imports(t: Tree, f: File, dir: string) {
    && IsGo(f.name) && f in t.imports && t.goModule.Some?
    && exists path :: path in t.imports[f] && InModule(t.goModule.value, path) == Some(dir)
  }

  /** A chain of imports: the first package by a seed, each next one by a source file of
      the package before; none of them the one to skip. */
  predicate IsChain(t: Tree, seeds: seq<File>, skip: string, chain: seq<string>) {
    && chain != [] && chain[|chain| - 1] != skip
    && if |chain| == 1 then exists f :: f in seeds && Imports(t, f, chain[0])
       else Follows(t, chain[|chain| - 2], chain[|chain| - 1]) && IsChain(t, seeds, skip, chain[..|chain| - 1])
  }

  predicate Follows(t: Tree, from: string, to: string) {
    exists f :: f in SourcesOf(t, from) && Imports(t, f, to)
  }

  ghost predicate Reachable(t: Tree, seeds: seq<File>, skip: string, dir: string) {
    exists chain :: IsChain(t, seeds, skip, chain) && chain[|chain| - 1] == dir
  }

  /** Something the walk has to read cannot be read. */
  ghost predicate Broken(t: Tree, seeds: seq<File>, skip: string) {
    || t.goModule.None?
    || (exists f :: f in seeds && IsGo(f.name) && f !in t.imports)
    || Unreadable(t, seeds, skip)
  }

  predicate Readable(t: Tree, dir: string) {
    dir in t.listings && forall f :: f in SourcesOf(t, dir) ==> f in t.imports
  }

  lemma SeedReaches(t: Tree, seeds: seq<File>, skip: string, f: File, dir: string)
    requires f in seeds && Imports(t, f, dir) && dir != skip
    ensures Reachable(t, seeds, skip, dir)
  {
    assert IsChain(t, seeds, skip, [dir]) && [dir][0] == dir;
  }

  lemma SourceReaches(t: Tree, seeds: seq<File>, skip: string, from: string, f: File, dir: string)
    requires Reachable(t, seeds, skip, from) && f in SourcesOf(t, from) && Imports(t, f, dir) && dir != skip
    ensures Reachable(t, seeds, skip, dir)
  {
    var chain :| IsChain(t, seeds, skip, chain) && chain[|chain| - 1] == from;
    var longer := chain + [dir];
    assert Follows(t, from, dir);
    assert longer[..|chain|] == chain;
    assert IsChain(t, seeds, skip, longer) && longer[|longer| - 1] == dir;
  }

  /** A set of directories holding what the seeds and its own files import, the skipped
      one aside, holds everything reachable. */
  lemma {:induction false} ClosedHoldsChain(t: Tree, seeds: seq<File>, skip: string, dirs: seq<string>, chain: seq<string>)
    requires forall f, d :: (f in seeds || f in AllSources(t, dirs)) && Imports(t, f, d) && d != skip ==> d in dirs
    requires IsChain(t, seeds, skip, chain)
    ensures chain[|chain| - 1] in dirs
    decreases |chain|
  {
    var k := |chain| - 1;
    assert chain[k] != skip;
    if k > 0 {
      ClosedHoldsChain(t, seeds, skip, dirs, chain[..k]);
      var f :| f in SourcesOf(t, chain[k - 1]) && Imports(t, f, chain[k]);
      SourceListed(t, dirs, chain[k - 1], f);
    }
  }

  lemma {:induction false} SourceListed(t: Tree, dirs: seq<string>, dir: string, f: File)
    requires dir in dirs && f in SourcesOf(t, dir)
    ensures f in AllSources(t, dirs)
  {
    if dir in dirs[..|dirs| - 1] { SourceListed(t, dirs[..|dirs| - 1], dir, f); }
  }

  lemma {:induction false} ListedHasDir(t: Tree, dirs: seq<string>, f: File) returns (dir: string)
    requires f in AllSources(t, dirs)
    ensures dir in dirs && f in SourcesOf(t, dir)
  {
    if f in SourcesOf(t, dirs[|dirs| - 1]) {
      dir := dirs[|dirs| - 1];
    } else {
      dir := ListedHasDir(t, dirs[..|dirs| - 1], f);
    }
  }

  lemma AllSourcesAppend(t: Tree, dirs: seq<string>, dir: string)
    ensures AllSources(t, dirs + [dir]) == AllSources(t, dirs) + SourcesOf(t, dir)
  {
    assert (dirs + [dir])[..|dirs|] == dirs;
  }

  // ---------- the walk ----------

  /** Where the walk stands: `dirs` were opened, in this order. */
  ghost predicate Walked(t: Tree, seeds: seq<File>, skip: string, dirs: seq<string>, files: seq<File>) {
    && Distinct(dirs) && skip !in dirs && files == AllSources(t, dirs)
    && forall d :: d in dirs ==> Reachable(t, seeds, skip, d) && d in t.listings
  }

  /** A file of the queue or a seed is behind the walk: if Go, it parsed, and what it
      imports was opened. */
  ghost predicate Settled(t: Tree, skip: string, dirs: seq<string>, f: File) {
    IsGo(f.name) ==> f in t.imports && forall d :: Imports(t, f, d) ==> d == skip || d in dirs
  }

  lemma SettledStays(t: Tree, skip: string, dirs: seq<string>, more: seq<string>, f: File)
    requires Settled(t, skip, dirs, f) && forall d :: d in dirs ==> d in more
    ensures Settled(t, skip, more, f)
  {
  }

  /** What a file already accepted imports is reachable. */
  lemma ImportReaches(t: Tree, seeds: seq<File>, skip: string, dirs: seq<string>, files: seq<File>, f: File, dir: string)
    requires Walked(t, seeds, skip, dirs, files) && (f in seeds || f in files) && Imports(t, f, dir) && dir != skip
    ensures Reachable(t, seeds, skip, dir)
  {
    if f in seeds {
      SeedReaches(t, seeds, skip, f, dir);
    } else {
      var from := ListedHasDir(t, dirs, f);
      SourceReaches(t, seeds, skip, from, f, dir);
    }
  }

  lemma OpenWalked(t: Tree, seeds: seq<File>, skip: string, dirs: seq<string>, files: seq<File>, dir: string)
    requires Walked(t, seeds, skip, dirs, files) && dir !in dirs && dir != skip
    requires Reachable(t, seeds, skip, dir) && dir in t.listings
    ensures Walked(t, seeds, skip, dirs + [dir], files + SourcesOf(t, dir))
  {
    AllSourcesAppend(t, dirs, dir);
  }

  method ListSources(dir: string, entries: seq<Entry>) returns (files: seq<File>)
    ensures files == Sources(dir, entries)
  {
    files := [];
    for i := 0 to |entries|
      invariant files == Sources(dir, entries[..i])
    {
      assert entries[..i + 1][..i] == entries[..i];
      if IsSource(entries[i]) { files := files + [File(dir, entries[i].name)]; }
    }
    assert entries[..|entries|] == entries;
  }

  datatype Walk = Walk(files: seq<File>, queue: seq<File>, seen: set<string>)

  /** New files join the answer and the queue alike. */
  predicate Grows(w: Walk, r: Walk) {
    w.files <= r.files && r.queue == w.queue + r.files[|w.files|..]
  }

  lemma GrowsOn(w: Walk, r: Walk, q: Walk)
    requires Grows(w, r) && Grows(r, q)
    ensures Grows(w, q)
  {
    assert q.files[|w.files|..] == r.files[|w.files|..] + q.files[|r.files|..];
  }

  ghost predicate At(t: Tree, seeds: seq<File>, skip: string, dirs: seq<string>, w: Walk) {
    Walked(t, seeds, skip, dirs, w.files) && forall d :: d in w.seen <==> d == skip || d in dirs
  }

  /** From one point of the walk to a later one. */
  ghost predicate Onward(t: Tree, dirs: seq<string>, w: Walk, reached: seq<string>, r: Walk) {
    && dirs <= reached && Grows(w, r)
    && w.seen <= r.seen && r.seen - w.seen <= t.listings.Keys && (r.seen == w.seen ==> r == w)
  }

  lemma OnwardOn(t: Tree, a: seq<string>, w: Walk, b: seq<string>, r: Walk, c: seq<string>, q: Walk)
    requires Onward(t, a, w, b, r) && Onward(t, b, r, c, q)
    ensures Onward(t, a, w, c, q)
  {
    GrowsOn(w, r, q);
  }

  /** Something reachable that cannot be read. */
  ghost predicate Unreadable(t: Tree, seeds: seq<File>, skip: string) {
    exists dir :: Reachable(t, seeds, skip, dir) && !Readable(t, dir)
  }

  /** Opens the package of one import, unless it lies outside the module or was seen. */
  method OpenImport(t: Tree, seeds: seq<File>, skip: string, ghost dirs: seq<string>, w: Walk, f: File, path: string)
    returns (r: Walk, ok: bool, ghost reached: seq<string>)
    requires t.goModule.Some? && At(t, seeds, skip, dirs, w)
    requires (f in seeds || f in w.files) && IsGo(f.name) && f in t.imports && path in t.imports[f]
    ensures !ok ==> Unreadable(t, seeds, skip)
    ensures ok ==> At(t, seeds, skip, reached, r) && Onward(t, dirs, w, reached, r)
    ensures ok ==> Visited(t, skip, reached, path)
  {
    r, ok, reached := w, true, dirs;
    var dir := InModule(t.goModule.value, path);
    if dir.None? || dir.value in w.seen { return; }
    assert Imports(t, f, dir.value);
    ImportReaches(t, seeds, skip, dirs, w.files, f, dir.value);
    if dir.value !in t.listings {
      ok := false;
      return;
    }
    var more := ListSources(dir.value, t.listings[dir.value]);
    OpenWalked(t, seeds, skip, dirs, w.files, dir.value);
    reached := dirs + [dir.value];
    r := Walk(w.files + more, w.queue + more, w.seen + {dir.value});
  }

  /** Opens what one file imports. */
  method OpenImports(t: Tree, seeds: seq<File>, skip: string, ghost dirs: seq<string>, w: Walk, f: File)
    returns (r: Walk, ok: bool, ghost reached: seq<string>)
    requires t.goModule.Some? && At(t, seeds, skip, dirs, w)
    requires (f in seeds || f in w.files) && IsGo(f.name) && f in t.imports
    ensures !ok ==> Unreadable(t, seeds, skip)
    ensures ok ==> At(t, seeds, skip, reached, r) && Onward(t, dirs, w, reached, r) && Settled(t, skip, reached, f)
  {
    r, ok, reached := w, true, dirs;
    var paths := t.imports[f];
    for i := 0 to |paths|
      invariant ok && At(t, seeds, skip, reached, r) && Onward(t, dirs, w, reached, r)
      invariant AllVisited(t, skip, reached, paths[..i])
    {
      ghost var before, was := r, reached;
      r, ok, reached := OpenImport(t, seeds, skip, reached, r, f, paths[i]);
      if !ok { return; }
      OnwardOn(t, dirs, w, was, before, reached, r);
      VisitedNext(t, skip, was, reached, paths, i);
    }
    assert paths[..|paths|] == paths;
    VisitedIsSettled(t, skip, reached, f);
  }

  ghost predicate Visited(t: Tree, skip: string, dirs: seq<string>, path: string) {
    t.goModule.Some? && var dir := InModule(t.goModule.value, path);
    dir.Some? ==> dir.value == skip || dir.value in dirs
  }

  ghost predicate AllVisited(t: Tree, skip: string, dirs: seq<string>, paths: seq<string>) {
    forall path :: path in paths ==> Visited(t, skip, dirs, path)
  }

  lemma VisitedNext(t: Tree, skip: string, dirs: seq<string>, more: seq<string>, paths: seq<string>, i: nat)
    requires i < |paths| && dirs <= more && AllVisited(t, skip, dirs, paths[..i]) && Visited(t, skip, more, paths[i])
    ensures AllVisited(t, skip, more, paths[..i + 1])
  {
    assert paths[..i + 1] == paths[..i] + [paths[i]];
  }

  lemma VisitedIsSettled(t: Tree, skip: string, dirs: seq<string>, f: File)
    requires f in t.imports && AllVisited(t, skip, dirs, t.imports[f])
    ensures Settled(t, skip, dirs, f)
  {
  }

  lemma FileBroken(t: Tree, seeds: seq<File>, skip: string, dirs: seq<string>, files: seq<File>, f: File)
    requires Walked(t, seeds, skip, dirs, files) && (f in seeds || f in files) && IsGo(f.name) && f !in t.imports
    ensures Broken(t, seeds, skip)
  {
    if f !in seeds {
      var from := ListedHasDir(t, dirs, f);
      assert !Readable(t, from);
    }
  }

  /** When everything accepted is settled, the walk opened exactly what is reachable and
      nothing was unreadable. */
  lemma AllSettled(t: Tree, seeds: seq<File>, skip: string, dirs: seq<string>, files: seq<File>)
    requires t.goModule.Some? && Walked(t, seeds, skip, dirs, files)
    requires AllSettledIn(t, skip, dirs, seeds + files)
    ensures forall d :: d in dirs <==> Reachable(t, seeds, skip, d)
    ensures !Broken(t, seeds, skip)
  {
    assert forall f :: f in seeds || f in files ==> f in seeds + files;
    forall d | Reachable(t, seeds, skip, d) ensures d in dirs {
      var chain :| IsChain(t, seeds, skip, chain) && chain[|chain| - 1] == d;
      ClosedHoldsChain(t, seeds, skip, dirs, chain);
    }
    forall d | d in dirs ensures Readable(t, d) {
      forall f | f in SourcesOf(t, d) ensures f in t.imports { SourceListed(t, dirs, d, f); }
    }
  }

  /** zeImportClosure: it ends whatever cycles the imports form, fails exactly when
      something it has to read cannot be read, and otherwise lists the source files of
      exactly the packages reachable from the seeds, each package once, never the skipped
      one. */
  method ZeImportClosure(t: Tree, seeds: seq<File>, skip: string)
    returns (files: seq<File>, ok: bool, ghost dirs: seq<string>)
    ensures ok <==> !Broken(t, seeds, skip)
    ensures ok ==> files == AllSources(t, dirs) && Distinct(dirs) && skip !in dirs
    ensures ok ==> forall d :: d in dirs <==> Reachable(t, seeds, skip, d)
    ensures !ok ==> files == []
  {
    dirs := [];
    if t.goModule.None? { return [], false, []; }
    var w := Walk([], seeds, {skip});
    ghost var done: seq<File> := [];
    Begins(seeds, w);
    while w.queue != []
      invariant At(t, seeds, skip, dirs, w) && Queued(seeds, done, w) && AllSettledIn(t, skip, dirs, done)
      decreases |t.listings.Keys - w.seen|, |w.queue|
    {
      Accepted(seeds, done, w);
      ghost var before, was := w, dirs;
      w, ok, dirs := Expand(t, seeds, skip, dirs, w);
      if !ok { return [], false, []; }
      TurnEnds(t, skip, seeds, was, before, dirs, w, done);
      done := done + [before.queue[0]];
    }
    Ends(seeds, done, w);
    AllSettled(t, seeds, skip, dirs, w.files);
    files, ok := w.files, true;
  }

  /** One turn: the file at the head of the queue. */
  method Expand(t: Tree, seeds: seq<File>, skip: string, ghost dirs: seq<string>, w: Walk)
    returns (r: Walk, ok: bool, ghost reached: seq<string>)
    requires t.goModule.Some? && At(t, seeds, skip, dirs, w)
    requires w.queue != [] && (w.queue[0] in seeds || w.queue[0] in w.files)
    ensures !ok ==> Broken(t, seeds, skip)
    ensures ok ==> At(t, seeds, skip, reached, r) && Settled(t, skip, reached, w.queue[0])
    ensures ok ==> Onward(t, dirs, w.(queue := w.queue[1..]), reached, r)
  {
    var f := w.queue[0];
    r, ok, reached := w.(queue := w.queue[1..]), true, dirs;
    if IsGo(f.name) {
      if f !in t.imports {
        FileBroken(t, seeds, skip, dirs, w.files, f);
        ok := false;
        return;
      }
      r, ok, reached := OpenImports(t, seeds, skip, dirs, r, f);
    }
  }

  ghost predicate AllSettledIn(t: Tree, skip: string, dirs: seq<string>, files: seq<File>) {
    forall f :: f in files ==> Settled(t, skip, dirs, f)
  }

  /** What was handled and what is queued are the seeds, then the files found. */
  ghost predicate Queued(seeds: seq<File>, done: seq<File>, w: Walk) {
    done + w.queue == seeds + w.files
  }

  lemma Begins(seeds: seq<File>, w: Walk)
    requires w.queue == seeds && w.files == []
    ensures Queued(seeds, [], w)
  {
  }

  lemma Ends(seeds: seq<File>, done: seq<File>, w: Walk)
    requires Queued(seeds, done, w) && w.queue == []
    ensures done == seeds + w.files
  {
    assert done + w.queue == done;
  }

  lemma Accepted(seeds: seq<File>, done: seq<File>, w: Walk)
    requires Queued(seeds, done, w) && w.queue != []
    ensures w.queue[0] in seeds || w.queue[0] in w.files
  {
    assert (done + w.queue)[|done|] == w.queue[0];
  }

  lemma TurnEnds(
    t: Tree, skip: string, seeds: seq<File>, dirs: seq<string>, w: Walk, reached: seq<string>, r: Walk, done: seq<File>)
    requires w.queue != [] && Queued(seeds, done, w) && AllSettledIn(t, skip, dirs, done)
    requires Onward(t, dirs, w.(queue := w.queue[1..]), reached, r) && Settled(t, skip, reached, w.queue[0])
    ensures Queued(seeds, done + [w.queue[0]], r) && AllSettledIn(t, skip, reached, done + [w.queue[0]])
    ensures |t.listings.Keys - r.seen| < |t.listings.Keys - w.seen|
         || (|t.listings.Keys - r.seen| == |t.listings.Keys - w.seen| && |r.queue| < |w.queue|)
  {
    Shrinks(t.listings.Keys, w.seen, r.seen);
    Moves(seeds, done, w, r);
    AllStay(t, skip, dirs, reached, done);
  }

  lemma AllStay(t: Tree, skip: string, dirs: seq<string>, more: seq<string>, done: seq<File>)
    requires dirs <= more && AllSettledIn(t, skip, dirs, done)
    ensures AllSettledIn(t, skip, more, done)
  {
    forall f | f in done ensures Settled(t, skip, more, f) { SettledStays(t, skip, dirs, more, f); }
  }

  lemma Shrinks(all: set<string>, seen: set<string>, more: set<string>)
    requires seen <= more && more - seen <= all
    ensures seen != more ==> |all - more| < |all - seen|
    ensures seen == more ==> |all - more| == |all - seen|
  {
    if seen != more {
      var x :| x in more && x !in seen;
      SubsetSize(all - more, all - seen - {x});
    }
  }

  lemma Moves(seeds: seq<File>, done: seq<File>, w: Walk, next: Walk)
    requires w.queue != [] && Grows(w.(queue := w.queue[1..]), next)
    requires done + w.queue == seeds + w.files
    ensures done + [w.queue[0]] + next.queue == seeds + next.files
  {
    var more := next.files[|w.files|..];
    assert w.queue == [w.queue[0]] + w.queue[1..];
    assert next.files == w.files + more;
    assert done + [w.queue[0]] + next.queue == (done + w.queue) + more;
  }
}
