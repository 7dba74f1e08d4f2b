/** buildFileTreeRecursive and ListOrgFiles over directory listings: a
    listing is an `FsEntry` sequence standing for what os.ReadDir returns. */
module TreeBuild {
  import opened Bytes
  import opened FileTree
  import opened FilePath
  import opened Sorting


  /** One entry of os.ReadDir: a file, or a directory with its own listing,
      or with the error reading it gives (`failure`, the listing then
      unused). */
  datatype FsEntry = File(name: Bytes) | Dir(name: Bytes, failure: Option<Bytes>, listing: seq<FsEntry>)

  predicate Hidden(name: Bytes) { HasPrefix(name, [DOT]) }

  /** The tree builder's test for org files: case-insensitive. */
  predicate IsOrgName(name: Bytes) { HasSuffix(ToLower(name), ORG) }

  /** An entry the tree shows: not hidden, and an org file or a readable
      directory with something to show inside. */
  predicate Shows(e: FsEntry)
    decreases e
  {
    !Hidden(e.name)
    && match e
       case File(n) => IsOrgName(n)
       case Dir(_, failure, l) => failure.None? && ContainsOrg(l)
  }

  predicate ContainsOrg(listing: seq<FsEntry>)
    decreases listing
  {
    listing != [] && (Shows(listing[0]) || ContainsOrg(listing[1..]))
  }

  /** The directories the tree keeps, in listing order. */
  function KeptDirs(listing: seq<FsEntry>): seq<FsEntry> {
    if listing == [] then []
    else (if listing[0].Dir? && Shows(listing[0]) then [listing[0]] else []) + KeptDirs(listing[1..])
  }

  /** The files the tree keeps, in listing order. */
  function KeptFiles(listing: seq<FsEntry>): seq<FsEntry> {
    if listing == [] then []
    else (if listing[0].File? && Shows(listing[0]) then [listing[0]] else []) + KeptFiles(listing[1..])
  }

  /** Something shows iff something is kept. */
  lemma {:induction false} ContainsOrgKept(listing: seq<FsEntry>)
    ensures ContainsOrg(listing) <==> |KeptDirs(listing)| + |KeptFiles(listing)| > 0
  {
    if listing != [] {
      ContainsOrgKept(listing[1..]);
    }
  }

  function FsNames(es: seq<FsEntry>): (ns: seq<Bytes>)
    ensures |ns| == |es|
  {
    seq(|es|, i requires 0 <= i < |es| => es[i].name)
  }

  // The tree the builder makes, as a value.

  /** An entry with everything under it: its fields, whether its parent
      links are in place (every child's parent is this entry, and the chain
      of parents ends), and its children. */
  datatype Tree = Tree(name: Bytes, path: Bytes, relPath: Bytes, isDir: bool, expanded: bool,
                       orgFile: Option<OrgFile>, linked: bool, children: seq<Tree>)

  /** The sort key of the tree builder: the lower-cased name. */
  function Key(e: FileEntry): Bytes { ToLower(e.name) }

  function TreeKey(t: Tree): Bytes { ToLower(t.name) }

  function TreeNames(ts: seq<Tree>): (ns: seq<Bytes>)
    ensures |ns| == |ts|
  {
    seq(|ts|, i requires 0 <= i < |ts| => ts[i].name)
  }

  /** hasOrgFiles, on values. */
  predicate AnyOrgTree(ts: seq<Tree>) {
    exists i :: 0 <= i < |ts| && (!ts[i].isDir || |ts[i].children| > 0)
  }

  /** buildFileTreeRecursive on a readable listing, as values: the kept
      directories, then the kept files, each group sorted by key. */
  function BuildTrees(dir: Bytes, relDir: Bytes, listing: seq<FsEntry>): seq<Tree>
    decreases listing, 2
  {
    SortBy(TreeKey, DirTrees(dir, relDir, listing)) + SortBy(TreeKey, FileTrees(dir, relDir, listing))
  }

  /** The directories of the listing the builder keeps, in listing order. */
  function DirTrees(dir: Bytes, relDir: Bytes, listing: seq<FsEntry>): seq<Tree>
    decreases listing, 1
  {
    if listing == [] then [] else DirTree(dir, relDir, listing[0]) + DirTrees(dir, relDir, listing[1..])
  }

  /** One directory of a listing: kept when it is not hidden, it can be read
      and hasOrgFiles holds of what was built from it. */
  function DirTree(dir: Bytes, relDir: Bytes, e: FsEntry): seq<Tree>
    decreases e, 0
  {
    if e.Dir? && !Hidden(e.name) && e.failure.None? then
      var kids := BuildTrees(PathJoin(dir, e.name), PathJoin(relDir, e.name), e.listing);
      if AnyOrgTree(kids) then [Tree(e.name, PathJoin(dir, e.name), PathJoin(relDir, e.name), true, false, None, true, kids)]
      else []
    else []
  }

  /** The org files of the listing the builder keeps, in listing order. */
  function FileTrees(dir: Bytes, relDir: Bytes, listing: seq<FsEntry>): seq<Tree> {
    if listing == [] then [] else FileLeaf(dir, relDir, listing[0]) + FileTrees(dir, relDir, listing[1..])
  }

  function FileLeaf(dir: Bytes, relDir: Bytes, e: FsEntry): seq<Tree> {
    if e.File? && !Hidden(e.name) && IsOrgName(e.name) then
      [Tree(e.name, PathJoin(dir, e.name), PathJoin(relDir, e.name), false, false, None, true, [])]
    else []
  }

  lemma TreeNamesAppend(a: seq<Tree>, b: seq<Tree>)
    ensures TreeNames(a + b) == TreeNames(a) + TreeNames(b)
  {
    assert forall i :: 0 <= i < |a + b| ==> TreeNames(a + b)[i] == (TreeNames(a) + TreeNames(b))[i];
  }

  lemma FsNamesAppend(a: seq<FsEntry>, b: seq<FsEntry>)
    ensures FsNames(a + b) == FsNames(a) + FsNames(b)
  {
    assert forall i :: 0 <= i < |a + b| ==> FsNames(a + b)[i] == (FsNames(a) + FsNames(b))[i];
  }

  /** The kept files are exactly the shown files of the listing, by name and
      in order, each an unexpanded, unparsed leaf. */
  lemma {:induction false} FileTreesKept(dir: Bytes, relDir: Bytes, listing: seq<FsEntry>)
    ensures TreeNames(FileTrees(dir, relDir, listing)) == FsNames(KeptFiles(listing))
    ensures forall t :: t in FileTrees(dir, relDir, listing) ==> !t.isDir && t.children == []
  {
    if listing != [] {
      FileTreesKept(dir, relDir, listing[1..]);
      TreeNamesAppend(FileLeaf(dir, relDir, listing[0]), FileTrees(dir, relDir, listing[1..]));
      FsNamesAppend(if listing[0].File? && Shows(listing[0]) then [listing[0]] else [], KeptFiles(listing[1..]));
    }
  }

  /** The kept directories are exactly the shown directories of the
      listing, by name and in order, each with children. */
  lemma {:induction false} DirTreesKept(dir: Bytes, relDir: Bytes, listing: seq<FsEntry>)
    ensures TreeNames(DirTrees(dir, relDir, listing)) == FsNames(KeptDirs(listing))
    ensures forall t :: t in DirTrees(dir, relDir, listing) ==> t.isDir && t.children != []
    decreases listing, 1
  {
    if listing != [] {
      var e := listing[0];
      if e.Dir? && !Hidden(e.name) && e.failure.None? {
        BuildTreesAny(PathJoin(dir, e.name), PathJoin(relDir, e.name), e.listing);
      }
      DirTreeKept(dir, relDir, e);
      DirTreesKept(dir, relDir, listing[1..]);
      KeptGlue(DirTree(dir, relDir, e), DirTrees(dir, relDir, listing[1..]), DirTrees(dir, relDir, listing),
               if e.Dir? && Shows(e) then [e] else [], KeptDirs(listing[1..]), KeptDirs(listing));
    }
  }

  /** One entry's directory tree: kept exactly when the entry shows. */
  lemma DirTreeKept(dir: Bytes, relDir: Bytes, e: FsEntry)
    requires e.Dir? && !Hidden(e.name) && e.failure.None? ==>
               (AnyOrgTree(BuildTrees(PathJoin(dir, e.name), PathJoin(relDir, e.name), e.listing)) <==> ContainsOrg(e.listing))
    ensures TreeNames(DirTree(dir, relDir, e)) == FsNames(if e.Dir? && Shows(e) then [e] else [])
    ensures forall t :: t in DirTree(dir, relDir, e) ==> t.isDir && t.children != []
  {
  }

  /** Names and kinds of two groups carry over to the two together. */
  lemma KeptGlue(one: seq<Tree>, rest: seq<Tree>, all: seq<Tree>, eOne: seq<FsEntry>, eRest: seq<FsEntry>, eAll: seq<FsEntry>)
    requires all == one + rest && eAll == eOne + eRest
    requires TreeNames(one) == FsNames(eOne) && TreeNames(rest) == FsNames(eRest)
    requires forall t :: t in one ==> t.isDir && t.children != []
    requires forall t :: t in rest ==> t.isDir && t.children != []
    ensures TreeNames(all) == FsNames(eAll)
    ensures forall t :: t in all ==> t.isDir && t.children != []
  {
    TreeNamesAppend(one, rest);
    FsNamesAppend(eOne, eRest);
  }

  /** hasOrgFiles of what was built from a listing holds exactly when the
      listing shows something. */
  lemma {:induction false} BuildTreesAny(dir: Bytes, relDir: Bytes, listing: seq<FsEntry>)
    ensures AnyOrgTree(BuildTrees(dir, relDir, listing)) <==> ContainsOrg(listing)
    decreases listing, 2
  {
    var ds, fs := DirTrees(dir, relDir, listing), FileTrees(dir, relDir, listing);
    DirTreesKept(dir, relDir, listing);
    FileTreesKept(dir, relDir, listing);
    ContainsOrgKept(listing);
    GroupsShow(ds, fs);
  }

  /** Sorted groups of directories with children and of files: something
      in them shows iff they are not both empty. */
  lemma GroupsShow(ds: seq<Tree>, fs: seq<Tree>)
    requires forall t :: t in ds ==> t.isDir && t.children != []
    requires forall t :: t in fs ==> !t.isDir
    ensures AnyOrgTree(SortBy(TreeKey, ds) + SortBy(TreeKey, fs)) <==> |ds| + |fs| > 0
  {
    SortKeeps(TreeKey, ds);
    SortKeeps(TreeKey, fs);
    var ts := SortBy(TreeKey, ds) + SortBy(TreeKey, fs);
    if ts != [] {
      assert ts[0] in SortBy(TreeKey, ds) || ts[0] in SortBy(TreeKey, fs);
    }
  }

  /** What buildFileTreeRecursive promises of a readable listing: the kept
      directories first, then the kept files, each group ordered by
      lower-cased name and holding exactly the shown entries of its kind;
      every entry unexpanded, unparsed, linked to its parent and named by
      its path under the directory. */
  lemma BuildTreesShape(dir: Bytes, relDir: Bytes, listing: seq<FsEntry>)
    ensures var ts, nd := BuildTrees(dir, relDir, listing), |KeptDirs(listing)|;
      && |ts| == nd + |KeptFiles(listing)|
      && (forall i :: 0 <= i < |ts| ==> (ts[i].isDir <==> i < nd))
      && SortedBy(TreeKey, ts[..nd]) && SortedBy(TreeKey, ts[nd..])
      && multiset(ts[..nd]) == multiset(DirTrees(dir, relDir, listing))
      && multiset(ts[nd..]) == multiset(FileTrees(dir, relDir, listing))
      && (forall t :: t in ts ==>
            !t.expanded && t.orgFile == None && t.linked
            && t.path == PathJoin(dir, t.name) && t.relPath == PathJoin(relDir, t.name))
  {
    var ds, fs := DirTrees(dir, relDir, listing), FileTrees(dir, relDir, listing);
    DirTreesKept(dir, relDir, listing);
    FileTreesKept(dir, relDir, listing);
    DirTreesFields(dir, relDir, listing);
    FileTreesFields(dir, relDir, listing);
    GroupsLayout(ds, fs);
  }

  /** Directories sorted, then files sorted: the directories come first,
      each group sorted and holding the same trees as before. */
  lemma GroupsLayout(ds: seq<Tree>, fs: seq<Tree>)
    requires forall t :: t in ds ==> t.isDir
    requires forall t :: t in fs ==> !t.isDir
    ensures var ts, nd := SortBy(TreeKey, ds) + SortBy(TreeKey, fs), |ds|;
      && |ts| == nd + |fs|
      && (forall i :: 0 <= i < |ts| ==> (ts[i].isDir <==> i < nd))
      && SortedBy(TreeKey, ts[..nd]) && SortedBy(TreeKey, ts[nd..])
      && multiset(ts[..nd]) == multiset(ds) && multiset(ts[nd..]) == multiset(fs)
      && (forall t :: t in ts ==> t in ds || t in fs)
  {
    SortFacts(TreeKey, ds);
    SortFacts(TreeKey, fs);
    var sd, sf := SortBy(TreeKey, ds), SortBy(TreeKey, fs);
    var ts, nd := sd + sf, |sd|;
    assert ts[..nd] == sd && ts[nd..] == sf;
    forall i | 0 <= i < |ts| ensures ts[i].isDir <==> i < nd {
      if i < nd {
        assert ts[i] in sd;
      } else {
        assert ts[i] == sf[i - nd] && sf[i - nd] in sf;
      }
    }
  }

  lemma {:induction false} DirTreesFields(dir: Bytes, relDir: Bytes, listing: seq<FsEntry>)
    ensures forall t :: t in DirTrees(dir, relDir, listing) ==>
              !t.expanded && t.orgFile == None && t.linked
              && t.path == PathJoin(dir, t.name) && t.relPath == PathJoin(relDir, t.name)
  {
    if listing != [] {
      DirTreesFields(dir, relDir, listing[1..]);
    }
  }

  lemma {:induction false} FileTreesFields(dir: Bytes, relDir: Bytes, listing: seq<FsEntry>)
    ensures forall t :: t in FileTrees(dir, relDir, listing) ==>
              !t.expanded && t.orgFile == None && t.linked
              && t.path == PathJoin(dir, t.name) && t.relPath == PathJoin(relDir, t.name)
  {
    if listing != [] {
      FileTreesFields(dir, relDir, listing[1..]);
    }
  }

  // Entries as trees.

  /** The value an entry stands for. */
  ghost function Shape(e: FileEntry): Tree
    requires e.Valid()
    reads e.repr
    decreases e.repr, 0
  {
    ChildrenInside(e);
    Tree(e.name, e.path, e.relPath, e.isDir, e.expanded, e.orgFile,
         e.ChainOk() && (forall c :: c in e.children ==> c.parent == e), Shapes(e.children))
  }

  ghost function Shapes(entries: seq<FileEntry>): (ts: seq<Tree>)
    requires AllValid(entries)
    reads entries, Footprint(entries)
    ensures |ts| == |entries|
    decreases Footprint(entries), 1, |entries|
  {
    if entries == [] then []
    else
      assert entries[0].repr <= Footprint(entries);
      [Shape(entries[0])] + Shapes(entries[1..])
  }

  lemma {:induction false} ShapesAppend(a: seq<FileEntry>, b: seq<FileEntry>)
    requires AllValid(a) && AllValid(b)
    ensures AllValid(a + b) && Shapes(a + b) == Shapes(a) + Shapes(b)
    decreases |a|
  {
    if a == [] {
      assert a + b == b;
    } else {
      assert (a + b)[0] == a[0] && (a + b)[1..] == a[1..] + b;
      assert a[0] in a;
      ShapesAppend(a[1..], b);
    }
  }

  /** hasOrgFiles asks the same of the entries as of their values. */
  lemma AnyOrgShapes(entries: seq<FileEntry>)
    requires AllValid(entries)
    ensures AnyOrgFile(entries) <==> AnyOrgTree(Shapes(entries))
  {
    ShapesIndex(entries);
  }

  lemma {:induction false} ShapesIndex(entries: seq<FileEntry>)
    requires AllValid(entries)
    ensures forall i :: 0 <= i < |entries| ==> entries[i].Valid() && Shapes(entries)[i] == Shape(entries[i])
    decreases |entries|
  {
    if entries != [] {
      assert entries[0] in entries;
      ShapesIndex(entries[1..]);
    }
  }

  /** Sorting entries by key and sorting their values by key agree. */
  lemma {:induction false} ShapesInsert(x: FileEntry, t: seq<FileEntry>)
    requires x.Valid() && AllValid(t)
    ensures AllValid(Insert(Key, x, t))
    ensures Shapes(Insert(Key, x, t)) == Insert(TreeKey, Shape(x), Shapes(t))
    decreases |t|
  {
    InsertValid(x, t);
    if t == [] || LessEq(Key(x), Key(t[0])) {
      ShapesFront(x, t);
    } else {
      ShapesInsert(x, t[1..]);
      ShapesBehind(x, t);
    }
  }

  lemma InsertValid(x: FileEntry, t: seq<FileEntry>)
    requires x.Valid() && AllValid(t)
    ensures AllValid(Insert(Key, x, t))
  {
    InsertMembers(Key, x, t);
    var u := Insert(Key, x, t);
    forall e | e in u ensures e.Valid() {
      assert e in multiset(u);
    }
  }

  lemma ShapesFront(x: FileEntry, t: seq<FileEntry>)
    requires x.Valid() && AllValid(t)
    requires t == [] || LessEq(Key(x), Key(t[0]))
    requires AllValid(Insert(Key, x, t))
    ensures Shapes(Insert(Key, x, t)) == Insert(TreeKey, Shape(x), Shapes(t))
  {
    assert Insert(Key, x, t) == [x] + t;
    ShapesAppend([x], t);
    assert Shapes([x]) == [Shape(x)];
    if t != [] {
      assert Shapes(t)[0] == Shape(t[0]);
    }
  }

  lemma ShapesBehind(x: FileEntry, t: seq<FileEntry>)
    requires x.Valid() && AllValid(t) && t != [] && !LessEq(Key(x), Key(t[0]))
    requires AllValid(Insert(Key, x, t)) && AllValid(Insert(Key, x, t[1..]))
    requires Shapes(Insert(Key, x, t[1..])) == Insert(TreeKey, Shape(x), Shapes(t[1..]))
    ensures Shapes(Insert(Key, x, t)) == Insert(TreeKey, Shape(x), Shapes(t))
  {
    var head, rest := t[0], t[1..];
    var u := Insert(Key, x, rest);
    assert head in t;
    assert Insert(Key, x, t) == [head] + u;
    ShapesCons(head, u);
    assert t == [head] + rest;
    ShapesCons(head, rest);
    InsertBehind(Shape(x), Shape(head), Shapes(rest));
  }

  lemma ShapesCons(head: FileEntry, u: seq<FileEntry>)
    requires head.Valid() && AllValid(u)
    ensures AllValid([head] + u) && Shapes([head] + u) == [Shape(head)] + Shapes(u)
  {
    var s := [head] + u;
    assert s[0] == head && s[1..] == u;
  }

  lemma InsertBehind(x: Tree, head: Tree, rest: seq<Tree>)
    requires !LessEq(TreeKey(x), TreeKey(head))
    ensures Insert(TreeKey, x, [head] + rest) == [head] + Insert(TreeKey, x, rest)
  {
    assert ([head] + rest)[1..] == rest;
  }

  lemma {:induction false} ShapesSort(entries: seq<FileEntry>)
    requires AllValid(entries)
    ensures AllValid(SortBy(Key, entries))
    ensures Shapes(SortBy(Key, entries)) == SortBy(TreeKey, Shapes(entries))
    decreases |entries|
  {
    if entries != [] {
      assert entries[0] in entries;
      ShapesSort(entries[1..]);
      ShapesInsert(entries[0], SortBy(Key, entries[1..]));
      ShapesAppend([entries[0]], entries[1..]);
      assert entries == [entries[0]] + entries[1..];
    }
  }

  /** The values of entries are a function of their footprint: a step that
      changes nothing in it keeps them. */
  twostate lemma ShapesKept(entries: seq<FileEntry>)
    requires old(AllValid(entries)) && unchanged(old(Footprint(entries)))
    ensures Footprint(entries) == old(Footprint(entries)) && AllValid(entries)
    ensures Shapes(entries) == old(Shapes(entries))
  {
    forall e | e in entries ensures e in old(Footprint(entries)) {
      assert old(e.Valid());
    }
    assert Footprint(entries) == old(Footprint(entries));
    assert AllValid(entries);
  }

  // Building the tree.

  /** The entries have the given parent, and nothing under them is in
      `avoid`. */
  ghost predicate Under(entries: seq<FileEntry>, parent: FileEntry?, avoid: set<FileEntry>)
    reads entries
  {
    forall e :: e in entries ==> e.parent == parent && e.repr !! avoid
  }

  lemma UnderFootprint(entries: seq<FileEntry>, parent: FileEntry?, avoid: set<FileEntry>)
    requires Under(entries, parent, avoid)
    ensures Footprint(entries) !! avoid
  {
  }

  /** buildFileTreeRecursive: a failed read is the error itself; otherwise
      new entries under `parent`, whose values are what BuildTrees says.
      `avoid` holds entries made before (the directory being built among
      them), none of which ends up under the new ones. */
  method BuildRecursive(currentDir: Bytes, relDir: Bytes, failure: Option<Bytes>, listing: seq<FsEntry>,
                        parent: FileEntry?, ghost avoid: set<FileEntry>)
    returns (res: Result<seq<FileEntry>>)
    requires parent != null ==> parent.ChainOk()
    ensures failure.Some? ==> res == Err(failure.value)
    ensures failure.None? ==> res.Ok? && AllValid(res.value) && Under(res.value, parent, avoid)
    ensures failure.None? ==> Shapes(res.value) == BuildTrees(currentDir, relDir, listing)
    decreases listing, 4
  {
    if failure.Some? {
      return Err(failure.value);
    }
    var dirs, files := Gather(currentDir, relDir, listing, parent, avoid);
    AssembledShapes(dirs, files, currentDir, relDir, listing);
    AssembledMembers(dirs, files, parent, avoid);
    res := Ok(SortBy(Key, dirs) + SortBy(Key, files));
  }

  /** The loop over the listing: the kept directories and the org files, in
      listing order. */
  method Gather(currentDir: Bytes, relDir: Bytes, listing: seq<FsEntry>, parent: FileEntry?, ghost avoid: set<FileEntry>)
    returns (dirs: seq<FileEntry>, files: seq<FileEntry>)
    requires parent != null ==> parent.ChainOk()
    ensures AllValid(dirs) && AllValid(files) && Under(dirs, parent, avoid) && Under(files, parent, avoid)
    ensures Shapes(dirs) == DirTrees(currentDir, relDir, listing)
    ensures Shapes(files) == FileTrees(currentDir, relDir, listing)
    decreases listing, 3
  {
    dirs, files := [], [];
    var i := 0;
    while i < |listing|
      invariant 0 <= i <= |listing|
      invariant AllValid(dirs) && AllValid(files) && Under(dirs, parent, avoid) && Under(files, parent, avoid)
      invariant Shapes(dirs) + DirTrees(currentDir, relDir, listing[i..]) == DirTrees(currentDir, relDir, listing)
      invariant Shapes(files) + FileTrees(currentDir, relDir, listing[i..]) == FileTrees(currentDir, relDir, listing)
    {
      dirs, files := BuildTurn(currentDir, relDir, listing, i, parent, avoid, dirs, files);
      i := i + 1;
    }
    assert listing[|listing|..] == [];
    assert Shapes(dirs) + [] == Shapes(dirs) && Shapes(files) + [] == Shapes(files);
  }


  /** The gathered directories and files, each group sorted, stand for
      what BuildTrees builds. */
  lemma AssembledShapes(dirs: seq<FileEntry>, files: seq<FileEntry>, dir: Bytes, relDir: Bytes, listing: seq<FsEntry>)
    requires AllValid(dirs) && AllValid(files)
    requires Shapes(dirs) == DirTrees(dir, relDir, listing) && Shapes(files) == FileTrees(dir, relDir, listing)
    ensures AllValid(SortBy(Key, dirs) + SortBy(Key, files))
    ensures Shapes(SortBy(Key, dirs) + SortBy(Key, files)) == BuildTrees(dir, relDir, listing)
  {
    ShapesSort(dirs);
    ShapesSort(files);
    ShapesAppend(SortBy(Key, dirs), SortBy(Key, files));
  }

  /** Sorting the two groups keeps their entries. */
  lemma AssembledMembers(dirs: seq<FileEntry>, files: seq<FileEntry>, parent: FileEntry?, avoid: set<FileEntry>)
    requires Under(dirs, parent, avoid) && Under(files, parent, avoid)
    ensures Under(SortBy(Key, dirs) + SortBy(Key, files), parent, avoid)
  {
    SortedGroup(dirs, parent, avoid);
    SortedGroup(files, parent, avoid);
    UnderAppend(SortBy(Key, dirs), SortBy(Key, files), parent, avoid);
  }

  /** Sorting one group keeps its entries. */
  lemma SortedGroup(s: seq<FileEntry>, parent: FileEntry?, avoid: set<FileEntry>)
    requires Under(s, parent, avoid)
    ensures Under(SortBy(Key, s), parent, avoid)
  {
    SortFacts(Key, s);
    forall e | e in SortBy(Key, s)
      ensures e.parent == parent && e.repr !! avoid
    {
      assert e in multiset(SortBy(Key, s));
    }
  }

  lemma UnderSnoc(s: seq<FileEntry>, e: FileEntry, parent: FileEntry?, avoid: set<FileEntry>)
    requires Under(s, parent, avoid) && e.parent == parent && e.repr !! avoid
    ensures Under(s + [e], parent, avoid)
  {
    assert forall x :: x in s + [e] <==> x in s || x == e;
  }

  lemma UnderAppend(a: seq<FileEntry>, b: seq<FileEntry>, parent: FileEntry?, avoid: set<FileEntry>)
    requires Under(a, parent, avoid) && Under(b, parent, avoid)
    ensures Under(a + b, parent, avoid)
  {
    assert forall x :: x in a + b <==> x in a || x in b;
  }



  /** One turn of the builder's loop over the listing: the entry at `i`
      is appended to the directories or the files when it is kept. */
  method BuildTurn(currentDir: Bytes, relDir: Bytes, listing: seq<FsEntry>, i: nat, parent: FileEntry?,
                   ghost avoid: set<FileEntry>, dirs: seq<FileEntry>, files: seq<FileEntry>)
    returns (dirs': seq<FileEntry>, files': seq<FileEntry>)
    requires i < |listing| && (parent != null ==> parent.ChainOk())
    requires AllValid(dirs) && AllValid(files) && Under(dirs, parent, avoid) && Under(files, parent, avoid)
    requires Shapes(dirs) + DirTrees(currentDir, relDir, listing[i..]) == DirTrees(currentDir, relDir, listing)
    requires Shapes(files) + FileTrees(currentDir, relDir, listing[i..]) == FileTrees(currentDir, relDir, listing)
    ensures AllValid(dirs') && AllValid(files') && Under(dirs', parent, avoid) && Under(files', parent, avoid)
    ensures Shapes(dirs') + DirTrees(currentDir, relDir, listing[i + 1..]) == DirTrees(currentDir, relDir, listing)
    ensures Shapes(files') + FileTrees(currentDir, relDir, listing[i + 1..]) == FileTrees(currentDir, relDir, listing)
    decreases listing, 2
  {
    var entry := listing[i];
    dirs', files' := dirs, files;
    if Hidden(entry.name) {
      DirStep(Shapes(dirs), currentDir, relDir, listing, i);
      FileStep(Shapes(files), currentDir, relDir, listing, i);
    } else if entry.Dir? {
      FileStep(Shapes(files), currentDir, relDir, listing, i);
      dirs' := AddDir(currentDir, relDir, listing, i, parent, avoid, dirs);
      ShapesKept(files);
    } else {
      DirStep(Shapes(dirs), currentDir, relDir, listing, i);
      files' := AddFile(currentDir, relDir, listing, i, parent, avoid, files);
      ShapesKept(dirs);
    }
  }

  /** A directory of the listing, appended when it is kept. */
  method AddDir(currentDir: Bytes, relDir: Bytes, listing: seq<FsEntry>, i: nat, parent: FileEntry?,
                ghost avoid: set<FileEntry>, dirs: seq<FileEntry>)
    returns (dirs': seq<FileEntry>)
    requires i < |listing| && listing[i].Dir? && !Hidden(listing[i].name) && (parent != null ==> parent.ChainOk())
    requires AllValid(dirs) && Under(dirs, parent, avoid)
    requires Shapes(dirs) + DirTrees(currentDir, relDir, listing[i..]) == DirTrees(currentDir, relDir, listing)
    ensures AllValid(dirs') && Under(dirs', parent, avoid)
    ensures Shapes(dirs') + DirTrees(currentDir, relDir, listing[i + 1..]) == DirTrees(currentDir, relDir, listing)
    decreases listing, 1
  {
    DirStep(Shapes(dirs), currentDir, relDir, listing, i);
    var fe := BuildDir(currentDir, relDir, listing[i], parent, avoid);
    ShapesKept(dirs);
    dirs' := dirs;
    if fe != null {
      ShapesSnoc(dirs, fe);
      UnderSnoc(dirs, fe, parent, avoid);
      dirs' := dirs + [fe];
    }
  }

  /** A file of the listing, appended when it is an org file. */
  method AddFile(currentDir: Bytes, relDir: Bytes, listing: seq<FsEntry>, i: nat, parent: FileEntry?,
                 ghost avoid: set<FileEntry>, files: seq<FileEntry>)
    returns (files': seq<FileEntry>)
    requires i < |listing| && listing[i].File? && !Hidden(listing[i].name) && (parent != null ==> parent.ChainOk())
    requires AllValid(files) && Under(files, parent, avoid)
    requires Shapes(files) + FileTrees(currentDir, relDir, listing[i..]) == FileTrees(currentDir, relDir, listing)
    ensures AllValid(files') && Under(files', parent, avoid)
    ensures Shapes(files') + FileTrees(currentDir, relDir, listing[i + 1..]) == FileTrees(currentDir, relDir, listing)
  {
    var entry := listing[i];
    FileStep(Shapes(files), currentDir, relDir, listing, i);
    files' := files;
    if IsOrgName(entry.name) {
      var fe := new FileEntry(entry.name, PathJoin(currentDir, entry.name), PathJoin(relDir, entry.name), false, parent);
      ShapesKept(files);
      ShapesSnoc(files, fe);
      UnderSnoc(files, fe, parent, avoid);
      files' := files + [fe];
    }
  }

  /** The directories kept so far, followed by those kept from entry `i`,
      then by those kept after it. */
  lemma DirStep(kept: seq<Tree>, dir: Bytes, relDir: Bytes, listing: seq<FsEntry>, i: nat)
    requires i < |listing|
    requires kept + DirTrees(dir, relDir, listing[i..]) == DirTrees(dir, relDir, listing)
    ensures (kept + DirTree(dir, relDir, listing[i])) + DirTrees(dir, relDir, listing[i + 1..]) == DirTrees(dir, relDir, listing)
    ensures DirTree(dir, relDir, listing[i]) == [] ==> kept + DirTrees(dir, relDir, listing[i + 1..]) == DirTrees(dir, relDir, listing)
  {
    ListingStep(dir, relDir, listing, i);
    var t, rest := DirTree(dir, relDir, listing[i]), DirTrees(dir, relDir, listing[i + 1..]);
    SeqRegroup(kept, t, rest);
    if t == [] {
      assert t + rest == rest;
    }
  }


  lemma FileStep(kept: seq<Tree>, dir: Bytes, relDir: Bytes, listing: seq<FsEntry>, i: nat)
    requires i < |listing|
    requires kept + FileTrees(dir, relDir, listing[i..]) == FileTrees(dir, relDir, listing)
    ensures (kept + FileLeaf(dir, relDir, listing[i])) + FileTrees(dir, relDir, listing[i + 1..]) == FileTrees(dir, relDir, listing)
    ensures FileLeaf(dir, relDir, listing[i]) == [] ==> kept + FileTrees(dir, relDir, listing[i + 1..]) == FileTrees(dir, relDir, listing)
  {
    ListingStep(dir, relDir, listing, i);
    var t, rest := FileLeaf(dir, relDir, listing[i]), FileTrees(dir, relDir, listing[i + 1..]);
    SeqRegroup(kept, t, rest);
    if t == [] {
      assert t + rest == rest;
    }
  }


  lemma SeqRegroup<T>(a: seq<T>, b: seq<T>, c: seq<T>)
    ensures (a + b) + c == a + (b + c)
  {
  }

  lemma ShapesSnoc(entries: seq<FileEntry>, e: FileEntry)
    requires AllValid(entries) && e.Valid()
    ensures AllValid(entries + [e]) && Shapes(entries + [e]) == Shapes(entries) + [Shape(e)]
  {
    assert Shapes([e]) == [Shape(e)];
    ShapesAppend(entries, [e]);
  }

  /** The kept entries of a listing's suffix: those of its first entry, then
      those of the rest. */
  lemma ListingStep(dir: Bytes, relDir: Bytes, listing: seq<FsEntry>, i: nat)
    requires i < |listing|
    ensures DirTrees(dir, relDir, listing[i..]) == DirTree(dir, relDir, listing[i]) + DirTrees(dir, relDir, listing[i + 1..])
    ensures FileTrees(dir, relDir, listing[i..]) == FileLeaf(dir, relDir, listing[i]) + FileTrees(dir, relDir, listing[i + 1..])
  {
    assert listing[i..][0] == listing[i] && listing[i..][1..] == listing[i + 1..];
  }

  /** A directory entry of the listing, when it is kept: the entry, holding
      what was built from its own listing; null when it is left out. */
  method BuildDir(currentDir: Bytes, relDir: Bytes, entry: FsEntry, parent: FileEntry?, ghost avoid: set<FileEntry>)
    returns (fe: FileEntry?)
    requires entry.Dir? && !Hidden(entry.name)
    requires parent != null ==> parent.ChainOk()
    ensures fe != null ==> fe.Valid() && fe.parent == parent && fe.repr !! avoid
    ensures DirTree(currentDir, relDir, entry) == if fe == null then [] else [Shape(fe)]
    decreases entry, 0
  {
    var made := new FileEntry(entry.name, PathJoin(currentDir, entry.name), PathJoin(relDir, entry.name), true, parent);
    var children := BuildRecursive(made.path, made.relPath, entry.failure, entry.listing, made, avoid + {made});
    if children.Err? {
      DirTreeFailed(currentDir, relDir, entry);
      return null;
    }
    fe := KeepDir(currentDir, relDir, entry, made, children.value, avoid);
  }

  /** The rest of BuildDir once the directory was read: `made` gets the
      children built from its listing when hasOrgFiles holds of them, and is
      dropped otherwise. */
  method KeepDir(currentDir: Bytes, relDir: Bytes, entry: FsEntry, made: FileEntry, cs: seq<FileEntry>,
                 ghost avoid: set<FileEntry>)
    returns (fe: FileEntry?)
    requires entry.Dir? && !Hidden(entry.name) && entry.failure.None?
    requires made.repr == {made} && made.ChainOk() && made.orgFile == None && made.isDir && made !in avoid
    requires made.name == entry.name && made.path == PathJoin(currentDir, entry.name)
    requires made.relPath == PathJoin(relDir, entry.name)
    requires AllValid(cs) && Under(cs, made, avoid + {made})
    requires Shapes(cs) == BuildTrees(made.path, made.relPath, entry.listing)
    modifies made
    ensures fe != null ==> fe == made && fe.Valid() && fe.parent == made.parent && fe.repr !! avoid
    ensures DirTree(currentDir, relDir, entry) == if fe == null then [] else [Shape(fe)]
  {
    UnderFootprint(cs, made, avoid + {made});
    ghost var kids, fp := Shapes(cs), Footprint(cs);
    ghost var t := Tree(made.name, made.path, made.relPath, true, false, None, true, kids);
    var any := HasOrgFiles(cs);
    AnyOrgShapes(cs);
    DirTreeOf(currentDir, relDir, entry, kids, t);
    if !any {
      return null;
    }
    Attach(made, cs, t);
    fe := made;
    assert fe.repr == {made} + fp;
  }

  /** A directory that cannot be read is left out. */
  lemma DirTreeFailed(dir: Bytes, relDir: Bytes, e: FsEntry)
    requires e.Dir? && e.failure.Some?
    ensures DirTree(dir, relDir, e) == []
  {
  }

  /** A readable directory is kept, holding what was built from its own
      listing, exactly when hasOrgFiles holds of that. */
  lemma DirTreeOf(dir: Bytes, relDir: Bytes, e: FsEntry, kids: seq<Tree>, t: Tree)
    requires e.Dir? && !Hidden(e.name) && e.failure.None?
    requires kids == BuildTrees(PathJoin(dir, e.name), PathJoin(relDir, e.name), e.listing)
    requires t == Tree(e.name, PathJoin(dir, e.name), PathJoin(relDir, e.name), true, false, None, true, kids)
    ensures DirTree(dir, relDir, e) == if AnyOrgTree(kids) then [t] else []
  {
  }

  /** The children built under a directory entry become its children. */
  method Attach(made: FileEntry, cs: seq<FileEntry>, ghost t: Tree)
    requires made.repr == {made} && made.ChainOk() && made.orgFile == None
    requires made !in Footprint(cs) && AllValid(cs)
    requires forall c :: c in cs ==> c.parent == made
    requires t == Tree(made.name, made.path, made.relPath, made.isDir, false, None, true, Shapes(cs))
    modifies made
    ensures made.children == cs && made.repr == {made} + old(Footprint(cs)) && made.Valid()
    ensures Shape(made) == t
  {
    ghost var fp, shapes := Footprint(cs), Shapes(cs);
    made.children := cs;
    made.expanded := false;
    made.repr := {made} + fp;
    assert Footprint(cs) == fp && AllValid(cs) && Shapes(cs) == shapes;
  }

  /** BuildFileTree: the tree of the root directory, with no parent. */
  method BuildFileTree(rootDir: Bytes, failure: Option<Bytes>, listing: seq<FsEntry>) returns (res: Result<seq<FileEntry>>)
    ensures failure.Some? ==> res == Err(failure.value)
    ensures failure.None? ==> res.Ok? && AllValid(res.value) && (forall e :: e in res.value ==> e.parent == null)
    ensures failure.None? ==> Shapes(res.value) == BuildTrees(rootDir, [], listing)
  {
    res := BuildRecursive(rootDir, [], failure, listing, null, {});
  }

  // ListOrgFiles

  /** ListOrgFiles' own test: a file whose name ends in ".org" exactly as
      written. Unlike the tree builder it ignores case nowhere and keeps
      hidden files. */
  predicate Listed(e: FsEntry) { e.File? && HasSuffix(e.name, ORG) }

  /** The paths ListOrgFiles returns for a readable directory, in listing
      order. */
  function OrgPaths(dir: Bytes, listing: seq<FsEntry>): (ps: seq<Bytes>)
    ensures |ps| <= |listing|
  {
    if listing == [] then []
    else (if Listed(listing[0]) then [PathJoin(dir, listing[0].name)] else []) + OrgPaths(dir, listing[1..])
  }

  /** ListOrgFiles: the error of reading the directory, or the path of
      every listed file, appended in listing order. */
  method ListOrgFiles(dir: Bytes, failure: Option<Bytes>, listing: seq<FsEntry>) returns (res: Result<seq<Bytes>>)
    ensures failure.Some? ==> res == Err(failure.value)
    ensures failure.None? ==> res == Ok(OrgPaths(dir, listing))
  {
    if failure.Some? {
      return Err(failure.value);
    }
    var files := [];
    var i := 0;
    while i < |listing|
      invariant 0 <= i <= |listing|
      invariant files + OrgPaths(dir, listing[i..]) == OrgPaths(dir, listing)
    {
      var entry := listing[i];
      assert listing[i..][1..] == listing[i + 1..];
      if !entry.Dir? && HasSuffix(entry.name, ORG) {
        SeqRegroup(files, [PathJoin(dir, entry.name)], OrgPaths(dir, listing[i + 1..]));
        files := files + [PathJoin(dir, entry.name)];
      }
      i := i + 1;
    }
    assert listing[i..] == [] && files + [] == files;
    return Ok(files);
  }

  /** A path is returned exactly when some listed file of the directory
      has it. */
  lemma OrgPathsMembers(dir: Bytes, listing: seq<FsEntry>, p: Bytes)
    ensures p in OrgPaths(dir, listing) <==>
              exists i :: 0 <= i < |listing| && Listed(listing[i]) && p == PathJoin(dir, listing[i].name)
  {
    OrgPathsOrder(dir, listing);
    ListedPaths(dir, listing, p);
  }

  lemma ListedPaths(dir: Bytes, listing: seq<FsEntry>, p: Bytes)
    ensures p in Paths(dir, ListedFiles(listing)) <==>
              exists i :: 0 <= i < |listing| && Listed(listing[i]) && p == PathJoin(dir, listing[i].name)
  {
    var fs := ListedFiles(listing);
    if p in Paths(dir, fs) {
      var j :| 0 <= j < |fs| && Paths(dir, fs)[j] == p;
      assert fs[j] in fs;
      var i :| 0 <= i < |listing| && listing[i] == fs[j];
    }
    forall i | 0 <= i < |listing| && Listed(listing[i]) && p == PathJoin(dir, listing[i].name)
      ensures p in Paths(dir, fs)
    {
      ListedFilesHas(listing, i);
      var j :| 0 <= j < |fs| && fs[j] == listing[i];
      assert Paths(dir, fs)[j] == p;
    }
  }

  /** Every listed file of the listing is among the listed files. */
  lemma {:induction false} ListedFilesHas(listing: seq<FsEntry>, i: nat)
    requires i < |listing| && Listed(listing[i])
    ensures listing[i] in ListedFiles(listing)
  {
    if i > 0 {
      ListedFilesHas(listing[1..], i - 1);
      assert listing[1..][i - 1] == listing[i];
    }
  }

  /** The returned paths follow the listing: the k-th returned path belongs
      to the k-th listed file. */
  lemma {:induction false} OrgPathsOrder(dir: Bytes, listing: seq<FsEntry>)
    ensures OrgPaths(dir, listing) == Paths(dir, ListedFiles(listing))
  {
    if listing != [] {
      OrgPathsOrder(dir, listing[1..]);
      PathsAppend(dir, if Listed(listing[0]) then [listing[0]] else [], ListedFiles(listing[1..]));
    }
  }

  /** The listed files, in listing order. */
  function ListedFiles(listing: seq<FsEntry>): (fs: seq<FsEntry>)
    ensures forall e :: e in fs ==> e in listing && Listed(e)
  {
    if listing == [] then []
    else (if Listed(listing[0]) then [listing[0]] else []) + ListedFiles(listing[1..])
  }

  function Paths(dir: Bytes, es: seq<FsEntry>): (ps: seq<Bytes>)
    ensures |ps| == |es|
  {
    seq(|es|, i requires 0 <= i < |es| => PathJoin(dir, es[i].name))
  }

  lemma PathsAppend(dir: Bytes, a: seq<FsEntry>, b: seq<FsEntry>)
    ensures Paths(dir, a + b) == Paths(dir, a) + Paths(dir, b)
  {
    assert forall i :: 0 <= i < |a + b| ==> Paths(dir, a + b)[i] == (Paths(dir, a) + Paths(dir, b))[i];
  }

  /** A name ending in ".org" still does after lower-casing. */
  lemma LowerKeepsOrg(name: Bytes)
    requires HasSuffix(name, ORG)
    ensures HasSuffix(ToLower(name), ORG)
  {
    var k := |name| - |ORG|;
    forall j | 0 <= j < |ORG| ensures ToLower(name)[k..][j] == ORG[j] {
      assert name[k..][j] == ORG[j] && ToLower(name)[k + j] == LowerByte(name[k + j]);
    }
  }

  /** Every listed file that is not hidden is also shown by the tree
      builder. */
  lemma ListedShown(e: FsEntry)
    requires Listed(e) && !Hidden(e.name)
    ensures Shows(e)
  {
    LowerKeepsOrg(e.name);
  }

  /** The two tests differ both ways: ListOrgFiles keeps a hidden ".a.org" the
      tree skips, and the tree keeps "B.ORG", which ListOrgFiles leaves out. */
  lemma ListedVersusShown()
    ensures Listed(File(Ascii(".a.org"))) && !Shows(File(Ascii(".a.org")))
    ensures !Listed(File(Ascii("B.ORG"))) && Shows(File(Ascii("B.ORG")))
  {
    var hidden, upper := Ascii(".a.org"), Ascii("B.ORG");
    assert hidden[|hidden| - 4..] == ORG;
    assert hidden[..1] == [DOT];
    assert upper[1..][1] != ORG[1];
    assert ToLower(upper)[1..] == ORG;
    assert upper[..1][0] != DOT;
  }
}
