/** The file tree of the viewer: parsed org files, the directory tree built
    from directory listings, its flattening into the visible rows, depths,
    titles and the lazily parsed file cache. Reading directories and files
    and the org parser are inputs: a listing is an `FsEntry` tree, parsing a
    path is a function from the path to a parsed file or an error. */
module FileTree {
  import opened Bytes
  import opened Document

  /** OrgFile */
  datatype OrgFile = OrgFile(name: Bytes, path: Bytes, document: Doc, rawContent: Bytes)

  const ORG: Bytes := Ascii(".org")
  const TITLE: Bytes := Ascii("TITLE")

  /** Title: the #+TITLE setting when set, else the file name without one
      trailing ".org". */
  function Title(f: OrgFile): (t: Bytes)
    ensures Get(f.document, TITLE) != [] ==> t == Get(f.document, TITLE)
    ensures Get(f.document, TITLE) == [] && HasSuffix(f.name, ORG) ==> t + ORG == f.name
    ensures Get(f.document, TITLE) == [] && !HasSuffix(f.name, ORG) ==> t == f.name
  {
    var title := Get(f.document, TITLE);
    if title != [] then title else TrimSuffix(f.name, ORG)
  }

  /** Only one ".org" goes: "notes.org.org" is titled "notes.org". */
  lemma TitleTrimsOnce()
    ensures Title(OrgFile(Ascii("a.org.org"), [], Doc([], map[]), [])) == Ascii("a.org")
  {
    var f := OrgFile(Ascii("a.org.org"), [], Doc([], map[]), []);
    assert HasSuffix(f.name, ORG);
    assert f.name[..5] == Ascii("a.org");
  }

  // Entries.

  /** FileEntry. The parent link is set when the entry is made and never
      changes; `depth` counts the links above it and `repr` is the entry with
      everything under it, both for the proofs only. */
  class FileEntry {
    const name: Bytes
    const path: Bytes
    const relPath: Bytes
    const isDir: bool
    const parent: FileEntry?
    ghost const depth: nat
    var children: seq<FileEntry>
    var orgFile: Option<OrgFile>
    var expanded: bool
    ghost var repr: set<FileEntry>

    /** The parent chain ends, after `depth` links. */
    ghost predicate ChainOk()
      decreases depth
    {
      if parent == null then depth == 0 else depth == parent.depth + 1 && parent.ChainOk()
    }

    /** The children form a tree under this entry. */
    ghost predicate Valid()
      reads this, repr
      decreases repr
    {
      this in repr
      && forall c :: c in children ==> c in repr && c.repr <= repr && this !in c.repr && c.Valid()
    }

    constructor (name: Bytes, path: Bytes, relPath: Bytes, isDir: bool, parent: FileEntry?)
      requires parent != null ==> parent.ChainOk()
      ensures this.name == name && this.path == path && this.relPath == relPath
      ensures this.isDir == isDir && this.parent == parent
      ensures children == [] && orgFile == None && !expanded
      ensures repr == {this} && Valid() && ChainOk()
    {
      this.name := name;
      this.path := path;
      this.relPath := relPath;
      this.isDir := isDir;
      this.parent := parent;
      this.depth := if parent == null then 0 else parent.depth + 1;
      children := [];
      orgFile := None;
      expanded := false;
      repr := {this};
    }

    /** The entries above this one, nearest first: each is the parent of the
        one before, and the last has no parent. */
    ghost function Ancestors(): (a: seq<FileEntry>)
      requires ChainOk()
      ensures parent == null <==> a == []
      ensures a != [] ==> a[0] == parent && a[|a| - 1].parent == null
      ensures forall i :: 0 <= i < |a| - 1 ==> a[i + 1] == a[i].parent
      decreases depth
    {
      if parent == null then [] else [parent] + parent.Ancestors()
    }

    /** GetDepth: the number of parent links followed until there is none. */
    method GetDepth() returns (d: int)
      requires ChainOk()
      ensures d == |Ancestors()|
    {
      d := 0;
      var p := parent;
      AncestorsLength(this);
      while p != null
        invariant p != null ==> p.ChainOk() && d + p.depth + 1 == depth
        invariant p == null ==> d == depth
        decreases if p == null then 0 else p.depth + 1
      {
        d := d + 1;
        p := p.parent;
      }
    }

    /** GetOrgFile: nothing for a directory; the cached file when there is
        one, whatever `parse` would now say; otherwise the parse, cached
        only when it succeeds. */
    method GetOrgFile(parse: Bytes -> Result<OrgFile>) returns (f: Option<OrgFile>, err: Option<Bytes>)
      modifies this
      ensures children == old(children) && expanded == old(expanded) && repr == old(repr)
      ensures isDir ==> f == None && err == None && orgFile == old(orgFile)
      ensures !isDir && old(orgFile).Some? ==> f == old(orgFile) && err == None && orgFile == old(orgFile)
      ensures !isDir && old(orgFile).None? && parse(path).Ok? ==>
                f == Some(parse(path).value) && err == None && orgFile == f
      ensures !isDir && old(orgFile).None? && parse(path).Err? ==>
                f == None && err == Some(parse(path).error) && orgFile == None
    {
      if isDir {
        return None, None;
      }
      if orgFile.Some? {
        return orgFile, None;
      }
      var parsed := parse(path);
      if parsed.Err? {
        return None, Some(parsed.error);
      }
      orgFile := Some(parsed.value);
      return orgFile, None;
    }
  }

  lemma {:induction false} AncestorsLength(e: FileEntry)
    requires e.ChainOk()
    ensures |e.Ancestors()| == e.depth
    decreases e.depth
  {
    if e.parent != null {
      AncestorsLength(e.parent);
    }
  }

  /** After a successful first access, a second one returns the same file
      without parsing, even if the file would now parse differently. */
  method GetOrgFileTwice(e: FileEntry, parse: Bytes -> Result<OrgFile>, reparse: Bytes -> Result<OrgFile>)
    returns (first: Option<OrgFile>, second: Option<OrgFile>)
    modifies e
    requires !e.isDir && e.orgFile == None && parse(e.path).Ok?
    ensures first == second == Some(parse(e.path).value)
  {
    var err;
    first, err := e.GetOrgFile(parse);
    second, err := e.GetOrgFile(reparse);
  }

  // hasOrgFiles

  /** Some entry is a file, or a directory with children. */
  predicate AnyOrgFile(entries: seq<FileEntry>)
    reads entries
  {
    exists i :: 0 <= i < |entries| && (!entries[i].isDir || |entries[i].children| > 0)
  }

  /** hasOrgFiles: the loop that stops at the first such entry. */
  method HasOrgFiles(entries: seq<FileEntry>) returns (found: bool)
    ensures found == AnyOrgFile(entries)
  {
    var i := 0;
    while i < |entries|
      invariant 0 <= i <= |entries|
      invariant forall k :: 0 <= k < i ==> entries[k].isDir && |entries[k].children| == 0
    {
      var e := entries[i];
      if !e.isDir {
        return true;
      }
      if e.isDir && |e.children| > 0 {
        return true;
      }
      i := i + 1;
    }
    return false;
  }

  // Flattening.

  /** Everything under the given entries. */
  ghost function Footprint(entries: seq<FileEntry>): set<FileEntry>
    reads entries
  {
    set e, o | e in entries && o in e.repr :: o
  }

  ghost predicate AllValid(entries: seq<FileEntry>)
    reads entries, Footprint(entries)
  {
    forall e :: e in entries ==> e.Valid()
  }

  /** The subtrees of the children lie strictly inside the entry's own. */
  lemma ChildrenInside(e: FileEntry)
    requires e.Valid()
    ensures AllValid(e.children)
    ensures Footprint(e.children) < e.repr
  {
    assert e !in Footprint(e.children);
  }
}
