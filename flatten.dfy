/** flattenRecursive: the rows of the tree the file list shows. */
module Flatten {
  import opened FileTree

  /** The visible rows: each entry, followed by its own visible rows when it
      is an expanded directory. */
  function Flat(entries: seq<FileEntry>): seq<FileEntry>
    requires AllValid(entries)
    reads entries, Footprint(entries)
    decreases Footprint(entries), 1, |entries|
  {
    if entries == [] then []
    else
      assert entries[0].repr <= Footprint(entries);
      Visible(entries[0]) + Flat(entries[1..])
  }

  function Visible(e: FileEntry): seq<FileEntry>
    requires e.Valid()
    reads e.repr
    decreases e.repr, 0
  {
    ChildrenInside(e);
    [e] + (if e.isDir && e.expanded then Flat(e.children) else [])
  }


  /** FlattenTree */
  method FlattenTree(entries: seq<FileEntry>) returns (result: seq<FileEntry>)
    requires AllValid(entries)
    ensures result == Flat(entries)
  {
    result := FlattenRecursive(entries, [], 0);
  }

  /** flattenRecursive: appends the visible rows to `result`. (The depth it
      is passed is not used.) */
  method FlattenRecursive(entries: seq<FileEntry>, result: seq<FileEntry>, depth: int)
    returns (out: seq<FileEntry>)
    requires AllValid(entries)
    ensures out == result + Flat(entries)
    decreases Footprint(entries), 2
  {
    out := result;
    var i := 0;
    while i < |entries|
      invariant 0 <= i <= |entries|
      invariant AllValid(entries) && out + Flat(entries[i..]) == result + Flat(entries)
    {
      assert entries[i].repr <= Footprint(entries);
      out := FlattenTurn(entries, i, result, out, depth);
      i := i + 1;
    }
  }

  /** One turn of flattenRecursive's loop, with what it keeps of the
      loop's invariant. */
  method FlattenTurn(entries: seq<FileEntry>, i: nat, result: seq<FileEntry>, acc: seq<FileEntry>, depth: int)
    returns (out: seq<FileEntry>)
    requires i < |entries| && AllValid(entries)
    requires acc + Flat(entries[i..]) == result + Flat(entries)
    ensures AllValid(entries) && out + Flat(entries[i + 1..]) == result + Flat(entries)
    decreases entries[i].repr, 1
  {
    assert entries[i..][0] == entries[i];
    FlatStep(entries, i);
    out := AppendVisible(entries[i], acc, depth);
    FlatKept(entries[i + 1..]);
    FlatKept(entries);
  }

  /** Rows and validity are a function of the entries' footprint: a step
      that changes nothing in it keeps them. */
  twostate lemma FlatKept(entries: seq<FileEntry>)
    requires old(AllValid(entries)) && unchanged(old(Footprint(entries)))
    ensures Footprint(entries) == old(Footprint(entries)) && AllValid(entries)
    ensures Flat(entries) == old(Flat(entries))
  {
    forall e | e in entries ensures e in old(Footprint(entries)) {
      assert old(e.Valid());
    }
    assert Footprint(entries) == old(Footprint(entries));
    assert AllValid(entries);
  }

  /** One turn of flattenRecursive's loop: the entry, then what shows under
      it. */
  method AppendVisible(e: FileEntry, result: seq<FileEntry>, depth: int) returns (out: seq<FileEntry>)
    requires e.Valid()
    ensures out == result + Visible(e)
    decreases e.repr, 0
  {
    ChildrenInside(e);
    out := result + [e];
    if e.isDir && e.expanded {
      out := FlattenRecursive(e.children, out, depth + 1);
    }
  }

  lemma ChildDecreases(entries: seq<FileEntry>, i: nat)
    requires i < |entries| && entries[i].Valid()
    ensures AllValid(entries[i].children)
    ensures Footprint(entries[i].children) < Footprint(entries)
  {
    ChildrenInside(entries[i]);
    assert entries[i].repr <= Footprint(entries);
  }

  lemma FlatStep(entries: seq<FileEntry>, i: nat)
    requires i < |entries| && AllValid(entries[i..])
    ensures entries[i].Valid() && AllValid(entries[i + 1..])
    ensures Flat(entries[i..]) == Visible(entries[i]) + Flat(entries[i + 1..])
  {
    var suffix := entries[i..];
    assert suffix[1..] == entries[i + 1..];
    assert suffix[0] == entries[i];
    assert suffix[0] in suffix;
  }

  /** With no top-level directory expanded, the visible rows are the
      top-level entries themselves. */
  lemma {:induction false} FlattenCollapsed(entries: seq<FileEntry>)
    requires AllValid(entries)
    requires forall e :: e in entries ==> !(e.isDir && e.expanded)
    ensures Flat(entries) == entries
    decreases |entries|
  {
    if entries != [] {
      assert AllValid(entries[1..]);
      FlattenCollapsed(entries[1..]);
    }
  }

  /** Every top-level entry is visible, and so is every child of an expanded
      directory that is visible itself, at any depth. */
  lemma {:induction false} FlattenShows(entries: seq<FileEntry>)
    requires AllValid(entries)
    ensures forall e :: e in entries ==> e in Flat(entries)
    ensures forall e, c :: e in entries && e.isDir && e.expanded && c in e.children ==> c in Flat(entries)
    ensures forall e, c :: e in Flat(entries) && e.isDir && e.expanded && c in e.children ==> c in Flat(entries)
    decreases |entries|
  {
    FlatClosed(entries);
    if entries != [] {
      var e := entries[0];
      assert AllValid(entries[1..]);
      FlattenShows(entries[1..]);
      if e.isDir && e.expanded {
        ChildrenInside(e);
        FlatTopLevel(e.children);
      }
      forall x | x in entries ensures x in Flat(entries) {
        if x != e {
          assert x in entries[1..];
        }
      }
    }
  }

  /** The visible rows are closed under opening: an expanded directory
      among them brings its children along. */
  lemma {:induction false} FlatClosed(entries: seq<FileEntry>)
    requires AllValid(entries)
    ensures forall e, c :: e in Flat(entries) && e.isDir && e.expanded && c in e.children ==> c in Flat(entries)
    decreases Footprint(entries), 1, |entries|
  {
    if entries != [] {
      var e := entries[0];
      assert e.repr <= Footprint(entries);
      assert AllValid(entries[1..]);
      assert Footprint(entries[1..]) <= Footprint(entries);
      VisibleClosed(e);
      FlatClosed(entries[1..]);
    }
  }

  lemma {:induction false} VisibleClosed(e: FileEntry)
    requires e.Valid()
    ensures forall x, c :: x in Visible(e) && x.isDir && x.expanded && c in x.children ==> c in Visible(e)
    decreases e.repr, 0
  {
    ChildrenInside(e);
    if e.isDir && e.expanded {
      FlatTopLevel(e.children);
      FlatClosed(e.children);
    }
  }

  lemma {:induction false} FlatTopLevel(entries: seq<FileEntry>)
    requires AllValid(entries)
    ensures forall e :: e in entries ==> e in Flat(entries)
    decreases |entries|
  {
    if entries != [] {
      assert AllValid(entries[1..]);
      FlatTopLevel(entries[1..]);
      forall x | x in entries ensures x in Flat(entries) {
        if x != entries[0] {
          assert x in entries[1..];
        }
      }
    }
  }

  /** Only entries of the tree are ever shown. */
  lemma {:induction false} FlatInside(entries: seq<FileEntry>)
    requires AllValid(entries)
    ensures forall x :: x in Flat(entries) ==> x in Footprint(entries)
    decreases Footprint(entries), 1, |entries|
  {
    if entries != [] {
      var e := entries[0];
      assert e.repr <= Footprint(entries);
      assert AllValid(entries[1..]);
      VisibleInside(e);
      FlatInside(entries[1..]);
      assert Footprint(entries[1..]) <= Footprint(entries);
    }
  }

  lemma {:induction false} VisibleInside(e: FileEntry)
    requires e.Valid()
    ensures forall x :: x in Visible(e) ==> x in e.repr
    decreases e.repr, 0
  {
    ChildrenInside(e);
    if e.isDir && e.expanded {
      FlatInside(e.children);
    }
  }
}
