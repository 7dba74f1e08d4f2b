/** Slash-separated paths: Go's filepath.Clean and filepath.Join on a
    system whose separator is '/'. */
module FilePath {
  import opened Bytes

  const SLASH: byte := 47
  const DOTDOT: Bytes := [DOT, DOT]

  /** The elements between the slashes, empty ones included: "a//b/" has
      the elements "a", "", "b" and "". */
  function Split(p: Bytes): (parts: seq<Bytes>)
    ensures |parts| >= 1
    decreases |p|
  {
    var i := IndexOf(p, SLASH);
    if i < 0 then [p] else [p[..i]] + Split(p[i + 1..])
  }

  /** No element holds a slash. */
  lemma {:induction false} SplitElems(p: Bytes)
    ensures forall i :: 0 <= i < |Split(p)| ==> SLASH !in Split(p)[i]
    decreases |p|
  {
    IndexOfFirst(p, SLASH);
    var i := IndexOf(p, SLASH);
    if i >= 0 {
      SplitElems(p[i + 1..]);
    }
  }

  /** One element of Clean's walk: empty elements and "." go; ".." removes
      the element before it unless that is itself ".."; at the root a ".."
      with nothing before it goes too. */
  function Push(stack: seq<Bytes>, elem: Bytes, rooted: bool): seq<Bytes> {
    if elem == [] || elem == [DOT] then stack
    else if elem == DOTDOT then
      if |stack| > 0 && stack[|stack| - 1] != DOTDOT then stack[..|stack| - 1]
      else if rooted then stack
      else stack + [elem]
    else stack + [elem]
  }

  /** The elements that survive Clean, walking left to right. */
  function Walk(elems: seq<Bytes>, rooted: bool): seq<Bytes>
    decreases |elems|
  {
    if elems == [] then []
    else Push(Walk(elems[..|elems| - 1], rooted), elems[|elems| - 1], rooted)
  }

  /** filepath.Clean: single slashes, no "." elements, every ".." that can
      be resolved resolved, no ".." right under the root, and "." for a path
      that comes out empty. */
  function Clean(p: Bytes): (c: Bytes)
    ensures c != []
  {
    var rooted := |p| > 0 && p[0] == SLASH;
    var body := Join(Walk(Split(p), rooted), [SLASH]);
    if rooted then [SLASH] + body
    else if body == [] then [DOT] else body
  }

  /** filepath.Join of two elements: the non-empty ones joined by a slash
      and cleaned; "" when both are empty. */
  function PathJoin(dir: Bytes, name: Bytes): Bytes {
    if dir != [] then Clean(dir + [SLASH] + name)
    else if name != [] then Clean(name)
    else []
  }

  /** A name a directory listing can hold: one element that Clean keeps. */
  predicate PlainName(name: Bytes) {
    name != [] && name != [DOT] && name != DOTDOT && SLASH !in name
  }

  /** What a stack of kept elements looks like: no empty or "." element, no
      slash inside an element, and the ".." elements, which only a relative
      path keeps, all in front. */
  predicate CleanStack(s: seq<Bytes>, rooted: bool) {
    && (forall i :: 0 <= i < |s| ==> s[i] != [] && s[i] != [DOT] && SLASH !in s[i])
    && (forall i :: 0 <= i < |s| && s[i] == DOTDOT ==> !rooted)
    && (forall i, j :: 0 <= i < j < |s| && s[j] == DOTDOT ==> s[i] == DOTDOT)
  }

  // The walk.

  lemma {:induction false} WalkClean(elems: seq<Bytes>, rooted: bool)
    requires forall i :: 0 <= i < |elems| ==> SLASH !in elems[i]
    ensures CleanStack(Walk(elems, rooted), rooted)
    decreases |elems|
  {
    if elems != [] {
      var init := elems[..|elems| - 1];
      WalkClean(init, rooted);
    }
  }

  lemma CleanStackInit(s: seq<Bytes>, rooted: bool)
    requires s != [] && CleanStack(s, rooted)
    ensures CleanStack(s[..|s| - 1], rooted)
  {
  }

  /** Pushing an element a clean stack may end with keeps it. */
  lemma PushKeeps(init: seq<Bytes>, last: Bytes, rooted: bool)
    requires last != [] && last != [DOT]
    requires last == DOTDOT ==> !rooted && (init != [] ==> init[|init| - 1] == DOTDOT)
    ensures Push(init, last, rooted) == init + [last]
  {
  }

  /** Walking a stack that is already clean keeps every element. */
  lemma {:induction false} WalkKeepsClean(s: seq<Bytes>, rooted: bool)
    requires CleanStack(s, rooted)
    ensures Walk(s, rooted) == s
    decreases |s|
  {
    if s != [] {
      var n := |s|;
      var init := s[..n - 1];
      var last := s[n - 1];
      CleanStackInit(s, rooted);
      WalkKeepsClean(init, rooted);
      assert last != [] && last != [DOT];
      if last == DOTDOT && n > 1 {
        assert s[n - 2] == DOTDOT;
        assert init[n - 2] == s[n - 2];
      }
      PushKeeps(init, last, rooted);
      assert s == init + [last];
    }
  }

  lemma WalkSnoc(elems: seq<Bytes>, e: Bytes, rooted: bool)
    ensures Walk(elems + [e], rooted) == Push(Walk(elems, rooted), e, rooted)
  {
    assert (elems + [e])[..|elems|] == elems;
  }

  // Splitting and joining.

  lemma {:induction false} SplitNoSlash(p: Bytes)
    requires SLASH !in p
    ensures Split(p) == [p]
  {
    IndexOfFirst(p, SLASH);
  }

  /** IndexOf answers the position of a byte that nothing before it equals. */
  lemma {:induction false} IndexOfAt(s: Bytes, b: byte, k: nat)
    requires k < |s| && s[k] == b && b !in s[..k]
    ensures IndexOf(s, b) == k
    decreases k
  {
    if k > 0 {
      assert s[0] == s[..k][0];
      assert s[1..][..k - 1] == s[..k][1..];
      IndexOfAt(s[1..], b, k - 1);
    }
  }

  /** Split cuts at the first slash. */
  lemma SplitAt(p: Bytes, k: nat)
    requires k < |p| && p[k] == SLASH && SLASH !in p[..k]
    ensures Split(p) == [p[..k]] + Split(p[k + 1..])
  {
    IndexOfAt(p, SLASH, k);
  }

  /** The slices of `a/b` that Split takes. */
  lemma CutJoined(a: Bytes, b: Bytes, i: nat)
    requires i <= |a|
    ensures (a + [SLASH] + b)[..i] == a[..i]
    ensures i < |a| ==> (a + [SLASH] + b)[i + 1..] == a[i + 1..] + [SLASH] + b
    ensures i == |a| ==> (a + [SLASH] + b)[i] == SLASH && (a + [SLASH] + b)[i + 1..] == b
  {
  }

  /** The elements of `a/b` are those of a followed by those of b. */
  lemma {:induction false} SplitAppend(a: Bytes, b: Bytes)
    ensures Split(a + [SLASH] + b) == Split(a) + Split(b)
    decreases |a|
  {
    IndexOfFirst(a, SLASH);
    var i := IndexOf(a, SLASH);
    if i < 0 {
      CutJoined(a, b, |a|);
      assert a[..|a|] == a;
      SplitAt(a + [SLASH] + b, |a|);
      SplitNoSlash(a);
    } else {
      var rest := a[i + 1..];
      CutJoined(a, b, i);
      SplitAt(a + [SLASH] + b, i);
      SplitAt(a, i);
      SplitAppend(rest, b);
      Regroup([a[..i]], Split(rest), Split(b));
    }
  }

  lemma Regroup(x: seq<Bytes>, y: seq<Bytes>, z: seq<Bytes>)
    ensures x + (y + z) == (x + y) + z
  {
  }

  lemma JoinSnoc(s: seq<Bytes>, e: Bytes, sep: Bytes)
    requires s != []
    ensures Join(s + [e], sep) == Join(s, sep) + sep + e
    decreases |s|
  {
    if |s| > 1 {
      assert (s + [e])[1..] == s[1..] + [e];
      JoinSnoc(s[1..], e, sep);
    }
  }

  lemma SplitJoinStep(x: Bytes, rest: seq<Bytes>)
    requires SLASH !in x && rest != [] && Split(Join(rest, [SLASH])) == rest
    ensures Split(Join([x] + rest, [SLASH])) == [x] + rest
  {
    var s := [x] + rest;
    assert s[0] == x && s[1..] == rest;
    assert Join(s, [SLASH]) == x + [SLASH] + Join(rest, [SLASH]);
    SplitAppend(x, Join(rest, [SLASH]));
    SplitNoSlash(x);
  }

  /** Joining elements without slashes and splitting again gives them back. */
  lemma {:induction false} SplitJoin(s: seq<Bytes>)
    requires s != [] && forall i :: 0 <= i < |s| ==> SLASH !in s[i]
    ensures Split(Join(s, [SLASH])) == s
    decreases |s|
  {
    if |s| == 1 {
      SplitNoSlash(s[0]);
    } else {
      var rest := s[1..];
      assert forall i :: 0 <= i < |rest| ==> SLASH !in rest[i] by {
        forall i | 0 <= i < |rest| ensures SLASH !in rest[i] { assert rest[i] == s[i + 1]; }
      }
      SplitJoin(rest);
      SplitJoinStep(s[0], rest);
      assert s == [s[0]] + rest;
    }
  }

  lemma {:induction false} JoinNonEmpty(s: seq<Bytes>)
    requires s != [] && s[0] != []
    ensures Join(s, [SLASH]) != [] && Join(s, [SLASH])[0] == s[0][0]
  {
    if |s| > 1 {
      assert Join(s, [SLASH]) == s[0] + ([SLASH] + Join(s[1..], [SLASH]));
    }
  }

  /** The path Clean writes for the kept elements. */
  function Assemble(stack: seq<Bytes>, rooted: bool): Bytes {
    var body := Join(stack, [SLASH]);
    if rooted then [SLASH] + body
    else if body == [] then [DOT] else body
  }

  lemma CleanIsAssemble(p: Bytes)
    ensures Clean(p) == Assemble(Walk(Split(p), |p| > 0 && p[0] == SLASH), |p| > 0 && p[0] == SLASH)
  {
  }

  // What Clean and PathJoin promise.

  /** With nothing kept, Clean writes "/" or ".", and both are clean. */
  lemma CleanEmptyStack(rooted: bool)
    ensures Clean(Assemble([], rooted)) == Assemble([], rooted)
  {
    var none: Bytes := [];
    var c := Assemble([], rooted);
    if rooted {
      assert c == none + [SLASH] + none;
      SplitAppend(none, none);
      SplitNoSlash(none);
      var one: seq<Bytes> := [none];
      var two: seq<Bytes> := [none, none];
      assert Split(c) == two;
      assert two[..1] == one && one[..0] == [];
      assert Walk(one, true) == Push([], none, true) == [];
      assert Walk(two, true) == Push([], none, true) == [];
    } else {
      var dot: Bytes := [DOT];
      assert c == dot;
      SplitNoSlash(dot);
      var one: seq<Bytes> := [dot];
      assert one[..0] == [] && Walk(one, false) == [];
    }
    CleanIsAssemble(c);
  }

  /** A rooted path splits into an empty element and the elements after the
      root. */
  lemma SplitRooted(body: Bytes)
    ensures Split([SLASH] + body) == [[]] + Split(body)
  {
    var none: Bytes := [];
    assert [SLASH] + body == none + [SLASH] + body;
    SplitAppend(none, body);
    SplitNoSlash(none);
  }

  lemma {:induction false} CleanRootedStack(stack: seq<Bytes>)
    requires stack != [] && CleanStack(stack, true)
    ensures Clean(Assemble(stack, true)) == Assemble(stack, true)
  {
    var body := Join(stack, [SLASH]);
    var c := [SLASH] + body;
    SplitJoin(stack);
    WalkKeepsClean(stack, true);
    SplitRooted(body);
    WalkPrefixEmpty(stack, true);
    CleanIsAssemble(c);
  }

  lemma {:induction false} CleanRelativeStack(stack: seq<Bytes>)
    requires stack != [] && CleanStack(stack, false)
    ensures Clean(Assemble(stack, false)) == Assemble(stack, false)
  {
    var body := Join(stack, [SLASH]);
    JoinNonEmpty(stack);
    assert body[0] != SLASH by { assert body[0] == stack[0][0] && SLASH !in stack[0]; }
    assert Assemble(stack, false) == body;
    SplitJoin(stack);
    WalkKeepsClean(stack, false);
    CleanIsAssemble(body);
  }

  /** Cleaning a clean path changes nothing. */
  lemma CleanIdempotent(p: Bytes)
    ensures Clean(Clean(p)) == Clean(p)
  {
    var rooted := |p| > 0 && p[0] == SLASH;
    var stack := Walk(Split(p), rooted);
    SplitElems(p);
    WalkClean(Split(p), rooted);
    CleanIsAssemble(p);
    if stack == [] {
      CleanEmptyStack(rooted);
    } else if rooted {
      CleanRootedStack(stack);
    } else {
      CleanRelativeStack(stack);
    }
  }

  lemma {:induction false} WalkPrefixEmpty(s: seq<Bytes>, rooted: bool)
    ensures Walk([[]] + s, rooted) == Walk(s, rooted)
    decreases |s|
  {
    if s == [] {
      var one: seq<Bytes> := [[]];
      assert [[]] + s == one && one[..0] == [];
    } else {
      var init := s[..|s| - 1];
      WalkPrefixEmpty(init, rooted);
      assert ([[]] + s)[..|s|] == [[]] + init;
    }
  }

  /** Joining a plain name onto a non-empty path pushes it onto the kept
      elements of the path. */
  lemma JoinedStack(dir: Bytes, name: Bytes)
    requires dir != [] && PlainName(name)
    ensures var rooted := dir[0] == SLASH;
            Clean(dir + [SLASH] + name) == Assemble(Walk(Split(dir), rooted) + [name], rooted)
  {
    var rooted := dir[0] == SLASH;
    var p := dir + [SLASH] + name;
    assert p[0] == dir[0];
    SplitNoSlash(name);
    SplitAppend(dir, name);
    WalkSnoc(Split(dir), name, rooted);
    CleanIsAssemble(p);
  }

  lemma {:induction false} AssembleSnoc(stack: seq<Bytes>, name: Bytes, rooted: bool)
    requires name != [] && (stack != [] ==> stack[0] != [])
    ensures Assemble(stack + [name], rooted)
            == if stack == [] then (if rooted then [SLASH] + name else name)
               else Assemble(stack, rooted) + [SLASH] + name
  {
    if stack == [] {
      var one: seq<Bytes> := [name];
      assert stack + [name] == one;
      assert Join(one, [SLASH]) == name;
    } else {
      JoinSnoc(stack, name, [SLASH]);
      JoinNonEmpty(stack);
    }
  }

  /** Joining a plain name onto a path puts it under the cleaned path: the
      name alone under ".", after the root under "/", and after a slash
      otherwise. */
  lemma PathJoinPlain(dir: Bytes, name: Bytes)
    requires PlainName(name)
    ensures PathJoin(dir, name)
            == if dir == [] || Clean(dir) == [DOT] then name
               else if Clean(dir) == [SLASH] then [SLASH] + name
               else Clean(dir) + [SLASH] + name
  {
    if dir == [] {
      SplitNoSlash(name);
      WalkSnoc([], name, false);
      assert [] + [name] == [name];
      CleanIsAssemble(name);
    } else {
      var rooted := dir[0] == SLASH;
      var stack := Walk(Split(dir), rooted);
      JoinedStack(dir, name);
      SplitElems(dir);
      WalkClean(Split(dir), rooted);
      CleanIsAssemble(dir);
      if stack != [] {
        assert stack[0] != [] && stack[0] != [DOT];
        JoinNonEmpty(stack);
      }
      AssembleSnoc(stack, name, rooted);
    }
  }

  /** A name joined onto a path is what the joined path ends with. */
  lemma PathJoinEndsWithName(dir: Bytes, name: Bytes)
    requires PlainName(name)
    ensures HasSuffix(PathJoin(dir, name), name)
  {
    PathJoinPlain(dir, name);
  }

  /** A leading "./" goes: "./name" cleans to "name". */
  lemma CleanDotSlash(name: Bytes)
    requires PlainName(name)
    ensures Clean([DOT, SLASH] + name) == name
  {
    assert [DOT, SLASH] + name == [DOT] + [SLASH] + name;
    SplitAppend([DOT], name);
    SplitNoSlash([DOT]);
    SplitNoSlash(name);
    var elems: seq<Bytes> := [[DOT], name];
    var one: seq<Bytes> := [[DOT]];
    assert elems[..1] == one && one[..0] == [];
    assert Walk(one, false) == [];
    assert Walk(elems, false) == Push([], name, false) == [name];
  }

  /** A trailing slash goes: "name/" cleans to "name". */
  lemma CleanTrailingSlash(name: Bytes)
    requires PlainName(name)
    ensures Clean(name + [SLASH]) == name
  {
    assert name + [SLASH] == name + [SLASH] + [];
    SplitAppend(name, []);
    SplitNoSlash([]);
    SplitNoSlash(name);
    var elems: seq<Bytes> := [name, []];
    var one: seq<Bytes> := [name];
    assert elems[..1] == one && one[..0] == [];
    assert Walk(one, false) == Push([], name, false) == [name];
    assert Walk(elems, false) == [name];
    assert (name + [SLASH])[0] == name[0];
  }

  lemma NameBytes()
    ensures PlainName(Ascii("a.org"))
  {
    var name := Ascii("a.org");
    assert name == [97, 46, 111, 114, 103];
  }

  lemma OrgfilesBytes()
    ensures PlainName(Ascii("orgfiles"))
    ensures Ascii("./orgfiles") == [DOT, SLASH] + Ascii("orgfiles")
    ensures Ascii("orgfiles/a.org") == Ascii("orgfiles") + [SLASH] + Ascii("a.org")
  {
    var dir := Ascii("orgfiles");
    assert dir == [111, 114, 103, 102, 105, 108, 101, 115];
  }

  lemma NotesBytes()
    ensures PlainName(Ascii("notes"))
    ensures Ascii("notes/") == Ascii("notes") + [SLASH]
    ensures Ascii("notes/a.org") == Ascii("notes") + [SLASH] + Ascii("a.org")
  {
    var dir := Ascii("notes");
    assert dir == [110, 111, 116, 101, 115];
  }

  /** The directory given on the command line is cleaned in every path
      made from it: joining "a.org" onto "./orgfiles" gives
      "orgfiles/a.org". */
  lemma PathJoinDropsDotSlash()
    ensures PathJoin(Ascii("./orgfiles"), Ascii("a.org")) == Ascii("orgfiles/a.org")
  {
    NameBytes();
    OrgfilesBytes();
    CleanDotSlash(Ascii("orgfiles"));
    PathJoinPlain(Ascii("./orgfiles"), Ascii("a.org"));
  }

  /** Joining "a.org" onto "notes/" gives "notes/a.org", with one slash. */
  lemma PathJoinDropsTrailingSlash()
    ensures PathJoin(Ascii("notes/"), Ascii("a.org")) == Ascii("notes/a.org")
  {
    NameBytes();
    NotesBytes();
    CleanTrailingSlash(Ascii("notes"));
    PathJoinPlain(Ascii("notes/"), Ascii("a.org"));
  }
}
