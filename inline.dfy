/** Inline rendering: text, emphasis, links, statistics cookies, timestamps,
    footnote references and line breaks, each through its style role. */
module Inline {
  import opened Bytes
  import opened Document
  import opened Styles
  import Timestamps

  /** renderInlineNodes: the nodes rendered one after another. */
  function InlineNodes(r: Renderer, ns: seq<Node>): Bytes
    decreases ns
  {
    if ns == [] then [] else InlineNode(r, ns[0]) + InlineNodes(r, ns[1..])
  }

  /** renderInlineNode */
  function InlineNode(r: Renderer, n: Node): Bytes
    decreases n
  {
    match n
    case Text(content) => Timestamps.RenderText(r.theme, content)
    case Emphasis(kind, inner) => EmphasisOut(r.theme, kind, InlineNodes(r, inner))
    case RegularLink(url, description) =>
      LinkOut(r.theme, url, if |description| > 0 then InlineNodes(r, description) else url)
    case StatisticToken(token) => r.theme.apply(Role.Statistics, [LBRACKET] + token + [RBRACKET])
    case Timestamp(day, clock, isDate, interval) =>
      r.theme.apply(Role.Timestamp, ICON_CALENDAR + [SPACE] + TimestampText(day, clock, isDate, interval))
    case FootnoteLink(name) => r.theme.apply(Role.FootnoteRef, [LBRACKET] + name + [RBRACKET])
    case ExplicitLineBreak => [NEWLINE]
    case LineBreak => [NEWLINE]
    case _ => r.show(n)
  }

  /** The style role of an emphasis marker, as go-org reports the marker
      character itself as the kind; None for any other kind. */
  function EmphasisRole(kind: Bytes): Option<Role> {
    if kind == Ascii("*") then Some(Role.Bold)
    else if kind == Ascii("/") then Some(Role.Italic)
    else if kind == Ascii("_") then Some(Role.Underline)
    else if kind == Ascii("=") then Some(Role.Verbatim)
    else if kind == Ascii("~") then Some(Role.InlineCode)
    else if kind == Ascii("+") then Some(Role.Strikethrough)
    else None
  }

  /** renderEmphasis, given the rendered content. */
  function EmphasisOut(theme: Theme, kind: Bytes, content: Bytes): Bytes {
    match EmphasisRole(kind)
    case Some(role) => theme.apply(role, content)
    case None => content
  }

  /** The six markers get six different roles, and every other kind leaves
      its content unstyled. */
  lemma EmphasisRoles(theme: Theme, kind: Bytes, content: Bytes)
    ensures EmphasisRole(kind).Some? <==>
            kind in [Ascii("*"), Ascii("/"), Ascii("_"), Ascii("="), Ascii("~"), Ascii("+")]
    ensures EmphasisRole(kind).None? ==> EmphasisOut(theme, kind, content) == content
    ensures forall k1, k2 :: EmphasisRole(k1).Some? && EmphasisRole(k1) == EmphasisRole(k2) ==> k1 == k2
  {
  }

  /** The time part of renderTimestamp: the day ("2006-01-02 Mon"), the
      clock ("15:04") unless the timestamp is a bare date, and the
      repeater or interval when there is one. */
  function TimestampText(day: Bytes, clock: Bytes, isDate: bool, interval: Bytes): (t: Bytes)
    ensures HasPrefix(t, day)
    ensures !isDate ==> HasPrefix(t, day + [SPACE] + clock)
    ensures interval != [] ==> HasSuffix(t, [SPACE] + interval)
    ensures |t| == |day| + (if isDate then 0 else 1 + |clock|) + (if interval == [] then 0 else 1 + |interval|)
    ensures isDate && interval == [] ==> t == day
  {
    var formatted := if isDate then day else day + [SPACE] + clock;
    if interval != [] then formatted + [SPACE] + interval else formatted
  }

  const MaxLinkText: nat := 40
  const ELLIPSIS: Bytes := [DOT, DOT, DOT]

  /** The display text of renderLink: at most 40 bytes, text longer than
      that cut after byte 37 and closed with "...". */
  function Truncate(text: Bytes): (d: Bytes)
    ensures |d| <= MaxLinkText
    ensures |text| <= MaxLinkText <==> d == text
    ensures |text| > MaxLinkText ==> |d| == MaxLinkText && d == text[..MaxLinkText - 3] + ELLIPSIS
  {
    if |text| > MaxLinkText then text[..MaxLinkText - 3] + ELLIPSIS else text
  }

  /** Truncating twice is truncating once. */
  lemma TruncateIdempotent(text: Bytes)
    ensures Truncate(Truncate(text)) == Truncate(text)
  {
  }

  /** What renderLink's switch recognises in a URL, in the order it asks. */
  datatype LinkKind = Web | LocalFile | Mail | OrgPage | Unknown

  function Classify(url: Bytes): LinkKind {
    if HasPrefix(url, Ascii("http://")) || HasPrefix(url, Ascii("https://")) then Web
    else if HasPrefix(url, Ascii("file:")) then LocalFile
    else if HasPrefix(url, Ascii("mailto:")) then Mail
    else if HasSuffix(url, Ascii(".org")) then OrgPage
    else Unknown
  }

  function Icon(kind: LinkKind): (i: Bytes)
    ensures |i| > 0 && i[0] >= 0x80
  {
    match kind
    case Web => ICON_WEB
    case LocalFile => ICON_FILE
    case Mail => ICON_MAIL
    case OrgPage => ICON_ORG
    case Unknown => ICON_ARROW
  }

  /** renderLink, given the text (the rendered description, or the URL). */
  function LinkOut(theme: Theme, url: Bytes, text: Bytes): Bytes {
    theme.apply(Role.Link, Icon(Classify(url)) + [SPACE] + Truncate(text))
  }

  /** Each kind has its own icon, so the icon tells the kind back. */
  lemma IconInjective(k1: LinkKind, k2: LinkKind)
    ensures Icon(k1) == Icon(k2) <==> k1 == k2
  {
    if k1 != k2 {
      var i1, i2 := Icon(k1), Icon(k2);
      assert i1[|i1| - 1] != i2[|i2| - 1];
    }
  }

  /** The icon follows the first test that holds: a web URL wins over
      everything, a file: or mailto: URL ending in ".org" keeps its own icon,
      and only a URL none of the four tests accepts gets the arrow. */
  lemma ClassifyOrder(url: Bytes)
    ensures (HasPrefix(url, Ascii("http://")) || HasPrefix(url, Ascii("https://"))) <==> Classify(url) == Web
    ensures Classify(url) == LocalFile <==> HasPrefix(url, Ascii("file:"))
    ensures Classify(url) == Mail <==> HasPrefix(url, Ascii("mailto:")) && !HasPrefix(url, Ascii("file:"))
    ensures Classify(url) == OrgPage <==>
              HasSuffix(url, Ascii(".org")) && !HasPrefix(url, Ascii("http://"))
              && !HasPrefix(url, Ascii("https://")) && !HasPrefix(url, Ascii("file:"))
              && !HasPrefix(url, Ascii("mailto:"))
  {
    // "file:" and "mailto:" start with 'f' and 'm', the web prefixes with 'h'.
    var f, m := Ascii("file:"), Ascii("mailto:");
    if HasPrefix(url, f) {
      assert url[0] == f[0] == 102;
    }
    if HasPrefix(url, m) {
      assert url[0] == m[0] == 109;
    }
  }

  /** A link with the identity styles: the icon of its URL, one space and
      the shortened text, which is the URL when the link has no description
      and the rendered description when it has one. A described link shows
      its URL only through the icon: two URLs of the same kind look alike. */
  lemma LinkPlain(r: Renderer, url: Bytes, other: Bytes, desc: seq<Node>)
    requires r.theme == Plain()
    ensures desc == [] ==> InlineNode(r, RegularLink(url, desc)) == Icon(Classify(url)) + [SPACE] + Truncate(url)
    ensures desc != [] ==>
              InlineNode(r, RegularLink(url, desc)) == Icon(Classify(url)) + [SPACE] + Truncate(InlineNodes(r, desc))
    ensures desc != [] && Textual(desc) ==>
              InlineNode(r, RegularLink(url, desc)) == Icon(Classify(url)) + [SPACE] + Truncate(Raw(desc))
    ensures desc != [] && Classify(other) == Classify(url) ==>
              InlineNode(r, RegularLink(other, desc)) == InlineNode(r, RegularLink(url, desc))
  {
    if desc != [] && Textual(desc) {
      InlinePlainRaw(r, desc);
    }
  }

  /** A timestamp with the identity styles: the calendar icon, one space and
      the formatted time. */
  lemma TimestampPlain(r: Renderer, day: Bytes, clock: Bytes, isDate: bool, interval: Bytes)
    requires r.theme == Plain()
    ensures InlineNode(r, Node.Timestamp(day, clock, isDate, interval))
            == ICON_CALENDAR + [SPACE] + TimestampText(day, clock, isDate, interval)
  {
  }

  /** Rendering distributes over concatenation of node lists. */
  lemma {:induction false} InlineNodesAppend(r: Renderer, a: seq<Node>, b: seq<Node>)
    ensures InlineNodes(r, a + b) == InlineNodes(r, a) + InlineNodes(r, b)
  {
    if a == [] {
      assert a + b == b;
    } else {
      assert (a + b)[0] == a[0];
      assert (a + b)[1..] == a[1..] + b;
      InlineNodesAppend(r, a[1..], b);
    }
  }

  /** renderInlineNodes as the source writes it: a builder the nodes'
      renderings are appended to in order. */
  method WriteInlineNodes(r: Renderer, ns: seq<Node>) returns (out: Bytes)
    ensures out == InlineNodes(r, ns)
  {
    out := [];
    var i := 0;
    while i < |ns|
      invariant 0 <= i <= |ns|
      invariant out + InlineNodes(r, ns[i..]) == InlineNodes(r, ns)
    {
      assert ns[i..][1..] == ns[i + 1..];
      out := out + InlineNode(r, ns[i]);
      i := i + 1;
    }
  }

  /** The renderer with the identity styles. */
  function PlainRenderer(r: Renderer): (p: Renderer)
    ensures p.theme == Plain() && p.width == r.width
  {
    Renderer(Plain(), r.width, r.highlighter, r.show)
  }

  /** Text made only of Text, Emphasis and line-break nodes. */
  predicate Textual(ns: seq<Node>)
    decreases ns
  {
    forall i :: 0 <= i < |ns| ==> TextualNode(ns[i])
  }

  predicate TextualNode(n: Node)
    decreases n
  {
    match n
    case Text(_) => true
    case Emphasis(_, inner) => Textual(inner)
    case ExplicitLineBreak => true
    case LineBreak => true
    case _ => false
  }

  /** The source text such nodes stand for: text as written, emphasis by its
      content, a newline for each line break. */
  function Raw(ns: seq<Node>): Bytes
    requires Textual(ns)
    decreases ns
  {
    if ns == [] then []
    else
      assert TextualNode(ns[0]);
      (match ns[0]
       case Text(c) => c
       case Emphasis(_, inner) => Raw(inner)
       case _ => [NEWLINE])
      + Raw(ns[1..])
  }

  /** With the identity styles, text and emphasis render to their raw text:
      styling neither drops, reorders nor adds a byte. */
  lemma {:induction false} InlinePlainRaw(r: Renderer, ns: seq<Node>)
    requires r.theme == Plain() && Textual(ns)
    ensures InlineNodes(r, ns) == Raw(ns)
    decreases ns
  {
    if ns != [] {
      assert TextualNode(ns[0]);
      assert Textual(ns[1..]) by {
        forall i | 0 <= i < |ns[1..]| ensures TextualNode(ns[1..][i]) {
          assert ns[1..][i] == ns[i + 1];
        }
      }
      InlinePlainRaw(r, ns[1..]);
      match ns[0]
      case Text(c) => Timestamps.RenderTextPlain(c);
      case Emphasis(kind, inner) =>
        InlinePlainRaw(r, inner);
      case ExplicitLineBreak =>
      case LineBreak =>
    }
  }
}
