/** The block-level renderer: the node dispatch, headlines, blocks,
    paragraphs, lists, keywords, drawers, footnote definitions and the
    horizontal rule. Inline content and tables come from their own modules. */
module Render {
  import opened Bytes
  import opened Utf8
  import opened Document
  import opened Styles
  import opened Inline
  import Tables

  /** RenderNodes: every node that renders to something, each followed by a
      newline; nodes that render to "" leave no trace. */
  function RenderNodes(r: Renderer, ns: seq<Node>): Bytes
    decreases ns, 0
  {
    if ns == [] then []
    else
      var out := RenderNode(r, ns[0]);
      (if out == [] then [] else out + [NEWLINE]) + RenderNodes(r, ns[1..])
  }

  /** RenderNode: the dispatch on the node kind; inline kinds and kinds the
      renderer does not know render to "". */
  function RenderNode(r: Renderer, n: Node): Bytes
    decreases n, 0
  {
    match n
    case Headline(lvl, status, priority, tags, title, children) =>
      r.theme.apply(HeadingRole(lvl), HeadlineText(r, lvl, status, priority, tags, title))
      + [NEWLINE] + RenderNodes(r, children)
    case Block(name, parameters, children) => BlockOut(r, name, parameters, children)
    case Paragraph(children) => r.theme.applyWidth(Role.Paragraph, r.width - 4, InlineNodes(r, children))
    case List(items) => ListOut(r, items)
    case ListItem(bullet, status, children) => ListItemOut(r, bullet, status, children, 0)
    case DescriptiveListItem(term, details) => DescriptiveItem(r, term, details)
    case Table(rows) => Tables.TableOut(r, rows)
    case HorizontalRule => HorizontalRule(r)
    case Keyword(key, value) => KeywordOut(r.theme, key, value)
    case PropertyDrawer(properties) => PropertyDrawerOut(r.theme, properties)
    case Drawer(name, children) =>
      r.theme.apply(Role.DrawerHeader, [COLON] + name + [COLON]) + [NEWLINE]
      + InlineNodes(r, children) + [NEWLINE] + r.theme.apply(Role.DrawerHeader, END)
    case Example(children) => r.theme.applyWidth(Role.Example, r.width - 6, ExtractBlockText(r, children))
    case FootnoteDefinition(name, children) =>
      r.theme.apply(Role.FootnoteLabel, [LBRACKET] + name + [RBRACKET]) + [SPACE]
      + r.theme.apply(Role.FootnoteContent, InlineNodes(r, children))
    case _ => []
  }

  /** Inline kinds and kinds the dispatch does not know render to nothing
      at block level, and the node list then skips them without a newline. */
  lemma DispatchSkips(r: Renderer, n: Node, ns: seq<Node>)
    requires n.Text? || n.Emphasis? || n.RegularLink? || n.StatisticToken? || n.Timestamp?
             || n.FootnoteLink? || n.ExplicitLineBreak? || n.LineBreak? || n.Other?
    ensures RenderNode(r, n) == []
    ensures RenderNodes(r, [n] + ns) == RenderNodes(r, ns)
  {
    assert ([n] + ns)[1..] == ns;
  }

  const COLON: byte := 58
  const END: Bytes := Ascii(":END:")
  const PROPERTIES: Bytes := Ascii(":PROPERTIES:")

  // Headlines.

  function HeadingRole(lvl: nat): Role {
    if lvl == 1 then Role.Heading1
    else if lvl == 2 then Role.Heading2
    else if lvl == 3 then Role.Heading3
    else Role.Heading4
  }

  /** DONE is styled as done; any other keyword as still to do. */
  function StatusOut(theme: Theme, status: Bytes): Bytes {
    if status == [] then []
    else if status == Ascii("DONE") then theme.apply(Role.Done, status) + [SPACE]
    else theme.apply(Role.Todo, status) + [SPACE]
  }

  function PriorityOut(theme: Theme, priority: Bytes): Bytes {
    if priority == [] then [] else theme.apply(Role.Priority, Ascii("[#") + priority + [RBRACKET]) + [SPACE]
  }

  function TagsOut(theme: Theme, tags: seq<Bytes>): Bytes {
    if tags == [] then [] else [SPACE] + theme.apply(Role.Tag, [COLON] + Join(tags, [COLON]) + [COLON])
  }

  /** The headline line before the level style: `%s %s%s%s%s` of stars,
      status, priority, title and tags. */
  function HeadlineText(r: Renderer, lvl: nat, status: Bytes, priority: Bytes,
                        tags: seq<Bytes>, title: seq<Node>): Bytes {
    Repeat(STAR, lvl) + [SPACE] + StatusOut(r.theme, status) + PriorityOut(r.theme, priority)
    + InlineNodes(r, title) + TagsOut(r.theme, tags)
  }

  /** A headline line opens with one star per level and a space. */
  lemma HeadlineStars(r: Renderer, lvl: nat, status: Bytes, priority: Bytes,
                      tags: seq<Bytes>, title: seq<Node>)
    ensures HasPrefix(HeadlineText(r, lvl, status, priority, tags, title), Repeat(STAR, lvl) + [SPACE])
    ensures RuneCount(Repeat(STAR, lvl) + [SPACE]) == lvl + 1
  {
    var head := Repeat(STAR, lvl) + [SPACE];
    var rest := StatusOut(r.theme, status) + PriorityOut(r.theme, priority)
                + InlineNodes(r, title) + TagsOut(r.theme, tags);
    assert HeadlineText(r, lvl, status, priority, tags, title) == head + rest;
    PrefixOfAppend(head, rest);
    StarsRunes(lvl);
  }

  lemma StarsRunes(lvl: nat)
    ensures RuneCount(Repeat(STAR, lvl) + [SPACE]) == lvl + 1
  {
    StarRune();
    RuneCountRepeat(STAR, lvl);
    RuneCountConcatValid(Repeat(STAR, lvl), [SPACE]);
    Tables.OneSpace();
  }

  lemma StarRune()
    ensures Valid(STAR) && RuneCount(STAR) == 1
  {
    assert STAR[3..] == [] && Decode(STAR) == (Decode(STAR).0, 3);
  }

  /** With the identity styles the headline's parts follow in the order
      stars, status, priority, title, tags, each optional part with its own
      separating space. */
  lemma HeadlinePlain(r: Renderer, lvl: nat, status: Bytes, priority: Bytes,
                      tags: seq<Bytes>, title: seq<Node>)
    requires r.theme == Plain()
    ensures HeadlineText(r, lvl, status, priority, tags, title)
            == Repeat(STAR, lvl) + [SPACE]
               + (if status == [] then [] else status + [SPACE])
               + (if priority == [] then [] else Ascii("[#") + priority + [RBRACKET, SPACE])
               + InlineNodes(r, title)
               + (if tags == [] then [] else [SPACE, COLON] + Join(tags, [COLON]) + [COLON])
  {
    assert StatusOut(r.theme, status) == (if status == [] then [] else status + [SPACE]);
    assert PriorityOut(r.theme, priority)
           == (if priority == [] then [] else Ascii("[#") + priority + [RBRACKET, SPACE]);
    assert TagsOut(r.theme, tags) == (if tags == [] then [] else [SPACE, COLON] + Join(tags, [COLON]) + [COLON]);
  }

  /** The four heading styles go to levels 1, 2, 3 and everything deeper,
      one level per style. */
  lemma HeadingRoles(lvl: nat)
    ensures HeadingRole(lvl) == Role.Heading1 <==> lvl == 1
    ensures HeadingRole(lvl) == Role.Heading2 <==> lvl == 2
    ensures HeadingRole(lvl) == Role.Heading3 <==> lvl == 3
    ensures HeadingRole(lvl) == Role.Heading4 <==> lvl == 0 || lvl >= 4
    ensures lvl >= 4 ==> HeadingRole(lvl) == HeadingRole(lvl + 1)
  {
  }

  // Blocks.

  /** renderBlock: the block kind is its name in upper case. */
  function BlockOut(r: Renderer, name: Bytes, parameters: seq<Bytes>, children: seq<Node>): Bytes {
    var kind := ToUpper(name);
    if kind == Ascii("SRC") then SourceBlock(r, parameters, children)
    else if kind == Ascii("QUOTE") then r.theme.applyWidth(Role.Quote, r.width - 8, InlineNodes(r, children))
    else if kind == Ascii("EXAMPLE") then r.theme.applyWidth(Role.Example, r.width - 6, ExtractBlockText(r, children))
    else if kind == Ascii("VERSE") then r.theme.applyWidth(Role.Verse, r.width - 6, ExtractBlockText(r, children))
    else if kind == Ascii("CENTER") then r.theme.applyWidth(Role.Center, r.width - 6, InlineNodes(r, children))
    else r.theme.applyWidth(Role.CodeBlock, r.width - 6, ExtractBlockText(r, children))
  }

  /** The block kind does not depend on the case of its name. */
  lemma BlockCaseInsensitive(r: Renderer, name: Bytes, parameters: seq<Bytes>, children: seq<Node>)
    ensures BlockOut(r, ToLower(name), parameters, children) == BlockOut(r, name, parameters, children)
  {
    ToUpperToLower(name);
  }

  lemma ToUpperToLower(s: Bytes)
    ensures ToUpper(ToLower(s)) == ToUpper(s)
  {
    assert forall i :: 0 <= i < |s| ==> UpperByte(LowerByte(s[i])) == UpperByte(s[i]);
  }

  /** The concatenated text of the nodes: a Text node's content, any other
      node printed with `%v`. */
  function Extracted(r: Renderer, ns: seq<Node>): Bytes {
    if ns == [] then []
    else TextOf(r, ns[0]) + Extracted(r, ns[1..])
  }

  function TextOf(r: Renderer, n: Node): Bytes {
    if n.Text? then n.content else r.show(n)
  }

  /** extractBlockText: the text with one trailing newline removed, and
      only that. */
  function ExtractBlockText(r: Renderer, ns: seq<Node>): (t: Bytes)
    ensures HasPrefix(Extracted(r, ns), t)
    ensures HasSuffix(Extracted(r, ns), [NEWLINE]) ==> t + [NEWLINE] == Extracted(r, ns)
    ensures !HasSuffix(Extracted(r, ns), [NEWLINE]) ==> t == Extracted(r, ns)
  {
    TrimSuffix(Extracted(r, ns), [NEWLINE])
  }

  /** The text of a block made of Text nodes is their contents, in order. */
  lemma {:induction false} ExtractedTexts(r: Renderer, cs: seq<Bytes>)
    ensures Extracted(r, seq(|cs|, i requires 0 <= i < |cs| => Text(cs[i]))) == Concat(cs)
  {
    var ns := seq(|cs|, i requires 0 <= i < |cs| => Text(cs[i]));
    if cs != [] {
      ExtractedTexts(r, cs[1..]);
      assert ns[1..] == seq(|cs[1..]|, i requires 0 <= i < |cs[1..]| => Text(cs[1..][i]));
    }
  }

  /** Exactly one trailing newline goes: a text that ends in two keeps one,
      and a text that ends in none is kept whole. */
  lemma ExtractTrimsOneNewline(r: Renderer, c: Bytes)
    ensures ExtractBlockText(r, [Text(c + [NEWLINE])]) == c
    ensures !HasSuffix(c, [NEWLINE]) ==> ExtractBlockText(r, [Text(c)]) == c
  {
    assert Extracted(r, [Text(c + [NEWLINE])]) == c + [NEWLINE];
    assert Extracted(r, [Text(c)]) == c;
  }

  function Concat(cs: seq<Bytes>): Bytes {
    if cs == [] then [] else cs[0] + Concat(cs[1..])
  }

  /** `max(width-8, 10)`: never below 10. */
  function HeaderWidth(width: int): (hw: nat)
    ensures hw >= 10
    ensures width >= 18 ==> hw == width - 8
    ensures width < 18 ==> hw == 10
  {
    if width - 8 < 10 then 10 else width - 8
  }

  function LangLabel(lang: Bytes): Bytes {
    [SPACE] + lang + [SPACE]
  }

  /** The source-block header with the dash run as the source sizes it,
      `max(headerWidth - len(lbl) - 2, 0)`. */
  function SourceHeaderAsWritten(headerWidth: nat, lang: Bytes): Bytes {
    if lang != [] then
      var lineLen := Max(headerWidth - |LangLabel(lang)| - 2, 0);
      TOP_LEFT + H_LINE + LangLabel(lang) + Repeat(H_LINE, lineLen) + TOP_RIGHT
    else TOP_LEFT + Repeat(H_LINE, headerWidth) + TOP_RIGHT
  }

  /** The source-block header with the dash run that makes it as wide as the
      footer, `max(headerWidth - len(lbl) - 1, 0)`. */
  function SourceHeader(headerWidth: nat, lang: Bytes): Bytes {
    if lang != [] then
      var lineLen := Max(headerWidth - |LangLabel(lang)| - 1, 0);
      TOP_LEFT + H_LINE + LangLabel(lang) + Repeat(H_LINE, lineLen) + TOP_RIGHT
    else TOP_LEFT + Repeat(H_LINE, headerWidth) + TOP_RIGHT
  }

  /** The footer always holds headerWidth dashes. */
  function SourceFooter(headerWidth: nat): Bytes {
    BOTTOM_LEFT + Repeat(H_LINE, headerWidth) + BOTTOM_RIGHT
  }

  predicate IsAscii(s: Bytes) {
    forall i :: 0 <= i < |s| ==> s[i] < 0x80
  }

  /** renderSourceBlock: header, the (highlighted) code in the code style,
      footer. The highlighter is only asked when there is a language. */
  function SourceBlock(r: Renderer, parameters: seq<Bytes>, children: seq<Node>): Bytes {
    var content := ExtractBlockText(r, children);
    var lang := if |parameters| > 0 then parameters[0] else [];
    var highlighted := if lang == [] then content else r.highlighter(content, lang);
    var headerWidth := HeaderWidth(r.width);
    r.theme.apply(Role.BlockHeader, SourceHeaderAsWritten(headerWidth, lang)) + [NEWLINE]
    + r.theme.applyWidth(Role.CodeBlock, r.width - 6, highlighted) + [NEWLINE]
    + r.theme.apply(Role.BlockHeader, SourceFooter(headerWidth))
  }

  /** Without a language the code is shown as extracted, unhighlighted. */
  lemma SourceBlockNoLanguage(r: Renderer, children: seq<Node>)
    ensures SourceBlock(r, [], children)
            == r.theme.apply(Role.BlockHeader, TOP_LEFT + Repeat(H_LINE, HeaderWidth(r.width)) + TOP_RIGHT)
               + [NEWLINE] + r.theme.applyWidth(Role.CodeBlock, r.width - 6, ExtractBlockText(r, children))
               + [NEWLINE] + r.theme.apply(Role.BlockHeader, SourceFooter(HeaderWidth(r.width)))
  {
  }

  /** With an ASCII language whose label fits, the rendered block opens
      with the header as the source sizes it, one rune narrower than the
      footer that closes it. */
  lemma SourceBlockMisaligned(r: Renderer, lang: Bytes, rest: seq<Bytes>, children: seq<Node>)
    requires r.theme == Plain()
    requires lang != [] && IsAscii(lang) && |LangLabel(lang)| + 2 <= HeaderWidth(r.width)
    ensures var header, footer := SourceHeaderAsWritten(HeaderWidth(r.width), lang), SourceFooter(HeaderWidth(r.width));
            && SourceBlock(r, [lang] + rest, children)
               == header + [NEWLINE] + r.highlighter(ExtractBlockText(r, children), lang) + [NEWLINE] + footer
            && RuneCount(header) + 1 == RuneCount(footer)
  {
    assert ([lang] + rest)[0] == lang;
    SourceHeaderAsWrittenShort(HeaderWidth(r.width), lang);
  }

  lemma AsciiRunes(s: Bytes)
    requires IsAscii(s)
    ensures Valid(s) && RuneCount(s) == |s|
    decreases |s|
  {
    if s != [] {
      assert s[0] < 0x80;
      AsciiRunes(s[1..]);
    }
  }

  /** Runes of `a + dashes + end` for a valid `a`. */
  lemma DashRunRunes(a: Bytes, n: nat, end: Bytes)
    requires Valid(a) && Tables.BoxGlyph(end)
    ensures RuneCount(a + Repeat(H_LINE, n) + end) == RuneCount(a) + n + 1
  {
    Tables.GlyphRunes(H_LINE);
    Tables.GlyphRunes(end);
    RuneCountRepeat(H_LINE, n);
    assert a + Repeat(H_LINE, n) + end == a + (Repeat(H_LINE, n) + end);
    RuneCountConcatValid(a, Repeat(H_LINE, n) + end);
    RuneCountConcatValid(Repeat(H_LINE, n), end);
  }

  lemma FooterRunes(headerWidth: nat)
    ensures RuneCount(SourceFooter(headerWidth)) == headerWidth + 2
  {
    Tables.GlyphRunes(BOTTOM_LEFT);
    DashRunRunes(BOTTOM_LEFT, headerWidth, BOTTOM_RIGHT);
  }

  /** The opening `┌─ lang ` of a header with an ASCII language. */
  lemma LabelRunes(lang: Bytes)
    requires IsAscii(lang)
    ensures Valid(TOP_LEFT + H_LINE + LangLabel(lang))
    ensures RuneCount(TOP_LEFT + H_LINE + LangLabel(lang)) == 2 + |LangLabel(lang)|
  {
    Tables.GlyphRunes(TOP_LEFT);
    Tables.GlyphRunes(H_LINE);
    var lbl := LangLabel(lang);
    assert IsAscii(lbl) by {
      forall i | 0 <= i < |lbl| ensures lbl[i] < 0x80 {
        if 0 < i < |lbl| - 1 {
          assert lbl[i] == lang[i - 1];
        }
      }
    }
    AsciiRunes(lbl);
    assert TOP_LEFT + H_LINE + lbl == TOP_LEFT + (H_LINE + lbl);
    ValidConcat(H_LINE, lbl);
    ValidConcat(TOP_LEFT, H_LINE + lbl);
    RuneCountConcatValid(H_LINE, lbl);
    RuneCountConcatValid(TOP_LEFT, H_LINE + lbl);
  }

  /** With an ASCII language, the header as the source sizes it is one
      rune narrower than the footer whenever the dash run is not clamped. */
  lemma SourceHeaderAsWrittenShort(headerWidth: nat, lang: Bytes)
    requires lang != [] && IsAscii(lang) && |LangLabel(lang)| + 2 <= headerWidth
    ensures RuneCount(SourceHeaderAsWritten(headerWidth, lang)) + 1 == RuneCount(SourceFooter(headerWidth))
  {
    var head, n := TOP_LEFT + H_LINE + LangLabel(lang), headerWidth - |LangLabel(lang)| - 2;
    assert SourceHeaderAsWritten(headerWidth, lang) == head + Repeat(H_LINE, n) + TOP_RIGHT;
    LabelRunes(lang);
    ClosedRunRunes(head, n);
    FooterRunes(headerWidth);
  }

  /** Runes of `a + dashes + ┐` for a valid `a`. */
  lemma ClosedRunRunes(a: Bytes, n: nat)
    requires Valid(a)
    ensures RuneCount(a + Repeat(H_LINE, n) + TOP_RIGHT) == RuneCount(a) + n + 1
  {
    DashRunRunes(a, n, TOP_RIGHT);
  }

  /** The concrete case: an 80-column renderer and the language "go". */
  lemma SourceHeaderAsWrittenExample()
    ensures RuneCount(SourceHeaderAsWritten(HeaderWidth(80), Ascii("go"))) == 73
    ensures RuneCount(SourceFooter(HeaderWidth(80))) == 74
  {
    var lang := Ascii("go");
    assert lang[0] == 103 && lang[1] == 111;
    SourceHeaderAsWrittenShort(72, lang);
    FooterRunes(72);
  }

  /** Header and footer are the same width: always without a language, and
      with an ASCII language whenever its label fits. */
  lemma SourceHeaderMatchesFooter(headerWidth: nat, lang: Bytes)
    requires lang == [] || (IsAscii(lang) && |LangLabel(lang)| + 1 <= headerWidth)
    ensures RuneCount(SourceHeader(headerWidth, lang)) == RuneCount(SourceFooter(headerWidth))
    ensures RuneCount(SourceFooter(headerWidth)) == headerWidth + 2
  {
    FooterRunes(headerWidth);
    if lang == [] {
      Tables.GlyphRunes(TOP_LEFT);
      DashRunRunes(TOP_LEFT, headerWidth, TOP_RIGHT);
    } else {
      var head, n := TOP_LEFT + H_LINE + LangLabel(lang), headerWidth - |LangLabel(lang)| - 1;
      assert SourceHeader(headerWidth, lang) == head + Repeat(H_LINE, n) + TOP_RIGHT;
      LabelRunes(lang);
      ClosedRunRunes(head, n);
    }
  }

  // The horizontal rule.

  /** renderHorizontalRule as the source writes it: strings.Repeat with
      count width-4 panics (None) when the width is below 4. */
  function HorizontalRuleAsWritten(r: Renderer): Option<Bytes> {
    if r.width - 4 < 0 then None
    else Some(r.theme.apply(Role.HRule, Repeat(H_LINE, r.width - 4)))
  }

  /** The rule panics exactly when the renderer is narrower than 4 columns
      (a terminal narrower than 12, as the document is rendered at
      width-8). */
  lemma HorizontalRulePanics(r: Renderer)
    ensures HorizontalRuleAsWritten(r).None? <==> r.width < 4
  {
  }

  /** The rule with its count clamped at 0: defined at every width, and
      width-4 dashes wide wherever the source's version is defined. */
  function HorizontalRule(r: Renderer): (h: Bytes)
    ensures HorizontalRuleAsWritten(r).Some? ==> h == HorizontalRuleAsWritten(r).value
  {
    r.theme.apply(Role.HRule, Repeat(H_LINE, Max(r.width - 4, 0)))
  }

  lemma HorizontalRuleRunes(r: Renderer)
    requires r.theme == Plain()
    ensures RuneCount(HorizontalRule(r)) == Max(r.width - 4, 0)
  {
    Tables.GlyphRunes(H_LINE);
    RuneCountRepeat(H_LINE, Max(r.width - 4, 0));
  }

  // Keywords and drawers.

  /** The buffer settings shown in the document header instead. */
  predicate Metadata(key: Bytes) {
    ToUpper(key) in [Ascii("TITLE"), Ascii("AUTHOR"), Ascii("DATE"), Ascii("OPTIONS")]
  }

  /** renderKeyword */
  function KeywordOut(theme: Theme, key: Bytes, value: Bytes): Bytes {
    if Metadata(key) then []
    else theme.apply(Role.Keyword, Ascii("#+") + key + [COLON, SPACE]) + theme.apply(Role.KeywordValue, value)
  }

  /** A keyword is hidden iff it is one of TITLE, AUTHOR, DATE, OPTIONS in any
      letter case; with the identity styles any other shows as
      `#+KEY: value`. */
  lemma KeywordHidden(theme: Theme, key: Bytes, value: Bytes)
    ensures Metadata(key) ==> KeywordOut(theme, key, value) == []
    ensures Metadata(ToLower(key)) <==> Metadata(key)
    ensures theme == Plain() && !Metadata(key) ==>
              KeywordOut(theme, key, value) == Ascii("#+") + key + [COLON, SPACE] + value
  {
    ToUpperToLower(key);
  }

  /** renderPropertyDrawer: properties with fewer than two fields are
      skipped. */
  function PropertyDrawerOut(theme: Theme, properties: seq<seq<Bytes>>): Bytes {
    theme.apply(Role.DrawerHeader, PROPERTIES) + [NEWLINE] + PropertyLines(theme, properties)
    + theme.apply(Role.DrawerHeader, END)
  }

  function PropertyLines(theme: Theme, properties: seq<seq<Bytes>>): Bytes {
    if properties == [] then []
    else
      var p := properties[0];
      (if |p| >= 2 then theme.apply(Role.Property, [COLON] + p[0] + [COLON, SPACE] + p[1]) + [NEWLINE] else [])
      + PropertyLines(theme, properties[1..])
  }

  /** One line per property that has a name and a value, none for the rest. */
  lemma {:induction false} PropertyLineCount(properties: seq<seq<Bytes>>)
    requires forall i, k :: 0 <= i < |properties| && 0 <= k < |properties[i]| ==> NEWLINE !in properties[i][k]
    ensures Occurrences(PropertyLines(Plain(), properties), NEWLINE) == |Complete(properties)|
  {
    if properties != [] {
      var p := properties[0];
      PropertyLineCount(properties[1..]);
      var rest := PropertyLines(Plain(), properties[1..]);
      if |p| >= 2 {
        var line := [COLON] + p[0] + [COLON, SPACE] + p[1];
        assert PropertyLines(Plain(), properties) == line + [NEWLINE] + rest;
        assert NEWLINE !in line by {
          assert NEWLINE !in p[0] && NEWLINE !in p[1];
        }
        OccurrencesAbsent(line, NEWLINE);
        OccurrencesAppend(line + [NEWLINE], rest, NEWLINE);
        OccurrencesAppend(line, [NEWLINE], NEWLINE);
        assert [NEWLINE][1..] == [];
        assert Occurrences([NEWLINE], NEWLINE) == 1;
        assert Complete(properties) == [p] + Complete(properties[1..]);
      } else {
        assert PropertyLines(Plain(), properties) == [] + rest;
        assert Complete(properties) == [] + Complete(properties[1..]);
        assert [] + rest == rest;
        assert Occurrences(rest, NEWLINE) == |Complete(properties[1..])|;
        assert PropertyLines(Plain(), properties) == rest;
      }
    }
  }

  /** The properties that have at least a name and a value. */
  function Complete(properties: seq<seq<Bytes>>): seq<seq<Bytes>> {
    if properties == [] then []
    else (if |properties[0]| >= 2 then [properties[0]] else []) + Complete(properties[1..])
  }

  function Occurrences(s: Bytes, b: byte): nat {
    if s == [] then 0 else (if s[0] == b then 1 else 0) + Occurrences(s[1..], b)
  }

  lemma {:induction false} OccurrencesAppend(a: Bytes, c: Bytes, b: byte)
    ensures Occurrences(a + c, b) == Occurrences(a, b) + Occurrences(c, b)
  {
    if a == [] {
      assert a + c == c;
    } else {
      assert (a + c)[1..] == a[1..] + c;
      OccurrencesAppend(a[1..], c, b);
    }
  }

  lemma {:induction false} OccurrencesAbsent(a: Bytes, b: byte)
    requires b !in a
    ensures Occurrences(a, b) == 0
  {
    if a != [] {
      OccurrencesAbsent(a[1..], b);
    }
  }

  // Lists.

  /** The bullet: the item's own marker when it holds a digit (an ordered
      list), else "•". (A marker starting with "1" holds a digit.) */
  function BulletFor(bullet: Bytes): (b: Bytes)
    ensures ContainsDigit(bullet) ==> b == bullet
    ensures !ContainsDigit(bullet) ==> b == BULLET
  {
    if HasPrefix(bullet, Ascii("1")) || ContainsDigit(bullet) then
      assert HasPrefix(bullet, Ascii("1")) ==> IsDigit(bullet[0]);
      bullet
    else BULLET
  }

  /** The checkbox for a status: X or x done, - partial, a space empty,
      anything else none. */
  function Checkbox(status: Bytes): Option<(Role, Bytes)> {
    if status == Ascii("X") || status == Ascii("x") then Some((Role.CheckboxDone, [LBRACKET] + CHECK + [RBRACKET]))
    else if status == Ascii("-") then Some((Role.CheckboxPartial, Ascii("[~]")))
    else if status == [SPACE] then Some((Role.CheckboxEmpty, Ascii("[ ]")))
    else None
  }

  function CheckboxOut(theme: Theme, status: Bytes): Bytes {
    match Checkbox(status)
    case Some((role, box)) => theme.apply(role, box) + [SPACE]
    case None => []
  }

  /** Only the four statuses get a box: X and x the done box `[✓]`, - the
      partial box `[~]`, a space the empty box `[ ]`, each in its own style;
      the box and its style tell the status back up to the case of X. */
  lemma CheckboxChoice(status: Bytes)
    ensures Checkbox(status).Some? <==> status in [Ascii("X"), Ascii("x"), Ascii("-"), [SPACE]]
    ensures status == Ascii("X") || status == Ascii("x") ==>
              Checkbox(status) == Some((Role.CheckboxDone, [LBRACKET] + CHECK + [RBRACKET]))
    ensures status == Ascii("-") ==> Checkbox(status) == Some((Role.CheckboxPartial, Ascii("[~]")))
    ensures status == [SPACE] ==> Checkbox(status) == Some((Role.CheckboxEmpty, Ascii("[ ]")))
    ensures Checkbox(status).Some? && Checkbox(status).value.0 == Role.CheckboxDone ==>
              status == Ascii("X") || status == Ascii("x")
    ensures Checkbox(status).Some? && Checkbox(status).value.0 == Role.CheckboxPartial ==> status == Ascii("-")
    ensures Checkbox(status).Some? && Checkbox(status).value.0 == Role.CheckboxEmpty ==> status == [SPACE]
    ensures Checkbox(status).Some? ==> CheckboxOut(Plain(), status) == Checkbox(status).value.1 + [SPACE]
    ensures Checkbox(status).None? ==> CheckboxOut(Plain(), status) == []
  {
    assert Ascii("X") == [88] && Ascii("x") == [120] && Ascii("-") == [45];
  }

  /** strings.Repeat("  ", indent) */
  function Indent(indent: nat): (s: Bytes)
    ensures s == Repeat([SPACE], 2 * indent)
  {
    IndentSpaces(indent);
    Repeat([SPACE, SPACE], indent)
  }

  lemma {:induction false} IndentSpaces(indent: nat)
    ensures Repeat([SPACE, SPACE], indent) == Repeat([SPACE], 2 * indent)
  {
    if indent > 0 {
      IndentSpaces(indent - 1);
      assert Repeat([SPACE], 2 * indent) == [SPACE] + ([SPACE] + Repeat([SPACE], 2 * (indent - 1)));
    }
  }

  /** The loop over a list item's children: paragraphs give inline content,
      nested lists are rendered one level deeper after a newline, anything
      else is rendered as a block and joins the content. */
  function ItemParts(r: Renderer, children: seq<Node>, indent: nat): (p: (Bytes, Bytes))
    decreases children, 0
  {
    if children == [] then ([], [])
    else
      var rest := ItemParts(r, children[1..], indent);
      var child := children[0];
      if child.Paragraph? then (InlineNodes(r, child.children) + rest.0, rest.1)
      else if child.List? then (rest.0, [NEWLINE] + ListWithIndent(r, child.items, indent + 1) + rest.1)
      else (RenderNode(r, child) + rest.0, rest.1)
  }

  /** renderListItem */
  function ListItemOut(r: Renderer, bullet: Bytes, status: Bytes, children: seq<Node>, indent: nat): Bytes
    decreases children, 1
  {
    var parts := ItemParts(r, children, indent);
    Indent(indent) + r.theme.apply(Role.ListBullet, BulletFor(bullet)) + [SPACE]
    + CheckboxOut(r.theme, status) + r.theme.apply(Role.ListItem, parts.0) + parts.1
  }

  /** renderDescriptiveListItem, at an indent. */
  function DescriptiveAt(r: Renderer, term: seq<Node>, details: seq<Node>, indent: nat): Bytes
    decreases term, 0
  {
    Indent(indent) + r.theme.apply(Role.ListBullet, BULLET) + [SPACE]
    + r.theme.apply(Role.DescTerm, InlineNodes(r, term)) + [SPACE]
    + r.theme.apply(Role.DescSeparator, [COLON, COLON]) + [SPACE]
    + r.theme.apply(Role.ListItem, InlineNodes(r, details))
  }

  function DescriptiveItem(r: Renderer, term: seq<Node>, details: seq<Node>): Bytes {
    DescriptiveAt(r, term, details, 0)
  }

  /** One entry of a list at an indent, with its newline; a node that is
      neither kind of list item gives nothing. */
  function ListEntry(r: Renderer, item: Node, indent: nat): Bytes
    decreases item, 0
  {
    match item
    case ListItem(bullet, status, children) => ListItemOut(r, bullet, status, children, indent) + [NEWLINE]
    case DescriptiveListItem(term, details) => DescriptiveAt(r, term, details, indent) + [NEWLINE]
    case _ => []
  }

  /** The lines of a list at an indent. */
  function ListLines(r: Renderer, items: seq<Node>, indent: nat): Bytes
    decreases items, 2
  {
    if items == [] then [] else ListEntry(r, items[0], indent) + ListLines(r, items[1..], indent)
  }

  /** renderListWithIndent: the lines without the last newline. */
  function ListWithIndent(r: Renderer, items: seq<Node>, indent: nat): Bytes
    decreases items, 3
  {
    TrimSuffix(ListLines(r, items, indent), [NEWLINE])
  }

  /** renderList */
  function ListOut(r: Renderer, items: seq<Node>): Bytes
    decreases items, 3
  {
    if items == [] then []
    else
      (match items[0]
       case ListItem(bullet, status, children) => ListItemOut(r, bullet, status, children, 0) + [NEWLINE]
       case DescriptiveListItem(term, details) => DescriptiveItem(r, term, details) + [NEWLINE]
       case _ => [])
      + ListOut(r, items[1..])
  }

  /** renderList is renderListWithIndent at indent 0 with the last newline
      kept. */
  lemma {:induction false} ListOutIsIndentZero(r: Renderer, items: seq<Node>)
    ensures ListOut(r, items) == ListLines(r, items, 0)
    ensures ListOut(r, items) == ListWithIndent(r, items, 0)
            || ListOut(r, items) == ListWithIndent(r, items, 0) + [NEWLINE]
  {
    if items != [] {
      ListOutIsIndentZero(r, items[1..]);
    }
  }

  /** Every item line at an indent starts with two spaces per level, and the
      item's own content follows its bullet and checkbox. */
  lemma ItemIndented(r: Renderer, bullet: Bytes, status: Bytes, children: seq<Node>,
                      term: seq<Node>, details: seq<Node>, indent: nat)
    ensures HasPrefix(ListItemOut(r, bullet, status, children, indent), Repeat([SPACE], 2 * indent))
    ensures HasPrefix(DescriptiveAt(r, term, details, indent), Repeat([SPACE], 2 * indent))
  {
    var out := ListItemOut(r, bullet, status, children, indent);
    var pre := Repeat([SPACE], 2 * indent);
    assert out == pre + (out[|pre|..]);
    var d := DescriptiveAt(r, term, details, indent);
    assert d == pre + (d[|pre|..]);
  }

  /** With the identity styles an item without nested lists is one line:
      indent, bullet, space, checkbox and its paragraphs' text. */
  lemma ItemPlain(r: Renderer, bullet: Bytes, status: Bytes, inline: seq<Node>, indent: nat)
    requires r.theme == Plain()
    ensures ListItemOut(r, bullet, status, [Node.Paragraph(inline)], indent)
            == Repeat([SPACE], 2 * indent) + BulletFor(bullet) + [SPACE]
               + (match Checkbox(status) case Some((_, box)) => box + [SPACE] case None => [])
               + InlineNodes(r, inline)
  {
    assert ItemParts(r, [Node.Paragraph(inline)], indent) == (InlineNodes(r, inline) + [], []);
  }

  // The builder loops of the renderer.

  /** RenderNodes as the source writes it. */
  method WriteNodes(r: Renderer, ns: seq<Node>) returns (out: Bytes)
    ensures out == RenderNodes(r, ns)
  {
    out := [];
    var i := 0;
    while i < |ns|
      invariant 0 <= i <= |ns|
      invariant out + RenderNodes(r, ns[i..]) == RenderNodes(r, ns)
    {
      var rendered := RenderNode(r, ns[i]);
      NodesSuffix(r, ns, i);
      LineStep(out, rendered, RenderNodes(r, ns[i + 1..]), RenderNodes(r, ns[i..]), RenderNodes(r, ns));
      if rendered != [] {
        out := out + rendered + [NEWLINE];
      }
      i := i + 1;
    }
  }

  lemma NodesSuffix(r: Renderer, ns: seq<Node>, i: nat)
    requires i < |ns|
    ensures RenderNodes(r, ns[i..]) ==
            (var x := RenderNode(r, ns[i]); if x == [] then [] else x + [NEWLINE]) + RenderNodes(r, ns[i + 1..])
  {
    assert ns[i..][0] == ns[i] && ns[i..][1..] == ns[i + 1..];
  }

  /** renderHeadline: the styled headline line, then its children. */
  method WriteHeadline(r: Renderer, lvl: nat, status: Bytes, priority: Bytes, tags: seq<Bytes>,
                       title: seq<Node>, children: seq<Node>) returns (out: Bytes)
    ensures out == RenderNode(r, Headline(lvl, status, priority, tags, title, children))
  {
    var titleText := WriteInlineNodes(r, title);
    var headline := Repeat(STAR, lvl) + [SPACE] + StatusOut(r.theme, status)
                    + PriorityOut(r.theme, priority) + titleText + TagsOut(r.theme, tags);
    var body := WriteNodes(r, children);
    out := r.theme.apply(HeadingRole(lvl), headline) + [NEWLINE] + body;
  }

  /** renderList */
  method WriteList(r: Renderer, items: seq<Node>) returns (out: Bytes)
    ensures out == ListOut(r, items)
  {
    ListOutIsIndentZero(r, items);
    out := WriteListLines(r, items, 0);
  }

  /** renderListWithIndent */
  method WriteListWithIndent(r: Renderer, items: seq<Node>, indent: nat) returns (out: Bytes)
    ensures out == ListWithIndent(r, items, indent)
  {
    var b := WriteListLines(r, items, indent);
    out := TrimSuffix(b, [NEWLINE]);
  }

  /** The loop shared by renderList and renderListWithIndent. */
  method WriteListLines(r: Renderer, items: seq<Node>, indent: nat) returns (b: Bytes)
    ensures b == ListLines(r, items, indent)
  {
    b := [];
    var i := 0;
    while i < |items|
      invariant 0 <= i <= |items|
      invariant b + ListLines(r, items[i..], indent) == ListLines(r, items, indent)
    {
      var item := items[i];
      ListSuffix(r, items, i, indent);
      ghost var rest, all := ListLines(r, items[i + 1..], indent), ListLines(r, items, indent);
      if item.ListItem? {
        var line := WriteListItem(r, item.bullet, item.status, item.children, indent);
        LineAppend(b, line, rest, all);
        b := b + line + [NEWLINE];
      } else if item.DescriptiveListItem? {
        LineAppend(b, DescriptiveAt(r, item.term, item.details, indent), rest, all);
        b := b + DescriptiveAt(r, item.term, item.details, indent) + [NEWLINE];
      } else {
        assert ListEntry(r, item, indent) == [];
      }
      i := i + 1;
    }
  }

  lemma ListSuffix(r: Renderer, items: seq<Node>, i: nat, indent: nat)
    requires i < |items|
    ensures ListLines(r, items[i..], indent) == ListEntry(r, items[i], indent) + ListLines(r, items[i + 1..], indent)
  {
    assert items[i..][0] == items[i] && items[i..][1..] == items[i + 1..];
  }

  /** renderListItem: the loop that splits the children into the item's
      content and its nested lists, then the assembled line. */
  method WriteListItem(r: Renderer, bullet: Bytes, status: Bytes, children: seq<Node>, indent: nat)
    returns (out: Bytes)
    ensures out == ListItemOut(r, bullet, status, children, indent)
  {
    var content, nested := CollectItemParts(r, children, indent);
    out := Indent(indent) + r.theme.apply(Role.ListBullet, BulletFor(bullet)) + [SPACE]
           + CheckboxOut(r.theme, status) + r.theme.apply(Role.ListItem, content) + nested;
  }

  /** The loop over a list item's children. */
  method CollectItemParts(r: Renderer, children: seq<Node>, indent: nat) returns (content: Bytes, nested: Bytes)
    ensures (content, nested) == ItemParts(r, children, indent)
  {
    content, nested := [], [];
    ghost var whole := ItemParts(r, children, indent);
    ghost var rest := whole;
    var i := 0;
    while i < |children|
      invariant 0 <= i <= |children|
      invariant rest == ItemParts(r, children[i..], indent)
      invariant content + rest.0 == whole.0 && nested + rest.1 == whole.1
    {
      var child := children[i];
      ItemPartsStep(r, children, i, indent);
      rest := ItemParts(r, children[i + 1..], indent);
      if child.Paragraph? {
        var text := WriteInlineNodes(r, child.children);
        AppendAssoc(content, text, rest.0, whole.0);
        content := content + text;
      } else if child.List? {
        var sub := ListWithIndent(r, child.items, indent + 1);
        AppendAssoc(nested, [NEWLINE] + sub, rest.1, whole.1);
        nested := nested + ([NEWLINE] + sub);
      } else {
        var rendered := RenderNode(r, child);
        AppendAssoc(content, rendered, rest.0, whole.0);
        content := content + rendered;
      }
      i := i + 1;
    }
    assert children[i..] == [];
    assert rest == ([], []);
    assert content == whole.0 && nested == whole.1;
  }

  lemma ItemPartsStep(r: Renderer, children: seq<Node>, i: nat, indent: nat)
    requires i < |children|
    ensures var here := ItemParts(r, children[i..], indent);
            var next := ItemParts(r, children[i + 1..], indent);
            var child := children[i];
            if child.Paragraph? then here == (InlineNodes(r, child.children) + next.0, next.1)
            else if child.List? then here == (next.0, [NEWLINE] + ListWithIndent(r, child.items, indent + 1) + next.1)
            else here == (RenderNode(r, child) + next.0, next.1)
  {
    assert children[i..][1..] == children[i + 1..];
    assert children[i..][0] == children[i];
  }

  /** renderPropertyDrawer */
  method WritePropertyDrawer(theme: Theme, properties: seq<seq<Bytes>>) returns (out: Bytes)
    ensures out == PropertyDrawerOut(theme, properties)
  {
    out := theme.apply(Role.DrawerHeader, PROPERTIES) + [NEWLINE];
    var i := 0;
    while i < |properties|
      invariant 0 <= i <= |properties|
      invariant out + PropertyLines(theme, properties[i..])
                == theme.apply(Role.DrawerHeader, PROPERTIES) + [NEWLINE] + PropertyLines(theme, properties)
    {
      assert properties[i..][1..] == properties[i + 1..];
      var prop := properties[i];
      if |prop| >= 2 {
        out := out + theme.apply(Role.Property, [COLON] + prop[0] + [COLON, SPACE] + prop[1]) + [NEWLINE];
      }
      i := i + 1;
    }
    out := out + theme.apply(Role.DrawerHeader, END);
  }

  /** extractBlockText */
  method WriteBlockText(r: Renderer, ns: seq<Node>) returns (out: Bytes)
    ensures out == ExtractBlockText(r, ns)
  {
    var b: Bytes := [];
    var i := 0;
    while i < |ns|
      invariant 0 <= i <= |ns|
      invariant b + Extracted(r, ns[i..]) == Extracted(r, ns)
    {
      assert ns[i..][1..] == ns[i + 1..];
      var n := ns[i];
      if n.Text? {
        b := b + n.content;
      } else {
        b := b + r.show(n);
      }
      i := i + 1;
    }
    assert b == Extracted(r, ns);
    out := TrimSuffix(b, [NEWLINE]);
  }
}
