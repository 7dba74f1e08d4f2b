/** Plain-text processing of the renderer: the inactive-timestamp shape test,
    the bracket scan that styles `[YYYY-MM-DD ...]` segments, and the
    planning-keyword prefix (SCHEDULED:, DEADLINE:, CLOSED:). */
module Timestamps {
  import opened Bytes
  import Utf8
  import opened Styles

  /** The byte shape `dddd-dd-dd` on the first ten bytes. */
  predicate DateShapeAt(s: Bytes, k: nat)
    requires k < |s|
  {
    if k == 4 || k == 7 then s[k] == DASH else IsDigit(s[k])
  }

  predicate DateShape(s: Bytes)
    requires |s| >= 10
  {
    forall k :: 0 <= k < 10 ==> DateShapeAt(s, k)
  }

  /** isInactiveTimestamp: ten bytes or more, of which the first ten have
      the shape `dddd-dd-dd`. */
  predicate IsInactiveTimestamp(content: Bytes) {
    |content| >= 10 && DateShape(content)
  }

  /** isInactiveTimestamp as the source writes it: a walk over the runes of
      the first ten bytes (`for i, c := range content[:10]`), `i` the byte
      offset and `c` the rune decoded there, stopping at the first rune out
      of place. A non-ASCII rune is neither a digit nor `-`, and neither is
      its lead byte, so the walk accepts exactly the byte shape. */
  method CheckInactiveTimestamp(content: Bytes) returns (ok: bool)
    ensures ok == IsInactiveTimestamp(content)
  {
    if |content| < 10 {
      return false;
    }
    var s := content[..10];
    var i := 0;
    while i < |s|
      invariant 0 <= i <= |s|
      invariant forall k :: 0 <= k < i ==> DateShapeAt(content, k)
    {
      var (c, n) := Utf8.Decode(s[i..]);
      assert s[i..][0] == content[i];
      if i == 4 || i == 7 {
        if c != DASH as int {
          assert !DateShapeAt(content, i);
          return false;
        }
      } else {
        if c < 48 || c > 57 {
          assert !DateShapeAt(content, i);
          return false;
        }
      }
      i := i + n;
    }
    return true;
  }

  /** What the bracket scan produces: text copied as it is, or the inside of
      a bracket pair recognised as an inactive timestamp. */
  datatype Piece = Copied(text: Bytes) | Stamp(inner: Bytes)

  /** The loop of renderInactiveTimestamps, one iteration per recursive step:
      find the first `[`, then the first `]` after it; a timestamp inside is
      a Stamp, anything else is copied through the `]`. */
  function Scan(s: Bytes): (ps: seq<Piece>)
    ensures |ps| > 0
    decreases |s|, 1
  {
    var start := IndexOf(s, LBRACKET);
    if start < 0 then [Copied(s)]
    else
      var e := IndexOf(s[start..], RBRACKET);
      if e < 0 then [Copied(s)]
      else
        assert s[start..][0] == s[start];
        ScanAt(s, start, e + start)
  }

  /** The step of the scan at a `[` at `start` and the first `]` after it at
      `end`. */
  function ScanAt(s: Bytes, start: int, end: int): (ps: seq<Piece>)
    requires 0 <= start < end < |s|
    ensures |ps| > 0
    decreases |s|, 0
  {
    var inner := s[start + 1..end];
    if |inner| >= 10 && IsInactiveTimestamp(inner) then
      [Copied(s[..start]), Stamp(inner)] + Scan(s[end + 1..])
    else
      [Copied(s[..end + 1])] + Scan(s[end + 1..])
  }

  /** The pieces written out, each Stamp through the Timestamp style. */
  function Emit(theme: Theme, ps: seq<Piece>): Bytes {
    if ps == [] then [] else Out(theme, ps[0]) + Emit(theme, ps[1..])
  }

  function Out(theme: Theme, p: Piece): Bytes {
    match p
    case Copied(t) => t
    case Stamp(inner) => theme.apply(Role.Timestamp, [LBRACKET] + inner + [RBRACKET])
  }

  /** The pieces written out with every Stamp's bracket pair put back. */
  function Spelled(ps: seq<Piece>): Bytes {
    if ps == [] then [] else Spell(ps[0]) + Spelled(ps[1..])
  }

  function Spell(p: Piece): Bytes {
    match p
    case Copied(t) => t
    case Stamp(inner) => [LBRACKET] + inner + [RBRACKET]
  }

  /** renderInactiveTimestamps */
  function InactiveTimestamps(theme: Theme, content: Bytes): Bytes {
    Emit(theme, Scan(content))
  }

  lemma {:induction false} EmitAppend(theme: Theme, a: seq<Piece>, b: seq<Piece>)
    ensures Emit(theme, a + b) == Emit(theme, a) + Emit(theme, b)
  {
    if a == [] {
      assert a + b == b;
    } else {
      assert (a + b)[0] == a[0];
      assert (a + b)[1..] == a[1..] + b;
      EmitAppend(theme, a[1..], b);
    }
  }

  lemma {:induction false} SpelledAppend(a: seq<Piece>, b: seq<Piece>)
    ensures Spelled(a + b) == Spelled(a) + Spelled(b)
  {
    if a == [] {
      assert a + b == b;
    } else {
      assert (a + b)[0] == a[0];
      assert (a + b)[1..] == a[1..] + b;
      SpelledAppend(a[1..], b);
    }
  }

  lemma {:induction false} EmitPlain(ps: seq<Piece>)
    ensures Emit(Plain(), ps) == Spelled(ps)
  {
    if ps != [] {
      EmitPlain(ps[1..]);
    }
  }

  /** A `[` at `start` whose first `]` after it is at `end`. */
  predicate PairAt(s: Bytes, start: int, end: int) {
    && start == IndexOf(s, LBRACKET) && 0 <= start
    && 0 <= end - start && start <= |s| && end - start == IndexOf(s[start..], RBRACKET)
  }

  lemma PairBounds(s: Bytes, start: int, end: int)
    requires PairAt(s, start, end)
    ensures start < end < |s| && s[start] == LBRACKET && s[end] == RBRACKET
  {
    assert s[start..][end - start] == s[end];
  }

  /** One turn of the scan over a pair holding a timestamp. */
  lemma ScanStepStamp(s: Bytes, start: int, end: int)
    requires PairAt(s, start, end) && start < end < |s|
    requires IsInactiveTimestamp(s[start + 1..end])
    ensures Scan(s) == [Copied(s[..start]), Stamp(s[start + 1..end])] + Scan(s[end + 1..])
  {
    ScanPair(s, start, end);
  }

  /** At a bracket pair the scan takes its step there. */
  lemma ScanPair(s: Bytes, start: int, end: int)
    requires PairAt(s, start, end) && start < end < |s|
    ensures Scan(s) == ScanAt(s, start, end)
  {
  }

  /** One turn of the scan over a pair holding anything else. */
  lemma ScanStepCopy(s: Bytes, start: int, end: int)
    requires PairAt(s, start, end) && start < end < |s|
    requires !IsInactiveTimestamp(s[start + 1..end])
    ensures Scan(s) == [Copied(s[..end + 1])] + Scan(s[end + 1..])
  {
    ScanPair(s, start, end);
  }

  /** With no `[` followed by a `]`, the scan copies the whole text. */
  lemma ScanNoPair(s: Bytes)
    requires IndexOf(s, LBRACKET) < 0 || IndexOf(s[IndexOf(s, LBRACKET)..], RBRACKET) < 0
    ensures Scan(s) == [Copied(s)]
  {
  }

  /** A bracket pair cuts the text into five parts. */
  lemma SplitAtPair(s: Bytes, start: int, end: int)
    requires 0 <= start < end < |s|
    ensures s == s[..start] + ([s[start]] + s[start + 1..end] + [s[end]]) + s[end + 1..]
  {
  }

  lemma RoundTripStamp(s: Bytes, start: int, end: int)
    requires PairAt(s, start, end) && start < end < |s|
    requires s[start] == LBRACKET && s[end] == RBRACKET
    requires IsInactiveTimestamp(s[start + 1..end])
    requires Spelled(Scan(s[end + 1..])) == s[end + 1..]
    ensures Spelled(Scan(s)) == s
  {
    var inner := s[start + 1..end];
    var ps, tail := [Copied(s[..start]), Stamp(inner)], Scan(s[end + 1..]);
    ScanStepStamp(s, start, end);
    SpelledAppend(ps, tail);
    SpelledPair(s[..start], inner);
    SplitAtPair(s, start, end);
    assert [s[start]] == [LBRACKET] && [s[end]] == [RBRACKET];
  }

  lemma SpelledPair(before: Bytes, inner: Bytes)
    ensures Spelled([Copied(before), Stamp(inner)]) == before + ([LBRACKET] + inner + [RBRACKET])
  {
    var ps := [Copied(before), Stamp(inner)];
    assert ps[1..][1..] == [];
    assert Spelled(ps) == Spell(ps[0]) + (Spell(ps[1]) + Spelled([]));
  }

  lemma RoundTripCopy(s: Bytes, end: int)
    requires 0 <= end < |s|
    requires Scan(s) == [Copied(s[..end + 1])] + Scan(s[end + 1..])
    requires Spelled(Scan(s[end + 1..])) == s[end + 1..]
    ensures Spelled(Scan(s)) == s
  {
    var ps, tail := [Copied(s[..end + 1])], Scan(s[end + 1..]);
    SpelledOne(s[..end + 1]);
    SpelledGlue(Scan(s), ps, tail, s[..end + 1], s[end + 1..]);
    assert s[..end + 1] + s[end + 1..] == s;
  }

  lemma SpelledGlue(all: seq<Piece>, ps: seq<Piece>, tail: seq<Piece>, a: Bytes, b: Bytes)
    requires all == ps + tail && Spelled(ps) == a && Spelled(tail) == b
    ensures Spelled(all) == a + b
  {
    SpelledAppend(ps, tail);
  }

  lemma SpelledOne(t: Bytes)
    ensures Spelled([Copied(t)]) == t
  {
    assert [Copied(t)][1..] == [];
  }

  /** The pieces spell the input: every byte outside a styled timestamp is
      copied, in order, and each Stamp sits between the brackets it came from. */
  lemma {:induction false} ScanRoundTrip(s: Bytes)
    ensures Spelled(Scan(s)) == s
    decreases |s|
  {
    var start := IndexOf(s, LBRACKET);
    if start < 0 || IndexOf(s[start..], RBRACKET) < 0 {
      ScanNoPair(s);
      assert Spelled([Copied(s)]) == s + Spelled([]);
    } else {
      var end := IndexOf(s[start..], RBRACKET) + start;
      PairBounds(s, start, end);
      ScanRoundTrip(s[end + 1..]);
      if IsInactiveTimestamp(s[start + 1..end]) {
        RoundTripStamp(s, start, end);
      } else {
        ScanStepCopy(s, start, end);
        RoundTripCopy(s, end);
      }
    }
  }

  /** Every Stamp among the pieces has timestamp shape and holds no `]`. */
  predicate StampsOk(ps: seq<Piece>) {
    forall p :: p in ps && p.Stamp? ==> IsInactiveTimestamp(p.inner) && RBRACKET !in p.inner
  }

  lemma StampsAppend(a: seq<Piece>, b: seq<Piece>)
    requires StampsOk(a) && StampsOk(b)
    ensures StampsOk(a + b)
  {
    assert forall p :: p in a + b <==> p in a || p in b;
  }

  /** What lies between a `[` and the first `]` after it holds no `]`. */
  lemma PairInner(s: Bytes, start: int, end: int)
    requires PairAt(s, start, end) && start < end < |s|
    ensures RBRACKET !in s[start + 1..end]
  {
    IndexOfFirst(s[start..], RBRACKET);
    assert s[start + 1..end] == s[start..][..end - start][1..];
  }

  /** Every styled segment is the text between a `[` and the first `]` after
      it, and is of timestamp shape. */
  lemma {:induction false} ScanStamps(s: Bytes)
    ensures StampsOk(Scan(s))
    decreases |s|
  {
    var start := IndexOf(s, LBRACKET);
    if start < 0 || IndexOf(s[start..], RBRACKET) < 0 {
      ScanNoPair(s);
      assert StampsOk([Copied(s)]);
    } else {
      var end := IndexOf(s[start..], RBRACKET) + start;
      PairBounds(s, start, end);
      ScanStamps(s[end + 1..]);
      var inner := s[start + 1..end];
      if IsInactiveTimestamp(inner) {
        ScanStepStamp(s, start, end);
        PairInner(s, start, end);
        assert StampsOk([Copied(s[..start]), Stamp(inner)]);
        StampsAppend([Copied(s[..start]), Stamp(inner)], Scan(s[end + 1..]));
      } else {
        ScanStepCopy(s, start, end);
        assert StampsOk([Copied(s[..end + 1])]);
        StampsAppend([Copied(s[..end + 1])], Scan(s[end + 1..]));
      }
    }
  }

  /** Without a `[` that has a `]` somewhere after it, the text comes out
      unchanged whatever the style. */
  lemma NoBracketPairUnchanged(theme: Theme, s: Bytes)
    requires forall i, j :: 0 <= i < j < |s| && s[i] == LBRACKET ==> s[j] != RBRACKET
    ensures InactiveTimestamps(theme, s) == s
  {
    var start := IndexOf(s, LBRACKET);
    if start >= 0 {
      IndexOfFirst(s[start..], RBRACKET);
      assert forall k :: 0 <= k < |s[start..]| ==> s[start..][k] == s[start + k];
    }
    EmitNoPair(theme, s);
  }

  /** With the identity style the scan changes nothing. */
  lemma InactiveTimestampsPlain(s: Bytes)
    ensures InactiveTimestamps(Plain(), s) == s
  {
    EmitPlain(Scan(s));
    ScanRoundTrip(s);
  }

  lemma EmitNoPair(theme: Theme, s: Bytes)
    requires IndexOf(s, LBRACKET) < 0 || IndexOf(s[IndexOf(s, LBRACKET)..], RBRACKET) < 0
    ensures Emit(theme, Scan(s)) == s
  {
    ScanNoPair(s);
    assert Emit(theme, [Copied(s)]) == s + Emit(theme, []);
  }

  /** Writing the output of one turn keeps the loop's invariant: a styled
      timestamp after the text before it ... */
  lemma TurnStamp(theme: Theme, content: Bytes, result: Bytes, s: Bytes, start: int, end: int)
    requires PairAt(s, start, end) && start < end < |s|
    requires IsInactiveTimestamp(s[start + 1..end])
    requires result + Emit(theme, Scan(s)) == Emit(theme, Scan(content))
    ensures (result + (s[..start] + theme.apply(Role.Timestamp, [LBRACKET] + s[start + 1..end] + [RBRACKET])))
            + Emit(theme, Scan(s[end + 1..])) == Emit(theme, Scan(content))
  {
    ScanStepStamp(s, start, end);
    EmitStamp(theme, result, Emit(theme, Scan(content)), Scan(s), Scan(s[end + 1..]), s[..start], s[start + 1..end]);
  }

  /** ... or the text up to and including a `]` that closes no timestamp. */
  lemma TurnCopy(theme: Theme, content: Bytes, result: Bytes, s: Bytes, start: int, end: int)
    requires PairAt(s, start, end) && start < end < |s|
    requires !IsInactiveTimestamp(s[start + 1..end])
    requires result + Emit(theme, Scan(s)) == Emit(theme, Scan(content))
    ensures (result + s[..end + 1]) + Emit(theme, Scan(s[end + 1..])) == Emit(theme, Scan(content))
  {
    ScanStepCopy(s, start, end);
    EmitCopied(theme, result, Emit(theme, Scan(content)), Scan(s), Scan(s[end + 1..]), s[..end + 1]);
  }

  lemma EmitStamp(theme: Theme, result: Bytes, all: Bytes, ps: seq<Piece>, tail: seq<Piece>, before: Bytes, inner: Bytes)
    requires ps == [Copied(before), Stamp(inner)] + tail && result + Emit(theme, ps) == all
    ensures (result + (before + theme.apply(Role.Timestamp, [LBRACKET] + inner + [RBRACKET]))) + Emit(theme, tail) == all
  {
    var head := [Copied(before), Stamp(inner)];
    EmitAppend(theme, head, tail);
    assert head[1..][1..] == [];
    assert Emit(theme, head) == Out(theme, head[0]) + (Out(theme, head[1]) + Emit(theme, []));
    AppendAssoc(result, Emit(theme, head), Emit(theme, tail), all);
  }

  lemma EmitCopied(theme: Theme, result: Bytes, all: Bytes, ps: seq<Piece>, tail: seq<Piece>, text: Bytes)
    requires ps == [Copied(text)] + tail && result + Emit(theme, ps) == all
    ensures (result + text) + Emit(theme, tail) == all
  {
    var head := [Copied(text)];
    EmitAppend(theme, head, tail);
    assert head[1..] == [];
    assert Emit(theme, head) == text + Emit(theme, []);
    AppendAssoc(result, text, Emit(theme, tail), all);
  }

  /** renderInactiveTimestamps as the source writes it: a loop that keeps
      writing and cutting `remaining` until no bracket pair is left. */
  method WriteInactiveTimestamps(theme: Theme, content: Bytes) returns (result: Bytes)
    ensures result == InactiveTimestamps(theme, content)
  {
    result := [];
    var remaining := content;
    while true
      invariant result + Emit(theme, Scan(remaining)) == Emit(theme, Scan(content))
      decreases |remaining|
    {
      var start := IndexOf(remaining, LBRACKET);
      if start == -1 {
        EmitNoPair(theme, remaining);
        result := result + remaining;
        break;
      }
      var end := IndexOf(remaining[start..], RBRACKET);
      if end == -1 {
        EmitNoPair(theme, remaining);
        result := result + remaining;
        break;
      }
      end := end + start;
      PairBounds(remaining, start, end);
      var timestampContent := remaining[start + 1..end];
      var isStamp := false;
      if |timestampContent| >= 10 {
        isStamp := CheckInactiveTimestamp(timestampContent);
      }
      if isStamp {
        TurnStamp(theme, content, result, remaining, start, end);
        result := result + (remaining[..start] + theme.apply(Role.Timestamp, [LBRACKET] + timestampContent + [RBRACKET]));
      } else {
        TurnCopy(theme, content, result, remaining, start, end);
        result := result + remaining[..end + 1];
      }
      remaining := remaining[end + 1..];
    }
  }

  // Planning keywords, in the order they are tried.
  const SCHEDULED: Bytes := Ascii("SCHEDULED:")
  const DEADLINE: Bytes := Ascii("DEADLINE:")
  const CLOSED: Bytes := Ascii("CLOSED:")
  const PlanningKeywords: seq<(Bytes, Role)> :=
    [(SCHEDULED, Role.Scheduled), (DEADLINE, Role.Deadline), (CLOSED, Role.Closed)]

  /** The keyword starts the text, bare or after exactly one space. */
  predicate Announces(content: Bytes, keyword: Bytes) {
    HasPrefix(content, keyword) || HasPrefix(content, [SPACE] + keyword)
  }

  /** The loop of renderText over the keyword table, from its k-th entry. */
  function TextWith(theme: Theme, content: Bytes, keywords: seq<(Bytes, Role)>): Bytes {
    if keywords == [] then InactiveTimestamps(theme, content)
    else
      var (keyword, role) := keywords[0];
      if HasPrefix(content, keyword) then
        theme.apply(role, keyword) + InactiveTimestamps(theme, content[|keyword|..])
      else if HasPrefix(content, [SPACE] + keyword) then
        [SPACE] + theme.apply(role, keyword) + InactiveTimestamps(theme, content[|keyword| + 1..])
      else TextWith(theme, content, keywords[1..])
  }

  /** renderText */
  function RenderText(theme: Theme, content: Bytes): Bytes {
    TextWith(theme, content, PlanningKeywords)
  }

  lemma {:induction false} TextWithNone(theme: Theme, content: Bytes, keywords: seq<(Bytes, Role)>)
    requires forall j :: 0 <= j < |keywords| ==> !Announces(content, keywords[j].0)
    ensures TextWith(theme, content, keywords) == InactiveTimestamps(theme, content)
  {
    if keywords != [] {
      TextWithNone(theme, content, keywords[1..]);
    }
  }

  lemma {:induction false} TextWithFirst(theme: Theme, content: Bytes,
                                         keywords: seq<(Bytes, Role)>, k: nat)
    requires k < |keywords| && Announces(content, keywords[k].0)
    requires forall j :: 0 <= j < k ==> !Announces(content, keywords[j].0)
    ensures var (keyword, role) := keywords[k];
            var lead := if HasPrefix(content, keyword) then [] else [SPACE];
            && content == lead + keyword + content[|lead| + |keyword|..]
            && TextWith(theme, content, keywords)
               == lead + theme.apply(role, keyword)
                  + InactiveTimestamps(theme, content[|lead| + |keyword|..])
  {
    if k > 0 {
      assert !Announces(content, keywords[0].0);
      TextWithFirst(theme, content, keywords[1..], k - 1);
    }
  }

  /** When no keyword starts the text (bare or after one space), all of it
      goes to the timestamp scan. */
  lemma RenderTextNoKeyword(theme: Theme, content: Bytes)
    requires forall j :: 0 <= j < |PlanningKeywords| ==> !Announces(content, PlanningKeywords[j].0)
    ensures RenderText(theme, content) == InactiveTimestamps(theme, content)
  {
    TextWithNone(theme, content, PlanningKeywords);
  }

  /** The first keyword of SCHEDULED:, DEADLINE:, CLOSED: that starts the
      text (bare, or else after one space) is the only part styled with its
      role; what follows it goes to the timestamp scan. */
  lemma RenderTextKeyword(theme: Theme, content: Bytes, k: nat)
    requires k < |PlanningKeywords| && Announces(content, PlanningKeywords[k].0)
    requires forall j :: 0 <= j < k ==> !Announces(content, PlanningKeywords[j].0)
    ensures var (keyword, role) := PlanningKeywords[k];
            var lead := if HasPrefix(content, keyword) then [] else [SPACE];
            && content == lead + keyword + content[|lead| + |keyword|..]
            && RenderText(theme, content)
               == lead + theme.apply(role, keyword)
                  + InactiveTimestamps(theme, content[|lead| + |keyword|..])
  {
    TextWithFirst(theme, content, PlanningKeywords, k);
  }

  /** With the identity styles renderText gives back its input. */
  lemma RenderTextPlain(content: Bytes)
    ensures RenderText(Plain(), content) == content
  {
    var k :| 0 <= k <= 3 && (k < 3 ==> Announces(content, PlanningKeywords[k].0))
             && forall j :: 0 <= j < k ==> !Announces(content, PlanningKeywords[j].0);
    if k == 3 {
      RenderTextNoKeyword(Plain(), content);
      InactiveTimestampsPlain(content);
    } else {
      RenderTextKeyword(Plain(), content, k);
      var keyword := PlanningKeywords[k].0;
      var lead := if HasPrefix(content, keyword) then [] else [SPACE];
      InactiveTimestampsPlain(content[|lead| + |keyword|..]);
    }
  }
}
