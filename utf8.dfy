/** The parts of Go's UTF-8 handling the renderer relies on: decoding one rune
    the way `utf8.DecodeRuneInString` and `for ... range` over a string do,
    counting runes the way `fmt` does when it pads `%-*s`, and the padding. */
module Utf8 {
  import opened Bytes

  const RuneError: int := 0xFFFD

  /** Continuation-byte bounds for the second byte, by lead byte. */
  function SecondLow(lead: byte): byte {
    if lead == 0xE0 then 0xA0 else if lead == 0xF0 then 0x90 else 0x80
  }
  function SecondHigh(lead: byte): byte {
    if lead == 0xED then 0x9F else if lead == 0xF4 then 0x8F else 0xBF
  }

  /** Encoded length announced by a lead byte; 1 for ASCII and for bytes
      that cannot start a sequence. */
  function LeadSize(lead: byte): nat {
    if 0xC2 <= lead <= 0xDF then 2
    else if 0xE0 <= lead <= 0xEF then 3
    else if 0xF0 <= lead <= 0xF4 then 4
    else 1
  }

  predicate IsCont(b: byte) { 0x80 <= b <= 0xBF }

  /** utf8.DecodeRuneInString on a non-empty string: the rune and its size.
      A malformed prefix yields (RuneError, 1). */
  function Decode(s: Bytes): (d: (int, nat))
    requires |s| > 0
    ensures 1 <= d.1 <= 4 && d.1 <= |s|
    ensures s[0] < 0x80 <==> d == (s[0], 1)
    ensures s[0] >= 0x80 ==> d.0 >= 0x80
  {
    var s0: int := s[0];
    if s0 < 0x80 then (s0, 1)
    else
      var sz := LeadSize(s0);
      if sz == 1 || |s| < sz then (RuneError, 1)
      else if s[1] < SecondLow(s0) || SecondHigh(s0) < s[1] then (RuneError, 1)
      else
        var s1: int, s2: int := s[1], if |s| > 2 then s[2] else 0;
        if sz == 2 then ((s0 - 0xC0) * 64 + (s1 - 0x80), 2)
        else if !IsCont(s[2]) then (RuneError, 1)
        else if sz == 3 then ((s0 - 0xE0) * 4096 + (s1 - 0x80) * 64 + (s2 - 0x80), 3)
        else if !IsCont(s[3]) then (RuneError, 1)
        else ((s0 - 0xF0) * 262144 + (s1 - 0x80) * 4096 + (s2 - 0x80) * 64 + (s[3] as int - 0x80), 4)
  }

  /** The step decodes an invalid byte (as opposed to a real U+FFFD). */
  predicate BadStep(s: Bytes)
    requires |s| > 0
  {
    Decode(s) == (RuneError, 1)
  }

  /** utf8.RuneCountInString: the number of decoding steps. */
  function RuneCount(s: Bytes): (n: nat)
    ensures n <= |s|
    decreases |s|
  {
    if s == [] then 0 else 1 + RuneCount(s[Decode(s).1..])
  }

  /** utf8.ValidString */
  predicate Valid(s: Bytes)
    decreases |s|
  {
    s == [] || (!BadStep(s) && Valid(s[Decode(s).1..]))
  }

  /** `fmt.Sprintf("%-*s", width, s)`: `s` followed by spaces up to `width` runes. */
  function PadRight(s: Bytes, width: int): (r: Bytes)
    ensures HasPrefix(r, s)
    ensures forall i :: |s| <= i < |r| ==> r[i] == SPACE
  {
    s + Repeat([SPACE], Max(width - RuneCount(s), 0))
  }

  /** A sequence that ends inside a rune decodes, when followed by ASCII, to
      the same first step as on its own: the ASCII byte fails the
      continuation check the way the missing byte fails the length check. */
  lemma DecodeBeforeAscii(a: Bytes, b: Bytes)
    requires |a| > 0 && (b == [] || b[0] < 0x80)
    ensures Decode(a + b) == Decode(a)
  {
    var s := a + b;
    assert s[0] == a[0];
    if |a| >= 2 { assert s[1] == a[1]; }
    if |a| >= 3 { assert s[2] == a[2]; }
    if |a| >= 4 { assert s[3] == a[3]; }
  }

  /** A step that decodes successfully reads only bytes of its own rune. */
  lemma DecodeGoodPrefix(a: Bytes, b: Bytes)
    requires |a| > 0 && !BadStep(a)
    ensures Decode(a + b) == Decode(a)
  {
    var s := a + b;
    assert s[0] == a[0];
    if |a| >= 2 { assert s[1] == a[1]; }
    if |a| >= 3 { assert s[2] == a[2]; }
    if |a| >= 4 { assert s[3] == a[3]; }
  }

  lemma {:induction false} RuneCountAllAscii(b: Bytes)
    requires forall i :: 0 <= i < |b| ==> b[i] < 0x80
    ensures RuneCount(b) == |b|
    decreases |b|
  {
    if b != [] {
      RuneCountAllAscii(b[1..]);
    }
  }

  /** Rune counts add up across a boundary that is followed by ASCII. */
  lemma {:induction false} RuneCountConcatAscii(a: Bytes, b: Bytes)
    requires b == [] || b[0] < 0x80
    ensures RuneCount(a + b) == RuneCount(a) + RuneCount(b)
    decreases |a|
  {
    if a == [] {
      assert a + b == b;
    } else {
      DecodeBeforeAscii(a, b);
      var n := Decode(a).1;
      assert (a + b)[n..] == a[n..] + b;
      RuneCountConcatAscii(a[n..], b);
    }
  }

  /** Rune counts add up after a valid prefix. */
  lemma {:induction false} RuneCountConcatValid(a: Bytes, b: Bytes)
    requires Valid(a)
    ensures RuneCount(a + b) == RuneCount(a) + RuneCount(b)
    decreases |a|
  {
    if a == [] {
      assert a + b == b;
    } else {
      DecodeGoodPrefix(a, b);
      var n := Decode(a).1;
      assert (a + b)[n..] == a[n..] + b;
      RuneCountConcatValid(a[n..], b);
    }
  }

  lemma {:induction false} ValidConcat(a: Bytes, b: Bytes)
    requires Valid(a) && Valid(b)
    ensures Valid(a + b)
    decreases |a|
  {
    if a == [] {
      assert a + b == b;
    } else {
      DecodeGoodPrefix(a, b);
      var n := Decode(a).1;
      assert (a + b)[n..] == a[n..] + b;
      ValidConcat(a[n..], b);
    }
  }

  /** Three valid pieces, one after another. */
  lemma RuneCount3(a: Bytes, b: Bytes, c: Bytes)
    requires Valid(a) && Valid(b) && Valid(c)
    ensures RuneCount(a + b + c) == RuneCount(a) + RuneCount(b) + RuneCount(c)
    ensures Valid(a + b + c)
  {
    RuneCountConcatValid(a, b);
    ValidConcat(a, b);
    RuneCountConcatValid(a + b, c);
    ValidConcat(a + b, c);
  }

  lemma {:induction false} RuneCountRepeat(g: Bytes, n: nat)
    requires Valid(g)
    ensures RuneCount(Repeat(g, n)) == n * RuneCount(g)
    ensures Valid(Repeat(g, n))
  {
    if n > 0 {
      var rest := Repeat(g, n - 1);
      RuneCountRepeat(g, n - 1);
      RepeatStep(g, n, rest, RuneCount(g), RuneCount(rest));
    }
  }

  lemma RepeatStep(g: Bytes, n: nat, rest: Bytes, c: int, d: int)
    requires n > 0 && rest == Repeat(g, n - 1) && Valid(g) && Valid(rest)
    requires c == RuneCount(g) && d == RuneCount(rest) && d == (n - 1) * c
    ensures RuneCount(Repeat(g, n)) == n * c && Valid(Repeat(g, n))
  {
    assert Repeat(g, n) == g + rest;
    RuneCountConcatValid(g, rest);
    ValidConcat(g, rest);
    MulStep(n, c);
  }

  lemma MulStep(n: nat, c: int)
    requires n > 0
    ensures n * c == c + (n - 1) * c
  {
  }

  /** The padded cell the table writes is `width` runes wide, or wider when
      the content alone is. */
  lemma PadRightRunes(s: Bytes, width: int)
    ensures RuneCount(PadRight(s, width)) == Max(width, RuneCount(s))
  {
    var pad := Repeat([SPACE], Max(width - RuneCount(s), 0));
    RuneCountConcatAscii(s, pad);
    RuneCountAllAscii(pad);
  }
}
