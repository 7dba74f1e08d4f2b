/** Byte strings and the handful of Go `strings` functions the core calls.
    A Go `string` is an immutable byte sequence; `len`, slicing and comparison
    all work on bytes, so the model uses `seq<byte>` throughout. */
module Bytes {

  datatype Option<T> = None | Some(value: T)

  /** A value or Go's `error`, the latter by its message. */
  datatype Result<T> = Ok(value: T) | Err(error: Bytes)

  type byte = x: int | 0 <= x < 256
  type Bytes = seq<byte>

  /** The bytes of an ASCII literal (every literal written with it is ASCII). */
  function Ascii(s: string): (r: Bytes)
    ensures |r| == |s|
  {
    seq(|s|, i requires 0 <= i < |s| => (s[i] as int) % 256)
  }

  const NEWLINE: byte := 10
  const SPACE: byte := 32
  const DASH: byte := 45
  const DOT: byte := 46
  const LBRACKET: byte := 91
  const RBRACKET: byte := 93

  predicate IsDigit(b: byte) { 48 <= b <= 57 }

  function Max(a: int, b: int): int { if a < b then b else a }

  /** Regrouping a concatenation the way a builder loop appends. */
  lemma AppendAssoc(out: Bytes, piece: Bytes, rest: Bytes, all: Bytes)
    requires out + (piece + rest) == all
    ensures (out + piece) + rest == all
  {
  }

  /** Writing a line and its newline when the line is not empty, the way
      the renderer's builder loops do. */
  lemma LineStep(out: Bytes, line: Bytes, rest: Bytes, suffix: Bytes, all: Bytes)
    requires suffix == (if line == [] then [] else line + [NEWLINE]) + rest && out + suffix == all
    ensures line != [] ==> (out + line + [NEWLINE]) + rest == all
    ensures line == [] ==> out + rest == all
  {
    if line != [] {
      assert out + (line + [NEWLINE] + rest) == (out + line + [NEWLINE]) + rest;
    }
  }

  /** Writing a line and its newline. */
  lemma LineAppend(out: Bytes, line: Bytes, rest: Bytes, all: Bytes)
    requires out + ((line + [NEWLINE]) + rest) == all
    ensures (out + line + [NEWLINE]) + rest == all
  {
    assert out + ((line + [NEWLINE]) + rest) == (out + line + [NEWLINE]) + rest;
  }

  /** Lines, each followed by its newline. */
  function EachLine(ls: seq<Bytes>): Bytes
    decreases |ls|
  {
    if ls == [] then [] else ls[0] + [NEWLINE] + EachLine(ls[1..])
  }

  /** Writing line `i` of `ls` with its newline. */
  lemma EachLineStep(ls: seq<Bytes>, i: nat, out: Bytes, all: Bytes)
    requires i < |ls| && out + EachLine(ls[i..]) == all
    ensures (out + ls[i] + [NEWLINE]) + EachLine(ls[i + 1..]) == all
  {
    assert ls[i..][1..] == ls[i + 1..];
    LineAppend(out, ls[i], EachLine(ls[i + 1..]), all);
  }

  /** strings.HasPrefix */
  predicate HasPrefix(s: Bytes, prefix: Bytes) {
    |prefix| <= |s| && s[..|prefix|] == prefix
  }

  /** strings.HasSuffix */
  predicate HasSuffix(s: Bytes, suffix: Bytes) {
    |suffix| <= |s| && s[|s| - |suffix|..] == suffix
  }

  lemma PrefixOfAppend(a: Bytes, b: Bytes)
    ensures HasPrefix(a + b, a)
  {
    assert (a + b)[..|a|] == a;
  }

  /** strings.TrimSuffix: removes one copy of `suffix` if present. */
  function TrimSuffix(s: Bytes, suffix: Bytes): (r: Bytes)
    ensures HasSuffix(s, suffix) ==> r + suffix == s
    ensures !HasSuffix(s, suffix) ==> r == s
  {
    if HasSuffix(s, suffix) then s[..|s| - |suffix|] else s
  }

  /** strings.Repeat with a non-negative count. */
  function Repeat(s: Bytes, n: nat): (r: Bytes)
    ensures |s| == 1 ==> |r| == n && forall i :: 0 <= i < |r| ==> r[i] == s[0]
  {
    if n == 0 then [] else s + Repeat(s, n - 1)
  }

  /** strings.Index for a one-byte needle: a position of `b`, or -1
      (that it is the first one, and -1 only when `b` is absent, is
      IndexOfFirst). */
  function IndexOf(s: Bytes, b: byte): (i: int)
    ensures -1 <= i < |s|
    ensures 0 <= i ==> s[i] == b
  {
    if s == [] then -1
    else if s[0] == b then 0
    else
      var j := IndexOf(s[1..], b);
      if j == -1 then -1 else 1 + j
  }

  /** IndexOf finds the first occurrence, and answers -1 exactly when there
      is none. */
  lemma {:induction false} IndexOfFirst(s: Bytes, b: byte)
    ensures IndexOf(s, b) == -1 <==> b !in s
    ensures 0 <= IndexOf(s, b) ==> b !in s[..IndexOf(s, b)]
  {
    if s != [] && s[0] != b {
      IndexOfFirst(s[1..], b);
      var j := IndexOf(s[1..], b);
      if j >= 0 {
        assert s[..1 + j] == [s[0]] + s[1..][..j];
      } else {
        assert s == [s[0]] + s[1..];
      }
    }
  }

  /** strings.ContainsAny(s, "0123456789"). An ASCII byte of a Go string
      always decodes as the rune of the same value, so testing bytes is
      the same as testing runes. */
  predicate ContainsDigit(s: Bytes) {
    exists i :: 0 <= i < |s| && IsDigit(s[i])
  }

  function LowerByte(b: byte): byte { if 65 <= b <= 90 then b + 32 else b }
  function UpperByte(b: byte): byte { if 97 <= b <= 122 then b - 32 else b }

  /** strings.ToLower restricted to ASCII letters. */
  function ToLower(s: Bytes): (r: Bytes)
    ensures |r| == |s|
  {
    seq(|s|, i requires 0 <= i < |s| => LowerByte(s[i]))
  }

  /** strings.ToUpper restricted to ASCII letters. */
  function ToUpper(s: Bytes): (r: Bytes)
    ensures |r| == |s|
  {
    seq(|s|, i requires 0 <= i < |s| => UpperByte(s[i]))
  }

  /** strings.Join */
  function Join(parts: seq<Bytes>, sep: Bytes): Bytes {
    if parts == [] then []
    else if |parts| == 1 then parts[0]
    else parts[0] + sep + Join(parts[1..], sep)
  }

  /** Go's `<` on strings: bytewise lexicographic order. */
  predicate Less(a: Bytes, b: Bytes) {
    if a == [] then b != []
    else if b == [] then false
    else a[0] < b[0] || (a[0] == b[0] && Less(a[1..], b[1..]))
  }

  predicate LessEq(a: Bytes, b: Bytes) { !Less(b, a) }

  lemma {:induction false} LessTransitive(a: Bytes, b: Bytes, c: Bytes)
    requires LessEq(a, b) && LessEq(b, c)
    ensures LessEq(a, c)
  {
    if a != [] && b != [] && c != [] {
      if a[0] == b[0] && b[0] == c[0] {
        LessTransitive(a[1..], b[1..], c[1..]);
      }
    }
  }

  lemma {:induction false} LessTotal(a: Bytes, b: Bytes)
    ensures LessEq(a, b) || LessEq(b, a)
  {
    if a != [] && b != [] && a[0] == b[0] {
      LessTotal(a[1..], b[1..]);
    }
  }
}
