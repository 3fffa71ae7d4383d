/**
 * Character classes and the few library routines the parser relies on:
 * `char::is_whitespace`, `char::is_digit(10)`, `u32::from_str_radix(_, 16)`,
 * `char::from_u32`, `char::len_utf8`, and which digit/dot runs `str::parse::<f64>`
 * accepts.
 */
module Chars {
  import opened JsonTypes

  /** Unicode White_Space, the table behind Rust's `char::is_whitespace`. */
  predicate IsWhitespace(c: char) {
    || ('\U{0009}' <= c <= '\U{000D}')
    || c == ' '
    || c == '\U{0085}'
    || c == '\U{00A0}'
    || c == '\U{1680}'
    || ('\U{2000}' <= c <= '\U{200A}')
    || c == '\U{2028}'
    || c == '\U{2029}'
    || c == '\U{202F}'
    || c == '\U{205F}'
    || c == '\U{3000}'
  }

  /** `char::is_digit(10)`: ASCII decimal digits only. */
  predicate IsDigit(c: char) {
    '0' <= c <= '9'
  }

  /** The characters `parse_number` accumulates. */
  predicate IsNumberChar(c: char) {
    IsDigit(c) || c == '.'
  }

  /** The value of one base-16 digit, either case. */
  function HexDigit(c: char): (d: Option<nat>)
    ensures d.Some? ==> d.value < 16
    ensures d.Some? <==> ('0' <= c <= '9' || 'a' <= c <= 'f' || 'A' <= c <= 'F')
  {
    if '0' <= c <= '9' then Some(c as nat - '0' as nat)
    else if 'a' <= c <= 'f' then Some(c as nat - 'a' as nat + 10)
    else if 'A' <= c <= 'F' then Some(c as nat - 'A' as nat + 10)
    else None
  }

  function Pow16(n: nat): nat
  {
    if n == 0 then 1 else 16 * Pow16(n - 1)
  }

  /** The number a run of hex digits denotes, most significant first;
      None as soon as one character is not a hex digit. */
  function HexDigits(t: string): (r: Option<nat>)
    ensures r.Some? ==> r.value < Pow16(|t|)
  {
    if t == [] then Some(0)
    else
      var front := HexDigits(t[..|t| - 1]);
      var last := HexDigit(t[|t| - 1]);
      if front.None? || last.None? then None
      else Some(16 * front.value + last.value)
  }

  /** A run is read as a number exactly when every character is a hex digit. */
  lemma {:induction false} HexDigitsDefined(t: string)
    ensures HexDigits(t).Some? <==> forall k :: 0 <= k < |t| ==> HexDigit(t[k]).Some?
  {
    if t != [] {
      HexDigitsDefined(t[..|t| - 1]);
      assert forall k :: 0 <= k < |t| - 1 ==> t[..|t| - 1][k] == t[k];
    }
  }

  /** `u32::from_str_radix(t, 16)`: an optional leading `+`, then at least one
      hex digit and nothing else. (For at most four digits no overflow can
      occur, and `t` never has more than four characters here.) */
  function FromStrRadix16(t: string): (r: Option<nat>)
    ensures r.Some? ==> |t| > 0 && r.value < Pow16(|t|)
  {
    if t == [] then None
    else if t[0] == '+' then
      if |t| == 1 then None
      else
        var r := HexDigits(t[1..]);
        if r.Some? then assert Pow16(|t| - 1) <= Pow16(|t|); r else None
    else
      HexDigits(t)
  }

  /** Which texts `u32::from_str_radix(_, 16)` accepts. */
  lemma FromStrRadix16Accepts(t: string)
    ensures FromStrRadix16(t).Some? <==>
      || (|t| > 0 && t[0] != '+' && forall k :: 0 <= k < |t| ==> HexDigit(t[k]).Some?)
      || (|t| > 1 && t[0] == '+' && forall k :: 1 <= k < |t| ==> HexDigit(t[k]).Some?)
  {
    HexDigitsDefined(t);
    if |t| > 1 {
      HexDigitsDefined(t[1..]);
      assert forall k :: 1 <= k < |t| ==> t[1..][k - 1] == t[k];
    }
  }

  /** Surrogate code points, which are not Unicode scalar values. */
  predicate IsSurrogate(v: nat) {
    0xD800 <= v <= 0xDFFF
  }

  /** `char::from_u32`: defined exactly on the Unicode scalar values. */
  function CharFromU32(v: nat): (r: Option<char>)
    ensures r.Some? <==> v < 0x11_0000 && !IsSurrogate(v)
    ensures r.Some? ==> r.value as nat == v
  {
    if v < 0xD800 || 0xDFFF < v < 0x11_0000 then Some(v as char) else None
  }

  /** `char::len_utf8`, the UTF-8 width of a scalar value (RFC 3629, section 3). */
  function Utf8Width(c: char): (w: nat)
    ensures 1 <= w <= 4
    ensures w == 1 <==> c as nat < 0x80
  {
    if c as nat < 0x80 then 1
    else if c as nat < 0x800 then 2
    else if c as nat < 0x1_0000 then 3
    else 4
  }

  /** The byte offset of character index `i` in the UTF-8 encoding of `s`:
      the quantity Rust's cursor stores as `pos`. */
  function ByteOffset(s: string, i: nat): (b: nat)
    requires i <= |s|
    ensures i <= b <= 4 * i
  {
    if i == 0 then 0 else ByteOffset(s, i - 1) + Utf8Width(s[i - 1])
  }

  predicate IsAscii(s: string) {
    forall k :: 0 <= k < |s| ==> s[k] as nat < 0x80
  }

  /** Over ASCII text a character index is a byte offset. */
  lemma {:induction false} AsciiByteOffset(s: string, i: nat)
    requires i <= |s| && IsAscii(s[..i])
    ensures ByteOffset(s, i) == i
  {
    if i > 0 {
      assert s[..i - 1] == s[..i][..i - 1];
      AsciiByteOffset(s, i - 1);
      assert s[..i][i - 1] == s[i - 1];
    }
  }

  /** Moving the cursor forward never moves the byte offset backward. */
  lemma {:induction false} ByteOffsetMonotonic(s: string, i: nat, j: nat)
    requires i <= j <= |s|
    ensures ByteOffset(s, i) + (j - i) <= ByteOffset(s, j)
    decreases j - i
  {
    if i < j {
      ByteOffsetMonotonic(s, i, j - 1);
    }
  }

  function DotCount(t: string): nat
  {
    if t == [] then 0 else (if t[0] == '.' then 1 else 0) + DotCount(t[1..])
  }

  function HasDigit(t: string): (b: bool)
    ensures b ==> |t| > 0
  {
    if t == [] then false
    else IsDigit(t[0]) || HasDigit(t[1..])
  }

  lemma {:induction false} HasDigitExists(t: string)
    ensures HasDigit(t) <==> exists k :: 0 <= k < |t| && IsDigit(t[k])
  {
    if t != [] {
      HasDigitExists(t[1..]);
      assert forall k :: 1 <= k < |t| ==> t[1..][k - 1] == t[k];
      if HasDigit(t[1..]) {
        var k :| 0 <= k < |t[1..]| && IsDigit(t[1..][k]);
        assert IsDigit(t[k + 1]);
      }
    }
  }

  /** Whether `str::parse::<f64>` accepts a run of digits and dots. Rust's
      float grammar restricted to that alphabet is `Digit+`, `Digit+ '.' Digit*`
      or `Digit* '.' Digit+`: at least one digit and at most one dot. */
  predicate F64Accepts(t: string) {
    HasDigit(t) && DotCount(t) <= 1
  }
}
