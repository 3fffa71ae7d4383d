/**
 * Properties of the parser, stated on the functions of module Grammar that
 * the methods of module Parser are proved to compute (so `ParseResult(t)`
 * below is what `Parser.ParseJson(t)` returns).
 */
module Properties {
  import opened JsonTypes
  import opened Chars
  import opened Grammar
  import opened Printer
  import opened RoundTrip

  /** Whitespace skipping stops at `e` when everything before it is
      whitespace and the character at `e` is not. */
  lemma {:induction false} SkipWsTo(s: string, i: nat, e: nat)
    requires i <= e <= |s|
    requires forall k :: i <= k < e ==> IsWhitespace(s[k])
    requires e == |s| || !IsWhitespace(s[e])
    ensures SkipWs(s, i) == e
    decreases e - i
  {
    if i < e {
      SkipWsTo(s, i + 1, e);
    }
  }

  /** Skipping whitespace twice is skipping it once. */
  lemma SkipWsIdempotent(s: string, i: nat)
    requires i <= |s|
    ensures SkipWs(s, SkipWs(s, i)) == SkipWs(s, i)
  {
    var j := SkipWs(s, i);
    assert j == |s| || !IsWhitespace(s[j]);
  }

  /** `parse_value` ignores the whitespace in front of a value. */
  lemma ValueAfterWhitespace(s: string, i: nat)
    requires i <= |s|
    ensures ValueAt(s, i) == ValueAt(s, SkipWs(s, i))
  {
    SkipWsIdempotent(s, i);
  }

  /** Text made only of whitespace characters. */
  predicate AllWhitespace(w: string) {
    forall k :: 0 <= k < |w| ==> IsWhitespace(w[k])
  }

  /** In `w + p + t`, the text `p` stands at index `|w|`. */
  lemma Infix(w: string, p: string, t: string)
    ensures StartsWith(w + p + t, |w|, p)
  {
    var s := w + p + t;
    forall k | 0 <= k < |p| ensures s[|w| + k] == p[k] {
      assert s[|w| + k] == (w + p)[|w| + k];
    }
    StartsWithChars(s, |w|, p);
  }

  /** Leading whitespace `w` is skipped up to the first character after it,
      when that character is not whitespace itself. */
  lemma SkipLeading(w: string, rest: string)
    requires AllWhitespace(w)
    requires rest == [] || !IsWhitespace(rest[0])
    ensures SkipWs(w + rest, 0) == |w|
  {
    var s := w + rest;
    forall k | 0 <= k < |w| ensures IsWhitespace(s[k]) {
      assert s[k] == w[k];
    }
    if rest != [] {
      assert s[|w|] == rest[0];
    }
    SkipWsTo(s, 0, |w|);
  }

  /** Text that is empty or only whitespace is reported as an unexpected end
      at its end. */
  lemma BlankInputIsUnexpectedEnd(w: string)
    requires AllWhitespace(w)
    ensures ParseResult(w) == Err(ParseError(UnexpectedEnd, ByteOffset(w, |w|)))
  {
    forall k | 0 <= k < |w| ensures IsWhitespace(w[k]) { }
    SkipWsTo(w, 0, |w|);
    assert DispatchAt(w, |w|) == Stop(UnexpectedEnd, |w|);
  }

  /** The keywords are recognised as prefixes: whatever follows `null`,
      `true` or `false` (after optional whitespace) is left unread, so
      `nullx` is `Null`. */
  lemma KeywordsMatchAsPrefixes(w: string, t: string)
    requires AllWhitespace(w)
    ensures ParseResult(w + "null" + t) == Ok(Null)
    ensures ParseResult(w + "true" + t) == Ok(Bool(true))
    ensures ParseResult(w + "false" + t) == Ok(Bool(false))
  {
    KeywordAfterWhitespace(w, "null", t, Null);
    KeywordAfterWhitespace(w, "true", t, Bool(true));
    KeywordAfterWhitespace(w, "false", t, Bool(false));
  }

  lemma KeywordAfterWhitespace(w: string, kw: string, t: string, v: JsonValue)
    requires AllWhitespace(w)
    requires (kw, v) == ("null", Null) || (kw, v) == ("true", Bool(true)) || (kw, v) == ("false", Bool(false))
    ensures ParseResult(w + kw + t) == Ok(v)
  {
    var s := w + kw + t;
    assert s == w + (kw + t);
    assert (kw + t)[0] == kw[0];
    SkipLeading(w, kw + t);
    Infix(w, kw, t);
    assert s[|w|] == kw[0];
    assert SkipWs(s, |w|) == |w|;
    KeywordValue(s, |w|, |w|);
  }

  /** A minus sign is never accepted: `-` passes the dispatch of
      `parse_value`, but the run `parse_number` collects holds digits and
      dots only, so it is empty and rejected where it starts. */
  lemma NegativeNumbersRejected(s: string, i: nat)
    requires i <= |s|
    requires SkipWs(s, i) < |s| && s[SkipWs(s, i)] == '-'
    ensures ValueAt(s, i) == Stop(InvalidNumber, SkipWs(s, i))
  {
    var j := SkipWs(s, i);
    assert !StartsWith(s, j, "null") && !StartsWith(s, j, "true") && !StartsWith(s, j, "false");
    assert NumberEnd(s, j) == j;
    assert !DigitIn(s, j, j);
  }

  /** Where no keyword matches, a character that starts no value is
      reported as unexpected, at its own position. */
  lemma UnexpectedValueChar(s: string, i: nat)
    requires i <= |s| && SkipWs(s, i) < |s|
    requires var j := SkipWs(s, i);
      && !StartsWith(s, j, "null") && !StartsWith(s, j, "true") && !StartsWith(s, j, "false")
      && s[j] != '"' && s[j] != '[' && s[j] != '{' && s[j] != '-' && !IsDigit(s[j])
    ensures ValueAt(s, i) == Stop(UnexpectedChar(s[SkipWs(s, i)]), SkipWs(s, i))
  {
  }

  /** `parse_number` succeeds exactly when its run of digits and dots is
      accepted by Rust's `f64` parser, and then the value is that run;
      otherwise it fails at the end of the run. */
  lemma NumberAccepted(s: string, i: nat)
    requires i <= |s|
    ensures var e := NumberEnd(s, i);
      && (NumberAt(s, i).Done? <==> F64Accepts(s[i..e]))
      && (NumberAt(s, i).Done? ==> NumberAt(s, i) == Done(Number(s[i..e]), e))
      && (NumberAt(s, i).Stop? ==> NumberAt(s, i).at == e)
  {
    RunAcceptedIsF64Accepts(s, i, NumberEnd(s, i));
  }

  /** There are no exponents, signs or other number syntax: the run stops at
      the first character that is neither a digit nor a dot, so `1e5` is read
      as the number `1` followed by ignored text. */
  lemma NumberStopsAtNonNumberChar(s: string, i: nat, e: nat)
    requires i < e <= |s|
    requires forall k :: i <= k < e ==> IsNumberChar(s[k])
    requires e == |s| || !IsNumberChar(s[e])
    requires F64Accepts(s[i..e])
    ensures NumberAt(s, i) == Done(Number(s[i..e]), e)
  {
    NumberEndAt(s, i, e);
    RunAcceptedIsF64Accepts(s, i, e);
  }

  /** The run between `i` and `j` holds at least the two dots at `a`
      and `b`. */
  lemma {:induction false} TwoDotsCounted(s: string, i: nat, j: nat, a: nat, b: nat)
    requires i <= a < b < j <= |s| && s[a] == '.' && s[b] == '.'
    ensures DotsIn(s, i, j) >= 2
    decreases j - i
  {
    if i < a {
      TwoDotsCounted(s, i + 1, j, a, b);
    } else {
      assert DotsIn(s, b, j) >= 1;
      assert DotsIn(s, i + 1, j) >= DotsIn(s, b, j) by {
        DotsInMonotonic(s, i + 1, b, j);
      }
    }
  }

  lemma {:induction false} DotsInMonotonic(s: string, i: nat, b: nat, j: nat)
    requires i <= b <= j <= |s|
    ensures DotsIn(s, i, j) >= DotsIn(s, b, j)
    decreases b - i
  {
    if i < b {
      DotsInMonotonic(s, i + 1, b, j);
    }
  }

  /** A run of digits and dots with two dots in it, such as `123.456.789`,
      is an invalid number, reported at the end of the run. */
  lemma TwoDotsRejected(s: string, i: nat, a: nat, b: nat, e: nat)
    requires i <= a < b < e <= |s| && s[a] == '.' && s[b] == '.'
    requires forall k :: i <= k < e ==> IsNumberChar(s[k])
    requires e == |s| || !IsNumberChar(s[e])
    ensures NumberAt(s, i) == Stop(InvalidNumber, e)
  {
    NumberEndAt(s, i, e);
    TwoDotsCounted(s, i, e, a, b);
  }

  /** What a value can start with, after whitespace: a value is only ever
      produced at `n`, `t`, `f`, a quote, an opening bracket or brace, or a
      digit. */
  lemma ValueStartChars(s: string, i: nat)
    requires i <= |s|
    ensures var j := SkipWs(s, i);
      ValueAt(s, i).Done? ==>
        && j < |s|
        && (s[j] == 'n' || s[j] == 't' || s[j] == 'f' || s[j] == '"'
            || s[j] == '[' || s[j] == '{' || IsDigit(s[j]))
  {
    var j := SkipWs(s, i);
    if StartsWith(s, j, "null") {
      StartsWithFirst(s, j, "null");
    } else if StartsWith(s, j, "true") {
      StartsWithFirst(s, j, "true");
    } else if StartsWith(s, j, "false") {
      StartsWithFirst(s, j, "false");
    } else if j < |s| && s[j] == '-' {
      NegativeNumbersRejected(s, i);
    } else {
      assert ValueAt(s, i) == DispatchAt(s, j);
    }
  }

  /** Print-then-parse for whole texts: a printable value, with whitespace in
      front and after it any text that does not start with a digit or a dot,
      is what `parse_json` returns. */
  lemma ParseRoundTrip(w: string, v: JsonValue, t: string)
    requires AllWhitespace(w) && Printable(v)
    requires t == [] || !IsNumberChar(t[0])
    ensures ParseResult(w + Print(v) + t) == Ok(v)
  {
    var p := Print(v);
    var s := w + p + t;
    PrintFirstChar(v);
    assert s == w + (p + t);
    assert (p + t)[0] == p[0];
    SkipLeading(w, p + t);
    ValueAfterWhitespace(s, 0);
    Infix(w, p, t);
    if t != [] {
      assert s[|w| + |p|] == t[0];
    }
    ValueRoundTrip(s, |w|, v);
  }

  // ---- parse_string ----

  /** Characters other than a quote or a backslash are copied as they are,
      control characters included. */
  lemma {:induction false} PlainChars(s: string, i: nat, j: nat, acc: string)
    requires i <= j <= |s|
    requires forall k :: i <= k < j ==> s[k] != '"' && s[k] != '\\'
    ensures StringRest(s, i, acc) == StringRest(s, j, acc + s[i..j])
    decreases j - i
  {
    if i == j {
      assert acc + s[i..j] == acc;
    } else {
      PlainChars(s, i + 1, j, acc + [s[i]]);
      assert (acc + [s[i]]) + s[i + 1..j] == acc + s[i..j];
    }
  }

  /** The first quote after such characters ends the string. */
  lemma PlainStringRun(s: string, i: nat, j: nat, acc: string)
    requires i <= j < |s| && s[j] == '"'
    requires forall k :: i <= k < j ==> s[k] != '"' && s[k] != '\\'
    ensures StringRest(s, i, acc) == Done(String(acc + s[i..j]), j + 1)
  {
    PlainChars(s, i, j, acc);
  }

  /** A string that is never closed (and holds no escape) runs into the end
      of the text. */
  lemma {:induction false} UnterminatedString(s: string, i: nat, acc: string)
    requires i <= |s|
    requires forall k :: i <= k < |s| ==> s[k] != '"' && s[k] != '\\'
    ensures StringRest(s, i, acc) == Stop(UnexpectedEnd, |s|)
    decreases |s| - i
  {
    if i < |s| {
      UnterminatedString(s, i + 1, acc + [s[i]]);
    }
  }

  /** A successful string ends right after a closing quote. */
  lemma {:induction false} StringEndsWithQuote(s: string, i: nat, acc: string)
    requires i <= |s|
    ensures StringRest(s, i, acc).Done? ==> s[StringRest(s, i, acc).next - 1] == '"'
    decreases |s| - i
  {
    if i < |s| && s[i] != '"' {
      if s[i] == '\\' {
        match EscapeAt(s, i)
        case Stop(_, _) =>
        case Done(ch, n) => StringEndsWithQuote(s, n, acc + [ch]);
      } else {
        StringEndsWithQuote(s, i + 1, acc + [s[i]]);
      }
    }
  }

  /** The one-character escapes decode to the character they name. */
  lemma SimpleEscapeStep(s: string, i: nat, acc: string)
    requires i + 1 < |s| && s[i] == '\\' && SimpleEscape(s[i + 1]).Some?
    ensures StringRest(s, i, acc) == StringRest(s, i + 2, acc + [SimpleEscape(s[i + 1]).value])
  {
  }

  /** A backslash followed by anything but a one-character escape or `u` is
      an invalid escape, reported at the character after the backslash; a
      backslash that ends the text is an unexpected end. */
  lemma BadEscape(s: string, i: nat, acc: string)
    requires i < |s| && s[i] == '\\'
    ensures i + 1 == |s| ==> StringRest(s, i, acc) == Stop(UnexpectedEnd, |s|)
    ensures i + 1 < |s| && SimpleEscape(s[i + 1]).None? && s[i + 1] != 'u' ==>
      StringRest(s, i, acc) == Stop(InvalidEscape, i + 1)
  {
  }

  /** `\uXXXX` (the digits as `u32::from_str_radix` reads them, a leading
      `+` included) decodes to the scalar value they denote, and the
      character after the four digits is dropped. */
  lemma UnicodeEscapeSwallows(s: string, i: nat, acc: string, ch: char)
    requires i + 6 < |s| && s[i] == '\\' && s[i + 1] == 'u'
    requires FromStrRadix16(s[i + 2..i + 6]).Some?
    requires CharFromU32(FromStrRadix16(s[i + 2..i + 6]).value) == Some(ch)
    ensures StringRest(s, i, acc) == StringRest(s, i + 7, acc + [ch])
  {
    HexAtIsFromStrRadix16(s, i + 2);
  }

  /** A valid `\uXXXX` that ends the text leaves the string unclosed. */
  lemma UnicodeEscapeAtEnd(s: string, i: nat, acc: string)
    requires i + 6 == |s| && s[i] == '\\' && s[i + 1] == 'u'
    requires FromStrRadix16(s[i + 2..i + 6]).Some?
    requires CharFromU32(FromStrRadix16(s[i + 2..i + 6]).value).Some?
    ensures StringRest(s, i, acc) == Stop(UnexpectedEnd, |s|)
  {
    HexAtIsFromStrRadix16(s, i + 2);
  }

  /** The ways `\u` fails: fewer than four characters left (reported at the
      end of the text), four characters that are not a hexadecimal number,
      or a number that is no Unicode scalar value (a surrogate, or above
      0x10FFFF), both reported after the four characters. */
  lemma InvalidUnicodeEscape(s: string, i: nat, acc: string)
    requires i + 1 < |s| && s[i] == '\\' && s[i + 1] == 'u'
    ensures |s| < i + 6 ==> StringRest(s, i, acc) == Stop(InvalidUnicode, |s|)
    ensures i + 6 <= |s| && FromStrRadix16(s[i + 2..i + 6]).None? ==>
      StringRest(s, i, acc) == Stop(InvalidUnicode, i + 6)
    ensures (i + 6 <= |s| && FromStrRadix16(s[i + 2..i + 6]).Some? &&
             IsSurrogate(FromStrRadix16(s[i + 2..i + 6]).value)) ==>
      StringRest(s, i, acc) == Stop(InvalidUnicode, i + 6)
  {
    if i + 6 <= |s| {
      HexAtIsFromStrRadix16(s, i + 2);
    }
  }

  // ---- parse_array and parse_object ----

  /** After one element of an array, once whitespace is skipped, the end of the text
      or a character other than a comma or `]` is an error at that point. */
  lemma ElementSeparatorErrors(s: string, i: nat, acc: seq<JsonValue>, v: JsonValue, m: nat)
    requires i <= |s|
    requires !(SkipWs(s, i) < |s| && s[SkipWs(s, i)] == ']')
    requires ValueAt(s, SkipWs(s, i)) == Done(v, m)
    ensures var p := SkipWs(s, m);
      && (p == |s| ==> ArrayRest(s, i, acc) == Stop(UnexpectedEnd, p))
      && (p < |s| && s[p] != ',' && s[p] != ']' ==> ArrayRest(s, i, acc) == Stop(UnexpectedChar(s[p]), p))
  {
  }

  /** After one element of an array, `]` ends the loop with the array read so far and
      a comma goes on with the next iteration. */
  lemma ElementSeparator(s: string, i: nat, acc: seq<JsonValue>, v: JsonValue, m: nat)
    requires i <= |s|
    requires !(SkipWs(s, i) < |s| && s[SkipWs(s, i)] == ']')
    requires ValueAt(s, SkipWs(s, i)) == Done(v, m)
    ensures var p := SkipWs(s, m);
      && (p < |s| && s[p] == ']' ==> ArrayRest(s, i, acc) == Done(Array(acc + [v]), p + 1))
      && (p < |s| && s[p] == ',' ==> ArrayRest(s, i, acc) == ArrayRest(s, p + 1, acc + [v]))
  {
    var p := SkipWs(s, m);
    if p < |s| && s[p] == ',' {
      ElementComma(s, i, acc, v, m, p);
    } else if p < |s| && s[p] == ']' {
      ElementClose(s, i, acc, v, m, p);
    }
  }

  lemma ElementComma(s: string, i: nat, acc: seq<JsonValue>, v: JsonValue, m: nat, p: nat)
    requires i <= |s| && !(SkipWs(s, i) < |s| && s[SkipWs(s, i)] == ']')
    requires ValueAt(s, SkipWs(s, i)) == Done(v, m)
    requires m <= p < |s| && SkipWs(s, m) == p && s[p] == ','
    ensures ArrayRest(s, i, acc) == ArrayRest(s, p + 1, acc + [v])
  {
    assert SeparatorAt(s, m, ']') == Done(true, p + 1);
    ArrayIteration(s, i, acc, v, m, true, p + 1);
  }

  lemma ElementClose(s: string, i: nat, acc: seq<JsonValue>, v: JsonValue, m: nat, p: nat)
    requires i <= |s| && !(SkipWs(s, i) < |s| && s[SkipWs(s, i)] == ']')
    requires ValueAt(s, SkipWs(s, i)) == Done(v, m)
    requires m <= p < |s| && SkipWs(s, m) == p && s[p] == ']'
    ensures ArrayRest(s, i, acc) == Done(Array(acc + [v]), p + 1)
  {
    assert SeparatorAt(s, m, ']') == Done(false, p + 1);
    ArrayIteration(s, i, acc, v, m, false, p + 1);
  }

  /** A comma right before the closing `]` is accepted (a trailing comma). */
  lemma ElementTrailingComma(s: string, i: nat, acc: seq<JsonValue>, v: JsonValue, m: nat, p: nat, q: nat)
    requires i <= |s|
    requires !(SkipWs(s, i) < |s| && s[SkipWs(s, i)] == ']')
    requires ValueAt(s, SkipWs(s, i)) == Done(v, m)
    requires m <= p < |s| && SkipWs(s, m) == p && s[p] == ','
    requires p < q < |s| && SkipWs(s, p + 1) == q && s[q] == ']'
    ensures ArrayRest(s, i, acc) == Done(Array(acc + [v]), q + 1)
  {
    assert SeparatorAt(s, m, ']') == Done(true, p + 1);
    ArrayClosed(s, p + 1, acc + [v], q);
  }

  /** After one member of an object, once whitespace is skipped, the end of the text
      or a character other than a comma or `}` is an error at that point. */
  lemma MemberSeparatorErrors(s: string, i: nat, acc: seq<(string, JsonValue)>, kv: (string, JsonValue), m: nat)
    requires i <= |s|
    requires !(SkipWs(s, i) < |s| && s[SkipWs(s, i)] == '}')
    requires MemberAt(s, SkipWs(s, i)) == Done(kv, m)
    ensures var p := SkipWs(s, m);
      && (p == |s| ==> ObjectRest(s, i, acc) == Stop(UnexpectedEnd, p))
      && (p < |s| && s[p] != ',' && s[p] != '}' ==> ObjectRest(s, i, acc) == Stop(UnexpectedChar(s[p]), p))
  {
  }

  /** After one member of an object, `}` ends the loop with the object read so far and
      a comma goes on with the next iteration. */
  lemma MemberSeparator(s: string, i: nat, acc: seq<(string, JsonValue)>, kv: (string, JsonValue), m: nat)
    requires i <= |s|
    requires !(SkipWs(s, i) < |s| && s[SkipWs(s, i)] == '}')
    requires MemberAt(s, SkipWs(s, i)) == Done(kv, m)
    ensures var p := SkipWs(s, m);
      && (p < |s| && s[p] == '}' ==> ObjectRest(s, i, acc) == Done(Object(acc + [kv]), p + 1))
      && (p < |s| && s[p] == ',' ==> ObjectRest(s, i, acc) == ObjectRest(s, p + 1, acc + [kv]))
  {
    var p := SkipWs(s, m);
    if p < |s| && s[p] == ',' {
      MemberComma(s, i, acc, kv, m, p);
    } else if p < |s| && s[p] == '}' {
      MemberClose(s, i, acc, kv, m, p);
    }
  }

  lemma MemberComma(s: string, i: nat, acc: seq<(string, JsonValue)>, kv: (string, JsonValue), m: nat, p: nat)
    requires i <= |s| && !(SkipWs(s, i) < |s| && s[SkipWs(s, i)] == '}')
    requires MemberAt(s, SkipWs(s, i)) == Done(kv, m)
    requires m <= p < |s| && SkipWs(s, m) == p && s[p] == ','
    ensures ObjectRest(s, i, acc) == ObjectRest(s, p + 1, acc + [kv])
  {
    assert SeparatorAt(s, m, '}') == Done(true, p + 1);
    ObjectIteration(s, i, acc, kv, m, true, p + 1);
  }

  lemma MemberClose(s: string, i: nat, acc: seq<(string, JsonValue)>, kv: (string, JsonValue), m: nat, p: nat)
    requires i <= |s| && !(SkipWs(s, i) < |s| && s[SkipWs(s, i)] == '}')
    requires MemberAt(s, SkipWs(s, i)) == Done(kv, m)
    requires m <= p < |s| && SkipWs(s, m) == p && s[p] == '}'
    ensures ObjectRest(s, i, acc) == Done(Object(acc + [kv]), p + 1)
  {
    assert SeparatorAt(s, m, '}') == Done(false, p + 1);
    ObjectIteration(s, i, acc, kv, m, false, p + 1);
  }

  /** A comma right before the closing `}` is accepted (a trailing comma). */
  lemma MemberTrailingComma(s: string, i: nat, acc: seq<(string, JsonValue)>, kv: (string, JsonValue),
                            j: nat, m: nat, p: nat, q: nat)
    requires i <= j <= |s| && SkipWs(s, i) == j && !(j < |s| && s[j] == '}')
    requires MemberAt(s, j) == Done(kv, m)
    requires m <= p < |s| && SkipWs(s, m) == p && s[p] == ','
    requires p < q < |s| && SkipWs(s, p + 1) == q && s[q] == '}'
    ensures ObjectRest(s, i, acc) == Done(Object(acc + [kv]), q + 1)
  {
    assert SeparatorAt(s, m, '}') == Done(true, p + 1);
    ObjectIteration(s, i, acc, kv, m, true, p + 1);
    ObjectClosed(s, p + 1, acc + [kv], q);
  }

  /** The text ends, after whitespace, where a value, an element or a
      member is expected. */
  lemma EndWhereValueExpected(s: string, i: nat, elems: seq<JsonValue>, members: seq<(string, JsonValue)>)
    requires i <= |s| && SkipWs(s, i) == |s|
    ensures ValueAt(s, i) == Stop(UnexpectedEnd, |s|)
    ensures ArrayRest(s, i, elems) == Stop(UnexpectedEnd, |s|)
    ensures ObjectRest(s, i, members) == Stop(UnexpectedEnd, |s|)
  {
    assert ValueAt(s, i) == DispatchAt(s, |s|);
    assert MemberAt(s, |s|) == Stop(UnexpectedEnd, |s|);
  }

  /** A key that is not followed (after whitespace) by a colon is an error
      that names the colon, at the first character after that whitespace. */
  lemma MissingColon(s: string, i: nat, acc: seq<(string, JsonValue)>, key: JsonValue, k: nat)
    requires i <= |s|
    requires !(SkipWs(s, i) < |s| && s[SkipWs(s, i)] == '}')
    requires StringAt(s, SkipWs(s, i)) == Done(key, k)
    requires SkipWs(s, k) == |s| || s[SkipWs(s, k)] != ':'
    ensures ObjectRest(s, i, acc) == Stop(UnexpectedChar(':'), SkipWs(s, k))
  {
    var j := SkipWs(s, i);
    var c := SkipWs(s, k);
    assert !StartsWith(s, c, ":");
    assert MemberAt(s, j) == Stop(UnexpectedChar(':'), c);
  }

  /** A successful array ends right after a `]`. */
  lemma {:induction false} ArrayEndsWithBracket(s: string, i: nat, acc: seq<JsonValue>)
    requires i <= |s|
    ensures ArrayRest(s, i, acc).Done? ==> s[ArrayRest(s, i, acc).next - 1] == ']'
    decreases |s| - i
  {
    var j := SkipWs(s, i);
    if !(j < |s| && s[j] == ']') {
      match ValueAt(s, j)
      case Stop(_, _) =>
      case Done(v, m) =>
        match SeparatorAt(s, m, ']')
        case Stop(_, _) =>
        case Done(more, n) =>
          if more {
            ArrayEndsWithBracket(s, n, acc + [v]);
          }
    }
  }

  /** A successful object ends right after a `}`. */
  lemma {:induction false} ObjectEndsWithBrace(s: string, i: nat, acc: seq<(string, JsonValue)>)
    requires i <= |s|
    ensures ObjectRest(s, i, acc).Done? ==> s[ObjectRest(s, i, acc).next - 1] == '}'
    decreases |s| - i
  {
    var j := SkipWs(s, i);
    if !(j < |s| && s[j] == '}') {
      match MemberAt(s, j)
      case Stop(_, _) =>
      case Done(kv, m) =>
        match SeparatorAt(s, m, '}')
        case Stop(_, _) =>
        case Done(more, n) =>
          if more {
            ObjectEndsWithBrace(s, n, acc + [kv]);
          }
    }
  }
}
