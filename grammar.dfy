/**
 * What the parser computes, as functions of the input text and a character
 * index. Each routine of src/lib.rs has a function here that starts where the
 * cursor stands and returns the value read and the index just past it, or the
 * error kind and the index at which the error was raised. The methods of
 * module Parser are proved to compute exactly these results.
 *
 * Indices count characters (Unicode scalar values); `Chars.ByteOffset` turns
 * an index into the byte offset Rust reports.
 */
module Grammar {
  import opened JsonTypes
  import opened Chars

  /** The outcome of one parsing routine. */
  datatype Step<+T> = Done(value: T, next: nat) | Stop(kind: ErrorKind, at: nat)

  /** `str::starts_with` on the text remaining at index `i`, character by
      character. */
  predicate StartsWith(s: string, i: nat, lit: string)
    decreases |lit|
  {
    i + |lit| <= |s| && (lit == [] || (s[i] == lit[0] && StartsWith(s, i + 1, lit[1..])))
  }

  /** `StartsWith` holds exactly when every character of `lit` is matched. */
  lemma {:induction false} StartsWithChars(s: string, i: nat, lit: string)
    ensures StartsWith(s, i, lit) <==> i + |lit| <= |s| && forall k :: 0 <= k < |lit| ==> s[i + k] == lit[k]
    decreases |lit|
  {
    if lit != [] {
      StartsWithChars(s, i + 1, lit[1..]);
      if i + |lit| <= |s| && forall k :: 0 <= k < |lit| ==> s[i + k] == lit[k] {
        forall k | 0 <= k < |lit| - 1 ensures s[i + 1 + k] == lit[1..][k] {
          assert s[i + (k + 1)] == lit[k + 1];
        }
      }
      if StartsWith(s, i, lit) {
        forall k | 0 <= k < |lit| ensures s[i + k] == lit[k] {
          if k > 0 {
            assert s[i + 1 + (k - 1)] == lit[1..][k - 1];
          }
        }
      }
    }
  }

  /** The same test on the slice of `s` that `lit` would cover. */
  lemma StartsWithSlice(s: string, i: nat, lit: string)
    ensures StartsWith(s, i, lit) <==> i + |lit| <= |s| && s[i..i + |lit|] == lit
  {
    StartsWithChars(s, i, lit);
    if StartsWith(s, i, lit) {
      assert s[i..i + |lit|] == lit;
    }
    if i + |lit| <= |s| && s[i..i + |lit|] == lit {
      forall k | 0 <= k < |lit| ensures s[i + k] == lit[k] {
        assert s[i..i + |lit|][k] == s[i + k];
      }
    }
  }

  /** Where `skip_whitespaces` stops: the first index at or after `i` that is
      the end of input or holds a non-whitespace character. */
  function SkipWs(s: string, i: nat): (j: nat)
    requires i <= |s|
    ensures i <= j <= |s|
    ensures j == |s| || !IsWhitespace(s[j])
    decreases |s| - i
  {
    if i < |s| && IsWhitespace(s[i]) then SkipWs(s, i + 1) else i
  }

  /** Everything `skip_whitespaces` steps over is whitespace. */
  lemma {:induction false} SkipWsSkipsWhitespace(s: string, i: nat)
    requires i <= |s|
    ensures forall k :: i <= k < SkipWs(s, i) ==> IsWhitespace(s[k])
    decreases |s| - i
  {
    if i < |s| && IsWhitespace(s[i]) {
      SkipWsSkipsWhitespace(s, i + 1);
    }
  }

  /** Where the greedy digit-and-dot run of `parse_number` ends. */
  function NumberEnd(s: string, i: nat): (j: nat)
    requires i <= |s|
    ensures i <= j <= |s|
    ensures j == |s| || !IsNumberChar(s[j])
    decreases |s| - i
  {
    if i < |s| && IsNumberChar(s[i]) then NumberEnd(s, i + 1) else i
  }

  /** The run `parse_number` accumulates holds only digits and dots. */
  lemma {:induction false} NumberRunChars(s: string, i: nat)
    requires i <= |s|
    ensures forall k :: i <= k < NumberEnd(s, i) ==> IsNumberChar(s[k])
    decreases |s| - i
  {
    if i < |s| && IsNumberChar(s[i]) {
      NumberRunChars(s, i + 1);
    }
  }

  /** Whether the text between `i` and `j` has a digit. */
  predicate DigitIn(s: string, i: nat, j: nat)
    requires i <= j <= |s|
    decreases j - i
  {
    i < j && (IsDigit(s[i]) || DigitIn(s, i + 1, j))
  }

  /** How many dots the text between `i` and `j` holds. */
  function DotsIn(s: string, i: nat, j: nat): (n: nat)
    requires i <= j <= |s|
    ensures n <= j - i
    decreases j - i
  {
    if i == j then 0 else (if s[i] == '.' then 1 else 0) + DotsIn(s, i + 1, j)
  }

  /** The float parse applied to the run between `i` and `j`, stated on
      indices: the same judgement as `F64Accepts(s[i..j])`. */
  predicate RunAccepted(s: string, i: nat, j: nat)
    requires i <= j <= |s|
  {
    DigitIn(s, i, j) && DotsIn(s, i, j) <= 1
  }

  /** The index-based counts agree with the ones on the run as a string. */
  lemma {:induction false} RunCounts(s: string, i: nat, j: nat)
    requires i <= j <= |s|
    ensures DigitIn(s, i, j) == HasDigit(s[i..j])
    ensures DotsIn(s, i, j) == DotCount(s[i..j])
    decreases j - i
  {
    if i < j {
      RunCounts(s, i + 1, j);
      assert s[i..j][1..] == s[i + 1..j];
      assert s[i..j][0] == s[i];
    }
  }

  lemma RunAcceptedIsF64Accepts(s: string, i: nat, j: nat)
    requires i <= j <= |s|
    ensures RunAccepted(s, i, j) <==> F64Accepts(s[i..j])
  {
    RunCounts(s, i, j);
  }

  /** `parse_number`: the run is accumulated first and judged afterwards,
      so an error is reported at the end of the run. */
  function NumberAt(s: string, i: nat): (r: Step<JsonValue>)
    requires i <= |s|
    ensures r.Done? ==> i < r.next <= |s| && r.value == Number(s[i..r.next])
    ensures r.Stop? ==> r.kind == InvalidNumber && i <= r.at <= |s|
  {
    var j := NumberEnd(s, i);
    if RunAccepted(s, i, j) then Done(Number(s[i..j]), j) else Stop(InvalidNumber, j)
  }

  /** The one-character escapes and the character each stands for. */
  function SimpleEscape(e: char): Option<char> {
    match e
    case '"' => Some('"')
    case '\\' => Some('\\')
    case '/' => Some('/')
    case 'b' => Some('\U{0008}')
    case 'f' => Some('\U{000C}')
    case 'n' => Some('\n')
    case 'r' => Some('\r')
    case 't' => Some('\t')
    case _ => None
  }

  /** The number the hex digits from `a` up to `b` denote, read by index;
      None as soon as one of them is not a hex digit. */
  function HexRun(s: string, a: nat, b: nat): (r: Option<nat>)
    requires a <= b <= |s|
    decreases b - a
  {
    if a == b then Some(0)
    else
      var front := HexRun(s, a, b - 1);
      var last := HexDigit(s[b - 1]);
      if front.None? || last.None? then None
      else Some(16 * front.value + last.value)
  }

  lemma {:induction false} HexRunIsHexDigits(s: string, a: nat, b: nat)
    requires a <= b <= |s|
    ensures HexRun(s, a, b) == HexDigits(s[a..b])
    decreases b - a
  {
    if a < b {
      HexRunIsHexDigits(s, a, b - 1);
      assert s[a..b][..b - a - 1] == s[a..b - 1];
      assert s[a..b][b - a - 1] == s[b - 1];
    }
  }

  /** `u32::from_str_radix(_, 16)` on the four characters from index `k`. */
  function HexAt(s: string, k: nat): (r: Option<nat>)
    requires k + 4 <= |s|
  {
    if s[k] == '+' then HexRun(s, k + 1, k + 4) else HexRun(s, k, k + 4)
  }

  lemma HexAtIsFromStrRadix16(s: string, k: nat)
    requires k + 4 <= |s|
    ensures HexAt(s, k) == FromStrRadix16(s[k..k + 4])
  {
    HexRunIsHexDigits(s, k, k + 4);
    HexRunIsHexDigits(s, k + 1, k + 4);
    assert s[k..k + 4][1..] == s[k + 1..k + 4];
  }

  /** One escape sequence, with `i` the index of the backslash: the
      character it stands for and the index after the final `consume` of the
      escape branch. After `\uXXXX` that `consume` takes the character
      following the four digits, which is thereby dropped. */
  function EscapeAt(s: string, i: nat): (r: Step<char>)
    requires i < |s|
    ensures r.Done? ==> i + 2 <= r.next <= |s|
    ensures r.Stop? ==> i < r.at <= |s|
  {
    if i + 1 == |s| then Stop(UnexpectedEnd, i + 1)
    else if SimpleEscape(s[i + 1]).Some? then Done(SimpleEscape(s[i + 1]).value, i + 2)
    else if s[i + 1] == 'u' then
      var k := i + 2;
      if |s| < k + 4 then Stop(InvalidUnicode, |s|)
      else
        var code := HexAt(s, k);
        if code.None? then Stop(InvalidUnicode, k + 4)
        else
          var ch := CharFromU32(code.value);
          if ch.None? then Stop(InvalidUnicode, k + 4)
          else Done(ch.value, if k + 4 < |s| then k + 5 else k + 4)
    else Stop(InvalidEscape, i + 1)
  }

  /** The loop of `parse_string` from index `i`, with `acc` decoded so far. */
  function StringRest(s: string, i: nat, acc: string): (r: Step<JsonValue>)
    requires i <= |s|
    ensures r.Done? ==> i < r.next <= |s| && r.value.String?
    ensures r.Stop? ==> i <= r.at <= |s|
    decreases |s| - i
  {
    if i == |s| then Stop(UnexpectedEnd, i)
    else if s[i] == '"' then Done(String(acc), i + 1)
    else if s[i] == '\\' then
      match EscapeAt(s, i)
      case Stop(kind, at) => Stop(kind, at)
      case Done(ch, n) => StringRest(s, n, acc + [ch])
    else StringRest(s, i + 1, acc + [s[i]])
  }

  /** `parse_string`: the character under the cursor is taken to be the
      opening quote, whatever it is. */
  function StringAt(s: string, i: nat): (r: Step<JsonValue>)
    requires i <= |s|
    ensures r.Done? ==> i + 2 <= r.next <= |s| && r.value.String?
    ensures r.Stop? ==> i <= r.at <= |s|
  {
    StringRest(s, if i < |s| then i + 1 else i, [])
  }

  /** `parse_value`: skip whitespace, try the three keywords as prefixes,
      then dispatch on the next character. */
  function ValueAt(s: string, i: nat): (r: Step<JsonValue>)
    requires i <= |s|
    ensures r.Done? ==> i < r.next <= |s|
    ensures r.Stop? ==> i <= r.at <= |s|
    decreases |s| - i, 2
  {
    DispatchAt(s, SkipWs(s, i))
  }

  /** The rest of `parse_value`, once whitespace is skipped. */
  function DispatchAt(s: string, j: nat): (r: Step<JsonValue>)
    requires j <= |s|
    ensures r.Done? ==> j < r.next <= |s|
    ensures r.Stop? ==> j <= r.at <= |s|
    decreases |s| - j, 1
  {
    if StartsWith(s, j, "null") then Done(Null, j + 4)
    else if StartsWith(s, j, "true") then Done(Bool(true), j + 4)
    else if StartsWith(s, j, "false") then Done(Bool(false), j + 5)
    else if j == |s| then Stop(UnexpectedEnd, j)
    else if s[j] == '"' then StringAt(s, j)
    else if s[j] == '[' then ArrayAt(s, j)
    else if s[j] == '{' then ObjectAt(s, j)
    else if s[j] == '-' || IsDigit(s[j]) then NumberAt(s, j)
    else Stop(UnexpectedChar(s[j]), j)
  }

  /** The separator step that ends each iteration of the loops of
      `parse_array` and `parse_object`, with `close` their closing bracket:
      after whitespace, a comma continues the loop (`Done(true, _)`), `close`
      ends it (`Done(false, _)`); anything else is an error. */
  function SeparatorAt(s: string, m: nat, close: char): (r: Step<bool>)
    requires m <= |s|
    ensures r.Done? ==> m < r.next <= |s|
    ensures r.Stop? ==> m <= r.at <= |s|
  {
    var n := SkipWs(s, m);
    if n == |s| then Stop(UnexpectedEnd, n)
    else if s[n] == ',' then Done(true, n + 1)
    else if s[n] == close then Done(false, n + 1)
    else Stop(UnexpectedChar(s[n]), n)
  }

  /** `parse_array`, entered on the opening bracket. */
  function ArrayAt(s: string, i: nat): (r: Step<JsonValue>)
    requires i < |s|
    ensures r.Done? ==> i < r.next <= |s| && r.value.Array?
    ensures r.Stop? ==> i <= r.at <= |s|
    decreases |s| - i, 0
  {
    ArrayRest(s, i + 1, [])
  }

  /** The loop of `parse_array` from index `i`, with elements `acc` read so far:
      a closing bracket, or one more element and a separator. */
  function ArrayRest(s: string, i: nat, acc: seq<JsonValue>): (r: Step<JsonValue>)
    requires i <= |s|
    ensures r.Done? ==> i < r.next <= |s| && r.value.Array?
    ensures r.Stop? ==> i <= r.at <= |s|
    decreases |s| - i, 3
  {
    var j := SkipWs(s, i);
    if j < |s| && s[j] == ']' then Done(Array(acc), j + 1)
    else
      match ValueAt(s, j)
      case Stop(kind, at) => Stop(kind, at)
      case Done(v, m) =>
        match SeparatorAt(s, m, ']')
        case Stop(kind, at) => Stop(kind, at)
        case Done(more, n) =>
          if more then ArrayRest(s, n, acc + [v]) else Done(Array(acc + [v]), n)
  }

  /** `parse_object`, entered on the opening brace. */
  function ObjectAt(s: string, i: nat): (r: Step<JsonValue>)
    requires i < |s|
    ensures r.Done? ==> i < r.next <= |s| && r.value.Object?
    ensures r.Stop? ==> i <= r.at <= |s|
    decreases |s| - i, 0
  {
    ObjectRest(s, i + 1, [])
  }

  /** The loop of `parse_object` from index `i`, with pairs `acc` read so far:
      a closing brace, or one more member and a separator. */
  function ObjectRest(s: string, i: nat, acc: seq<(string, JsonValue)>): (r: Step<JsonValue>)
    requires i <= |s|
    ensures r.Done? ==> i < r.next <= |s| && r.value.Object?
    ensures r.Stop? ==> i <= r.at <= |s|
    decreases |s| - i, 3
  {
    var j := SkipWs(s, i);
    if j < |s| && s[j] == '}' then Done(Object(acc), j + 1)
    else
      match MemberAt(s, j)
      case Stop(kind, at) => Stop(kind, at)
      case Done(kv, m) =>
        match SeparatorAt(s, m, '}')
        case Stop(kind, at) => Stop(kind, at)
        case Done(more, n) =>
          if more then ObjectRest(s, n, acc + [kv]) else Done(Object(acc + [kv]), n)
  }

  /** One member of an object: the key, read by `parse_string` without first
      checking for a quote; a colon after optional whitespace (when it is
      missing, the error names the colon, the character that was expected);
      then the value. */
  function MemberAt(s: string, j: nat): (r: Step<(string, JsonValue)>)
    requires j <= |s|
    ensures r.Done? ==> j < r.next <= |s|
    ensures r.Stop? ==> j <= r.at <= |s|
    decreases |s| - j, 2
  {
    match StringAt(s, j)
    case Stop(kind, at) => Stop(kind, at)
    case Done(key, k) =>
      var colon := SkipWs(s, k);
      if !StartsWith(s, colon, ":") then Stop(UnexpectedChar(':'), colon)
      else
        match ValueAt(s, SkipWs(s, colon + 1))
        case Stop(kind, at) => Stop(kind, at)
        case Done(v, m) => Done((key.s, v), m)
  }

  /** `parse_json`: one value from the start of the text; whatever follows
      it is ignored. Errors carry byte offsets. */
  function ParseResult(text: string): (r: Result<JsonValue, ParseError>)
    ensures r.Err? ==> r.error.pos <= ByteOffset(text, |text|)
  {
    match ValueAt(text, 0)
    case Done(v, _) => Ok(v)
    case Stop(kind, at) =>
      ByteOffsetMonotonic(text, at, |text|);
      Err(ParseError(kind, ByteOffset(text, at)))
  }

  /** The character at `i` when `w` stands there. */
  lemma StartsWithFirst(s: string, i: nat, w: string)
    requires StartsWith(s, i, w) && |w| > 0
    ensures i < |s| && s[i] == w[0]
  {
    assert w != [];
  }

  /** A value that is a string starting at `j` after whitespace. */
  lemma StringValue(s: string, i: nat, j: nat)
    requires i <= j < |s| && SkipWs(s, i) == j && s[j] == '"'
    ensures ValueAt(s, i) == StringRest(s, j + 1, [])
  {
    assert !StartsWith(s, j, "null") && !StartsWith(s, j, "true") && !StartsWith(s, j, "false");
    assert DispatchAt(s, j) == StringAt(s, j);
  }

  /** A value that starts with a digit at `j` after whitespace. */
  lemma NumberValue(s: string, i: nat, j: nat)
    requires i <= j < |s| && SkipWs(s, i) == j && IsDigit(s[j])
    ensures ValueAt(s, i) == NumberAt(s, j)
  {
    assert !StartsWith(s, j, "null") && !StartsWith(s, j, "true") && !StartsWith(s, j, "false");
  }

  /** A value that starts with `{` at `j` after whitespace. */
  lemma ObjectValue(s: string, i: nat, j: nat)
    requires i <= j < |s| && SkipWs(s, i) == j && s[j] == '{'
    ensures ValueAt(s, i) == ObjectRest(s, j + 1, [])
  {
    assert !StartsWith(s, j, "null") && !StartsWith(s, j, "true") && !StartsWith(s, j, "false");
    assert DispatchAt(s, j) == ObjectAt(s, j);
  }

  /** A value that starts with `[` at `j` after whitespace. */
  lemma ArrayValue(s: string, i: nat, j: nat)
    requires i <= j < |s| && SkipWs(s, i) == j && s[j] == '['
    ensures ValueAt(s, i) == ArrayRest(s, j + 1, [])
  {
    assert !StartsWith(s, j, "null") && !StartsWith(s, j, "true") && !StartsWith(s, j, "false");
    assert DispatchAt(s, j) == ArrayAt(s, j);
  }

  /** A value that is one of the keywords, at `j` after whitespace. */
  lemma KeywordValue(s: string, i: nat, j: nat)
    requires i <= j < |s| && SkipWs(s, i) == j
    ensures StartsWith(s, j, "null") ==> ValueAt(s, i) == Done(Null, j + 4)
    ensures StartsWith(s, j, "true") ==> ValueAt(s, i) == Done(Bool(true), j + 4)
    ensures StartsWith(s, j, "false") ==> ValueAt(s, i) == Done(Bool(false), j + 5)
  {
    if StartsWith(s, j, "true") {
      StartsWithFirst(s, j, "true");
    } else if StartsWith(s, j, "false") {
      StartsWithFirst(s, j, "false");
    }
  }

  /** One iteration of the loop of `parse_array`: an element, then a separator. */
  lemma ArrayIteration(s: string, i: nat, acc: seq<JsonValue>, v: JsonValue, m: nat, more: bool, n: nat)
    requires i <= |s| && !(SkipWs(s, i) < |s| && s[SkipWs(s, i)] == ']')
    requires ValueAt(s, SkipWs(s, i)) == Done(v, m) && SeparatorAt(s, m, ']') == Done(more, n)
    ensures more ==> ArrayRest(s, i, acc) == ArrayRest(s, n, acc + [v])
    ensures !more ==> ArrayRest(s, i, acc) == Done(Array(acc + [v]), n)
  {
  }

  /** One iteration of the loop of `parse_object`: a member, then a separator. */
  lemma ObjectIteration(s: string, i: nat, acc: seq<(string, JsonValue)>, kv: (string, JsonValue),
                        m: nat, more: bool, n: nat)
    requires i <= |s| && !(SkipWs(s, i) < |s| && s[SkipWs(s, i)] == '}')
    requires MemberAt(s, SkipWs(s, i)) == Done(kv, m) && SeparatorAt(s, m, '}') == Done(more, n)
    ensures more ==> ObjectRest(s, i, acc) == ObjectRest(s, n, acc + [kv])
    ensures !more ==> ObjectRest(s, i, acc) == Done(Object(acc + [kv]), n)
  {
  }

  /** The loop of `parse_array` ends at a closing bracket after whitespace. */
  lemma ArrayClosed(s: string, i: nat, acc: seq<JsonValue>, q: nat)
    requires i <= q < |s| && SkipWs(s, i) == q && s[q] == ']'
    ensures ArrayRest(s, i, acc) == Done(Array(acc), q + 1)
  {
  }

  /** The loop of `parse_object` ends at a closing brace after whitespace. */
  lemma ObjectClosed(s: string, i: nat, acc: seq<(string, JsonValue)>, q: nat)
    requires i <= q < |s| && SkipWs(s, i) == q && s[q] == '}'
    ensures ObjectRest(s, i, acc) == Done(Object(acc), q + 1)
  {
  }
}
