/**
 * The parser on concrete texts: the cases of src/test.rs, and texts that
 * show where the parser departs from JSON. The texts are ASCII, so the
 * byte offsets the errors carry equal character indices.
 *
 * Each text gets lemmas of three kinds: facts about its characters (where
 * whitespace ends, where strings lie), the steps of the parse stated for
 * any text with those facts, and the result for the text itself.
 */
module Examples {
  import opened JsonTypes
  import opened Chars
  import opened Grammar
  import opened RoundTrip
  import opened Properties

  /** On an ASCII text an error of `parse_value` is reported at a byte
      offset equal to its character index. */
  lemma ErrorOnAscii(s: string, kind: ErrorKind, at: nat)
    requires IsAscii(s) && at <= |s| && ValueAt(s, 0) == Stop(kind, at)
    ensures ParseResult(s) == Err(ParseError(kind, at))
  {
    assert IsAscii(s[..at]) by {
      forall k | 0 <= k < at ensures s[..at][k] as nat < 0x80 {
        assert s[..at][k] == s[k];
      }
    }
    AsciiByteOffset(s, at);
  }

  /** No quote and no backslash from `i` up to `j`. */
  predicate NoQuote(s: string, i: nat, j: nat) {
    i <= j <= |s| && forall k :: i <= k < j ==> s[k] != '"' && s[k] != '\\'
  }

  /** A string without escapes between the quotes at `q` and `e`. */
  predicate Plain(s: string, q: nat, e: nat) {
    q < e < |s| && s[q] == '"' && s[e] == '"' && NoQuote(s, q + 1, e)
  }

  lemma QuotedAt(s: string, q: nat, e: nat)
    requires Plain(s, q, e)
    ensures StringAt(s, q) == Done(String(s[q + 1..e]), e + 1)
  {
    PlainStringRun(s, q + 1, e, []);
    assert [] + s[q + 1..e] == s[q + 1..e];
  }

  /** Text `lit` without quotes or backslashes, copied into the string. */
  lemma Copied(s: string, i: nat, j: nat, acc: string, lit: string)
    requires NoQuote(s, i, j) && s[i..j] == lit
    ensures StringRest(s, i, acc) == StringRest(s, j, acc + lit)
  {
    PlainChars(s, i, j, acc);
  }

  /** A string value without escapes, at `q` after whitespace. */
  lemma QuotedValue(s: string, i: nat, q: nat, e: nat)
    requires Plain(s, q, e) && i <= q && SkipWs(s, i) == q
    ensures ValueAt(s, i) == Done(String(s[q + 1..e]), e + 1)
  {
    QuotedAt(s, q, e);
    StringValue(s, i, q);
  }

  /** A member whose key, without escapes, lies between the quotes at `q`
      and `e`, with the colon right after it: the member is the value read
      after the colon, or fails where that value fails. */
  lemma MemberWith(s: string, q: nat, e: nat)
    requires Plain(s, q, e) && e + 1 < |s| && s[e + 1] == ':'
    ensures ValueAt(s, e + 2).Done? ==>
      MemberAt(s, q) == Done((s[q + 1..e], ValueAt(s, e + 2).value), ValueAt(s, e + 2).next)
    ensures ValueAt(s, e + 2).Stop? ==>
      MemberAt(s, q) == Stop(ValueAt(s, e + 2).kind, ValueAt(s, e + 2).at)
  {
    QuotedAt(s, q, e);
    assert SkipWs(s, e + 1) == e + 1;
    assert StartsWith(s, e + 1, ":") by {
      assert s[e + 1] == ":"[0];
    }
    assert ValueAt(s, SkipWs(s, e + 2)) == ValueAt(s, e + 2) by {
      ValueAfterWhitespace(s, e + 2);
    }
  }

  /** A member that fails makes the object fail. */
  lemma MemberFails(s: string, i: nat, acc: seq<(string, JsonValue)>, kind: ErrorKind, at: nat)
    requires i <= |s| && SkipWs(s, i) < |s| && s[SkipWs(s, i)] != '}'
    requires MemberAt(s, SkipWs(s, i)) == Stop(kind, at)
    ensures ObjectRest(s, i, acc) == Stop(kind, at)
  {
  }

  // ---- parse_complex_strings ----

  const Escapes: string := "\n    \"foo\\nbar\\tbaz\\\"qux\\\\quux\"\n    "

  lemma EscapesStart()
    ensures |Escapes| == 36 && SkipWs(Escapes, 0) == 5 && Escapes[5] == '"'
  {
    SkipWsTo(Escapes, 0, 5);
  }

  lemma EscapesPart6()
    ensures NoQuote(Escapes, 6, 9) && Escapes[6..9] == "foo"
  {
    assert Escapes[6] == 'f';
    assert Escapes[7] == 'o';
    assert Escapes[8] == 'o';
  }

  lemma EscapesPart11()
    ensures NoQuote(Escapes, 11, 14) && Escapes[11..14] == "bar"
  {
    assert Escapes[11] == 'b';
    assert Escapes[12] == 'a';
    assert Escapes[13] == 'r';
  }

  lemma EscapesPart16()
    ensures NoQuote(Escapes, 16, 19) && Escapes[16..19] == "baz"
  {
    assert Escapes[16] == 'b';
    assert Escapes[17] == 'a';
    assert Escapes[18] == 'z';
  }

  lemma EscapesPart21()
    ensures NoQuote(Escapes, 21, 24) && Escapes[21..24] == "qux"
  {
    assert Escapes[21] == 'q';
    assert Escapes[22] == 'u';
    assert Escapes[23] == 'x';
  }

  lemma EscapesPart26()
    ensures NoQuote(Escapes, 26, 30) && Escapes[26..30] == "quux"
  {
    assert Escapes[26] == 'q';
    assert Escapes[27] == 'u';
    assert Escapes[28] == 'u';
    assert Escapes[29] == 'x';
  }

  lemma EscapesBackslashes()
    ensures Escapes[9] == '\\' && Escapes[10] == 'n' && Escapes[14] == '\\' && Escapes[15] == 't'
    ensures Escapes[19] == '\\' && Escapes[20] == '"' && Escapes[24] == '\\' && Escapes[25] == '\\'
    ensures Escapes[30] == '"'
  {
  }

  /** The steps on any text with the facts of `Escapes`: plain runs are
      copied, and each escape adds the character it stands for. */
  lemma EscapesSteps(s: string)
    requires |s| == 36 && SkipWs(s, 0) == 5 && s[5] == '"'
    requires NoQuote(s, 6, 9) && s[6..9] == "foo" && NoQuote(s, 11, 14) && s[11..14] == "bar"
    requires NoQuote(s, 16, 19) && s[16..19] == "baz" && NoQuote(s, 21, 24) && s[21..24] == "qux"
    requires NoQuote(s, 26, 30) && s[26..30] == "quux" && s[30] == '"'
    requires s[9] == '\\' && s[10] == 'n' && s[14] == '\\' && s[15] == 't'
    requires s[19] == '\\' && s[20] == '"' && s[24] == '\\' && s[25] == '\\'
    ensures ValueAt(s, 0) == Done(String([] + "foo" + "\n" + "bar" + "\t" + "baz" + "\"" + "qux" + "\\" + "quux"), 31)
  {
    StringValue(s, 0, 5);
    Copied(s, 6, 9, [], "foo");
    SimpleEscapeStep(s, 9, [] + "foo");
    Copied(s, 11, 14, [] + "foo" + "\n", "bar");
    SimpleEscapeStep(s, 14, [] + "foo" + "\n" + "bar");
    Copied(s, 16, 19, [] + "foo" + "\n" + "bar" + "\t", "baz");
    SimpleEscapeStep(s, 19, [] + "foo" + "\n" + "bar" + "\t" + "baz");
    Copied(s, 21, 24, [] + "foo" + "\n" + "bar" + "\t" + "baz" + "\"", "qux");
    SimpleEscapeStep(s, 24, [] + "foo" + "\n" + "bar" + "\t" + "baz" + "\"" + "qux");
    PlainStringRun(s, 26, 30, [] + "foo" + "\n" + "bar" + "\t" + "baz" + "\"" + "qux" + "\\");
  }

  /** The escapes `\n`, `\t`, `\"` and `\\` decode to the characters
      they name. */
  lemma ComplexStrings()
    ensures ParseResult(Escapes) == Ok(String("foo\nbar\tbaz\"qux\\quux"))
  {
    EscapesStart();
    EscapesPart6();
    EscapesPart11();
    EscapesPart16();
    EscapesPart21();
    EscapesPart26();
    EscapesBackslashes();
    EscapesSteps(Escapes);
    EscapesDecoded();
  }

  lemma EscapesDecoded()
    ensures [] + "foo" + "\n" + "bar" + "\t" + "baz" + "\"" + "qux" + "\\" + "quux"
      == "foo\nbar\tbaz\"qux\\quux"
  {
  }

  // ---- unexpected_end_error, first text ----

  const EndAfterComma: string := "\n    {\n        \"name\": \"John Doe\",\n    "

  lemma EndAfterCommaChars()
    ensures IsAscii(EndAfterComma) && |EndAfterComma| == 39
    ensures EndAfterComma[5] == '{' && EndAfterComma[15] != '}' && EndAfterComma[21] == ':'
    ensures EndAfterComma[33] == ','
  {
  }

  lemma EndAfterCommaSpaces()
    ensures SkipWs(EndAfterComma, 0) == 5 && SkipWs(EndAfterComma, 6) == 15
  {
    SkipWsTo(EndAfterComma, 0, 5);
    SkipWsTo(EndAfterComma, 6, 15);
  }

  lemma EndAfterCommaMoreSpaces()
    ensures SkipWs(EndAfterComma, 22) == 23 && SkipWs(EndAfterComma, 33) == 33
    ensures SkipWs(EndAfterComma, 34) == 39
  {
    SkipWsTo(EndAfterComma, 22, 23);
    SkipWsTo(EndAfterComma, 33, 33);
    SkipWsTo(EndAfterComma, 34, 39);
  }

  lemma EndAfterCommaStrings()
    ensures Plain(EndAfterComma, 15, 20) && EndAfterComma[16..20] == "name"
    ensures Plain(EndAfterComma, 23, 32) && EndAfterComma[24..32] == "John Doe"
  {
    var s := EndAfterComma;
    assert s[16] == 'n';
    assert s[17] == 'a';
    assert s[18] == 'm';
    assert s[19] == 'e';
    assert s[24] == 'J';
    assert s[25] == 'o';
    assert s[26] == 'h';
    assert s[27] == 'n';
    assert s[28] == ' ';
    assert s[29] == 'D';
    assert s[30] == 'o';
    assert s[31] == 'e';
  }

  /** The steps on any text with the facts of `EndAfterComma`. */
  lemma EndAfterCommaSteps(s: string)
    requires |s| == 39 && s[5] == '{' && s[15] != '}' && s[21] == ':' && s[33] == ','
    requires SkipWs(s, 0) == 5 && SkipWs(s, 6) == 15 && SkipWs(s, 22) == 23
    requires SkipWs(s, 33) == 33 && SkipWs(s, 34) == 39
    requires Plain(s, 15, 20) && s[16..20] == "name" && Plain(s, 23, 32) && s[24..32] == "John Doe"
    ensures ValueAt(s, 0) == Stop(UnexpectedEnd, 39)
  {
    ObjectValue(s, 0, 5);
    QuotedValue(s, 22, 23, 32);
    MemberWith(s, 15, 20);
    MemberSeparator(s, 6, [], ("name", String("John Doe")), 33);
    EndWhereValueExpected(s, 34, [], [("name", String("John Doe"))]);
  }

  /** A member and a comma, then the end of the text: the loop of
      `parse_object` goes on and reaches the end at offset 39. */
  lemma UnexpectedEndAfterComma()
    ensures ParseResult(EndAfterComma) == Err(ParseError(UnexpectedEnd, 39))
  {
    EndAfterCommaChars();
    EndAfterCommaSpaces();
    EndAfterCommaMoreSpaces();
    EndAfterCommaStrings();
    EndAfterCommaSteps(EndAfterComma);
    ErrorOnAscii(EndAfterComma, UnexpectedEnd, 39);
  }

  // ---- unexpected_end_error, second text ----

  const EndAfterColon: string := "\n    {\n        \"name\": \n    "

  lemma EndAfterColonFacts()
    ensures IsAscii(EndAfterColon) && |EndAfterColon| == 28
    ensures EndAfterColon[5] == '{' && EndAfterColon[15] != '}' && EndAfterColon[21] == ':'
    ensures Plain(EndAfterColon, 15, 20)
  {
  }

  lemma EndAfterColonSpaces()
    ensures SkipWs(EndAfterColon, 0) == 5 && SkipWs(EndAfterColon, 6) == 15
    ensures SkipWs(EndAfterColon, 22) == 28
  {
    SkipWsTo(EndAfterColon, 0, 5);
    SkipWsTo(EndAfterColon, 6, 15);
    SkipWsTo(EndAfterColon, 22, 28);
  }

  lemma EndAfterColonSteps(s: string)
    requires |s| == 28 && s[5] == '{' && s[15] != '}' && s[21] == ':' && Plain(s, 15, 20)
    requires SkipWs(s, 0) == 5 && SkipWs(s, 6) == 15 && SkipWs(s, 22) == 28
    ensures ValueAt(s, 0) == Stop(UnexpectedEnd, 28)
  {
    ObjectValue(s, 0, 5);
    EndWhereValueExpected(s, 22, [], []);
    MemberWith(s, 15, 20);
    MemberFails(s, 6, [], UnexpectedEnd, 28);
  }

  /** The text ends where the value of a member should be: the error is
      at offset 28, the end of the text. */
  lemma UnexpectedEndAfterColon()
    ensures ParseResult(EndAfterColon) == Err(ParseError(UnexpectedEnd, 28))
  {
    EndAfterColonFacts();
    EndAfterColonSpaces();
    EndAfterColonSteps(EndAfterColon);
    ErrorOnAscii(EndAfterColon, UnexpectedEnd, 28);
  }

  // ---- unvalid_unicode_encoding_error ----

  const BracedUnicode: string := "\n    \"\\u{110000}\"\n    "

  lemma BracedUnicodeFacts()
    ensures IsAscii(BracedUnicode) && |BracedUnicode| == 22
    ensures BracedUnicode[5] == '"' && BracedUnicode[6] == '\\' && BracedUnicode[7] == 'u'
    ensures SkipWs(BracedUnicode, 0) == 5
  {
    SkipWsTo(BracedUnicode, 0, 5);
  }

  /** `{110` is not a hexadecimal number. */
  lemma BracedUnicodeDigits()
    ensures FromStrRadix16(BracedUnicode[8..12]).None?
  {
    var t := BracedUnicode[8..12];
    assert t[0] == '{';
    FromStrRadix16Accepts(t);
  }

  lemma BracedUnicodeSteps(s: string)
    requires |s| == 22 && s[5] == '"' && s[6] == '\\' && s[7] == 'u' && SkipWs(s, 0) == 5
    requires FromStrRadix16(s[8..12]).None?
    ensures ValueAt(s, 0) == Stop(InvalidUnicode, 12)
  {
    StringValue(s, 0, 5);
    InvalidUnicodeEscape(s, 6, []);
  }

  /** Rust's `\u{...}` syntax is not JSON: the four characters after `\u`
      are `{110`, which are not hex digits, and the error is reported after
      them, at offset 12. */
  lemma InvalidUnicodeError()
    ensures ParseResult(BracedUnicode) == Err(ParseError(InvalidUnicode, 12))
  {
    BracedUnicodeFacts();
    BracedUnicodeDigits();
    BracedUnicodeSteps(BracedUnicode);
    ErrorOnAscii(BracedUnicode, InvalidUnicode, 12);
  }

  // ---- invalid_number_error ----

  const TwoDots: string := "\n    123.456.789\n    "

  lemma TwoDotsFacts()
    ensures IsAscii(TwoDots) && |TwoDots| == 21 && SkipWs(TwoDots, 0) == 5
    ensures IsDigit(TwoDots[5]) && TwoDots[8] == '.' && TwoDots[12] == '.'
    ensures forall k :: 5 <= k < 16 ==> IsNumberChar(TwoDots[k])
    ensures !IsNumberChar(TwoDots[16])
  {
    SkipWsTo(TwoDots, 0, 5);
  }

  lemma TwoDotsSteps(s: string)
    requires |s| == 21 && SkipWs(s, 0) == 5 && IsDigit(s[5]) && s[8] == '.' && s[12] == '.'
    requires forall k :: 5 <= k < 16 ==> IsNumberChar(s[k])
    requires !IsNumberChar(s[16])
    ensures ValueAt(s, 0) == Stop(InvalidNumber, 16)
  {
    NumberValue(s, 0, 5);
    TwoDotsRejected(s, 5, 8, 12, 16);
  }

  /** `123.456.789` has two dots: the whole run is read, then rejected, and
      the error is at its end, offset 16. */
  lemma InvalidNumberError()
    ensures ParseResult(TwoDots) == Err(ParseError(InvalidNumber, 16))
  {
    TwoDotsFacts();
    TwoDotsSteps(TwoDots);
    ErrorOnAscii(TwoDots, InvalidNumber, 16);
  }

  // ---- invalid_escape_error ----

  const UnknownEscape: string := "\n    \"\\q\"\n    "

  lemma UnknownEscapeFacts()
    ensures IsAscii(UnknownEscape) && |UnknownEscape| == 14 && SkipWs(UnknownEscape, 0) == 5
    ensures UnknownEscape[5] == '"' && UnknownEscape[6] == '\\' && UnknownEscape[7] == 'q'
  {
    SkipWsTo(UnknownEscape, 0, 5);
  }

  lemma UnknownEscapeSteps(s: string)
    requires |s| == 14 && SkipWs(s, 0) == 5 && s[5] == '"' && s[6] == '\\' && s[7] == 'q'
    ensures ValueAt(s, 0) == Stop(InvalidEscape, 7)
  {
    StringValue(s, 0, 5);
    BadEscape(s, 6, []);
  }

  /** `\q` is no escape: the error is at the `q`, offset 7. */
  lemma InvalidEscapeError()
    ensures ParseResult(UnknownEscape) == Err(ParseError(InvalidEscape, 7))
  {
    UnknownEscapeFacts();
    UnknownEscapeSteps(UnknownEscape);
    ErrorOnAscii(UnknownEscape, InvalidEscape, 7);
  }

  // ---- basic_parsing ----

  /** The text of the test, line by line. */
  const Document: string :=
    "\n    {" +
    ("\n        \"name\": \"John Doe\"," +
     ("\n        \"age\": 43," +
      ("\n        \"phones\": [" +
       ("\n            \"+44 1234567\"," +
        ("\n            \"+44 2345678\"" +
         ("\n        ]," +
          ("\n        \"field1\": null," +
           ("\n        \"field2\": true," +
            ("\n        \"field3\": false," +
             ("\n        \"field4\": {" +
              ("\n            \"foo\": \"bar\"," +
               ("\n        }" +
                ("\n    }")))))))))))))

  const Phones: JsonValue := Array([String("+44 1234567"), String("+44 2345678")])
  const Field4: JsonValue := Object([("foo", String("bar"))])

  lemma DocumentKey15()
    ensures Plain(Document, 15, 20) && Document[16..20] == "name" && Document[21] == ':'
  {
    assert Document[16] == 'n';
    assert Document[17] == 'a';
    assert Document[18] == 'm';
    assert Document[19] == 'e';
  }

  lemma DocumentKey43()
    ensures Plain(Document, 43, 47) && Document[44..47] == "age" && Document[48] == ':'
  {
    assert Document[44] == 'a';
    assert Document[45] == 'g';
    assert Document[46] == 'e';
  }

  lemma DocumentKey62()
    ensures Plain(Document, 62, 69) && Document[63..69] == "phones" && Document[70] == ':'
  {
    assert Document[63] == 'p';
    assert Document[64] == 'h';
    assert Document[65] == 'o';
    assert Document[66] == 'n';
    assert Document[67] == 'e';
    assert Document[68] == 's';
  }

  lemma DocumentKey146()
    ensures Plain(Document, 146, 153) && Document[147..153] == "field1" && Document[154] == ':'
  {
    assert Document[147] == 'f';
    assert Document[148] == 'i';
    assert Document[149] == 'e';
    assert Document[150] == 'l';
    assert Document[151] == 'd';
    assert Document[152] == '1';
  }

  lemma DocumentKey170()
    ensures Plain(Document, 170, 177) && Document[171..177] == "field2" && Document[178] == ':'
  {
    assert Document[171] == 'f';
    assert Document[172] == 'i';
    assert Document[173] == 'e';
    assert Document[174] == 'l';
    assert Document[175] == 'd';
    assert Document[176] == '2';
  }

  lemma DocumentKey194()
    ensures Plain(Document, 194, 201) && Document[195..201] == "field3" && Document[202] == ':'
  {
    assert Document[195] == 'f';
    assert Document[196] == 'i';
    assert Document[197] == 'e';
    assert Document[198] == 'l';
    assert Document[199] == 'd';
    assert Document[200] == '3';
  }

  lemma DocumentKey219()
    ensures Plain(Document, 219, 226) && Document[220..226] == "field4" && Document[227] == ':'
  {
    assert Document[220] == 'f';
    assert Document[221] == 'i';
    assert Document[222] == 'e';
    assert Document[223] == 'l';
    assert Document[224] == 'd';
    assert Document[225] == '4';
  }

  lemma DocumentKey243()
    ensures Plain(Document, 243, 247) && Document[244..247] == "foo" && Document[248] == ':'
  {
    assert Document[244] == 'f';
    assert Document[245] == 'o';
    assert Document[246] == 'o';
  }

  lemma DocumentString23()
    ensures Plain(Document, 23, 32) && Document[24..32] == "John Doe"
  {
    assert Document[24] == 'J';
    assert Document[25] == 'o';
    assert Document[26] == 'h';
    assert Document[27] == 'n';
    assert Document[28] == ' ';
    assert Document[29] == 'D';
    assert Document[30] == 'o';
    assert Document[31] == 'e';
  }

  lemma DocumentString86()
    ensures Plain(Document, 86, 98) && Document[87..98] == "+44 1234567"
  {
    assert Document[87] == '+';
    assert Document[88] == '4';
    assert Document[89] == '4';
    assert Document[90] == ' ';
    assert Document[91] == '1';
    assert Document[92] == '2';
    assert Document[93] == '3';
    assert Document[94] == '4';
    assert Document[95] == '5';
    assert Document[96] == '6';
    assert Document[97] == '7';
  }

  lemma DocumentString113()
    ensures Plain(Document, 113, 125) && Document[114..125] == "+44 2345678"
  {
    assert Document[114] == '+';
    assert Document[115] == '4';
    assert Document[116] == '4';
    assert Document[117] == ' ';
    assert Document[118] == '2';
    assert Document[119] == '3';
    assert Document[120] == '4';
    assert Document[121] == '5';
    assert Document[122] == '6';
    assert Document[123] == '7';
    assert Document[124] == '8';
  }

  lemma DocumentString250()
    ensures Plain(Document, 250, 254) && Document[251..254] == "bar"
  {
    assert Document[251] == 'b';
    assert Document[252] == 'a';
    assert Document[253] == 'r';
  }

  lemma DocumentScalars()
    ensures |Document| == 272
    ensures IsDigit(Document[50]) && Document[50..52] == "43" && F64Accepts("43")
    ensures forall k :: 50 <= k < 52 ==> IsNumberChar(Document[k])
    ensures !IsNumberChar(Document[52])
  {
  }

  lemma DocumentNullAt()
    ensures StartsWith(Document, 156, "null")
  {
    assert Document[156] == 'n';
    assert Document[157] == 'u';
    assert Document[158] == 'l';
    assert Document[159] == 'l';
    assert Document[156..160] == "null";
    StartsWithSlice(Document, 156, "null");
  }

  lemma DocumentTrueAt()
    ensures StartsWith(Document, 180, "true")
  {
    assert Document[180] == 't';
    assert Document[181] == 'r';
    assert Document[182] == 'u';
    assert Document[183] == 'e';
    assert Document[180..184] == "true";
    StartsWithSlice(Document, 180, "true");
  }

  lemma DocumentFalseAt()
    ensures StartsWith(Document, 204, "false")
  {
    assert Document[204] == 'f';
    assert Document[205] == 'a';
    assert Document[206] == 'l';
    assert Document[207] == 's';
    assert Document[208] == 'e';
    assert Document[204..209] == "false";
    StartsWithSlice(Document, 204, "false");
  }

  lemma DocumentBrackets()
    ensures Document[5] == '{' && Document[72] == '[' && Document[135] == ']'
    ensures Document[229] == '{' && Document[265] == '}' && Document[271] == '}'
    ensures Document[33] == ',' && Document[52] == ',' && Document[99] == ',' && Document[136] == ','
    ensures Document[160] == ',' && Document[184] == ',' && Document[209] == ',' && Document[255] == ','
  {
  }

  lemma DocumentSpace0()
    ensures SkipWs(Document, 0) == 5
  {
    SkipWsTo(Document, 0, 5);
  }

  lemma DocumentSpace6()
    ensures SkipWs(Document, 6) == 15
  {
    SkipWsTo(Document, 6, 15);
  }

  lemma DocumentSpace22()
    ensures SkipWs(Document, 22) == 23
  {
    SkipWsTo(Document, 22, 23);
  }

  lemma DocumentSpace33()
    ensures SkipWs(Document, 33) == 33
  {
    SkipWsTo(Document, 33, 33);
  }

  lemma DocumentSpace34()
    ensures SkipWs(Document, 34) == 43
  {
    SkipWsTo(Document, 34, 43);
  }

  lemma DocumentSpace49()
    ensures SkipWs(Document, 49) == 50
  {
    SkipWsTo(Document, 49, 50);
  }

  lemma DocumentSpace52()
    ensures SkipWs(Document, 52) == 52
  {
    SkipWsTo(Document, 52, 52);
  }

  lemma DocumentSpace53()
    ensures SkipWs(Document, 53) == 62
  {
    SkipWsTo(Document, 53, 62);
  }

  lemma DocumentSpace71()
    ensures SkipWs(Document, 71) == 72
  {
    SkipWsTo(Document, 71, 72);
  }

  lemma DocumentSpace73()
    ensures SkipWs(Document, 73) == 86
  {
    SkipWsTo(Document, 73, 86);
  }

  lemma DocumentSpace99()
    ensures SkipWs(Document, 99) == 99
  {
    SkipWsTo(Document, 99, 99);
  }

  lemma DocumentSpace100()
    ensures SkipWs(Document, 100) == 113
  {
    SkipWsTo(Document, 100, 113);
  }

  lemma DocumentSpace126()
    ensures SkipWs(Document, 126) == 135
  {
    SkipWsTo(Document, 126, 135);
  }

  lemma DocumentSpace136()
    ensures SkipWs(Document, 136) == 136
  {
    SkipWsTo(Document, 136, 136);
  }

  lemma DocumentSpace137()
    ensures SkipWs(Document, 137) == 146
  {
    SkipWsTo(Document, 137, 146);
  }

  lemma DocumentSpace155()
    ensures SkipWs(Document, 155) == 156
  {
    SkipWsTo(Document, 155, 156);
  }

  lemma DocumentSpace160()
    ensures SkipWs(Document, 160) == 160
  {
    SkipWsTo(Document, 160, 160);
  }

  lemma DocumentSpace161()
    ensures SkipWs(Document, 161) == 170
  {
    SkipWsTo(Document, 161, 170);
  }

  lemma DocumentSpace179()
    ensures SkipWs(Document, 179) == 180
  {
    SkipWsTo(Document, 179, 180);
  }

  lemma DocumentSpace184()
    ensures SkipWs(Document, 184) == 184
  {
    SkipWsTo(Document, 184, 184);
  }

  lemma DocumentSpace185()
    ensures SkipWs(Document, 185) == 194
  {
    SkipWsTo(Document, 185, 194);
  }

  lemma DocumentSpace203()
    ensures SkipWs(Document, 203) == 204
  {
    SkipWsTo(Document, 203, 204);
  }

  lemma DocumentSpace209()
    ensures SkipWs(Document, 209) == 209
  {
    SkipWsTo(Document, 209, 209);
  }

  lemma DocumentSpace210()
    ensures SkipWs(Document, 210) == 219
  {
    SkipWsTo(Document, 210, 219);
  }

  lemma DocumentSpace228()
    ensures SkipWs(Document, 228) == 229
  {
    SkipWsTo(Document, 228, 229);
  }

  lemma DocumentSpace230()
    ensures SkipWs(Document, 230) == 243
  {
    SkipWsTo(Document, 230, 243);
  }

  lemma DocumentSpace249()
    ensures SkipWs(Document, 249) == 250
  {
    SkipWsTo(Document, 249, 250);
  }

  lemma DocumentSpace255()
    ensures SkipWs(Document, 255) == 255
  {
    SkipWsTo(Document, 255, 255);
  }

  lemma DocumentSpace256()
    ensures SkipWs(Document, 256) == 265
  {
    SkipWsTo(Document, 256, 265);
  }

  lemma DocumentSpace266()
    ensures SkipWs(Document, 266) == 271
  {
    SkipWsTo(Document, 266, 271);
  }

  /** `"name": "John Doe"` and `"age": 43`. */
  lemma DocumentNameAge(s: string)
    requires |s| == 272
    requires Plain(s, 15, 20) && s[16..20] == "name" && s[21] == ':'
    requires Plain(s, 43, 47) && s[44..47] == "age" && s[48] == ':'
    requires Plain(s, 23, 32) && s[24..32] == "John Doe" && SkipWs(s, 22) == 23
    requires SkipWs(s, 49) == 50 && IsDigit(s[50]) && s[50..52] == "43" && F64Accepts("43")
    requires forall k :: 50 <= k < 52 ==> IsNumberChar(s[k])
    requires !IsNumberChar(s[52])
    ensures MemberAt(s, 15) == Done(Name, 33) && MemberAt(s, 43) == Done(Age, 52)
  {
    QuotedValue(s, 22, 23, 32);
    MemberWith(s, 15, 20);
    NumberValue(s, 49, 50);
    NumberStopsAtNonNumberChar(s, 50, 52);
    MemberWith(s, 43, 47);
  }

  /** `"phones": [ ... ]`. */
  lemma DocumentPhones(s: string)
    requires |s| == 272
    requires Plain(s, 62, 69) && s[63..69] == "phones" && s[70] == ':'
    requires Plain(s, 86, 98) && s[87..98] == "+44 1234567"
    requires Plain(s, 113, 125) && s[114..125] == "+44 2345678"
    requires s[72] == '[' && s[99] == ',' && s[135] == ']'
    requires SkipWs(s, 71) == 72 && SkipWs(s, 73) == 86 && SkipWs(s, 99) == 99
    requires SkipWs(s, 100) == 113 && SkipWs(s, 126) == 135
    ensures MemberAt(s, 62) == Done(PhoneList, 136)
  {
    DocumentPhoneArray(s);
    MemberWith(s, 62, 69);
  }

  /** The array of two phone numbers. */
  lemma DocumentPhoneArray(s: string)
    requires |s| == 272
    requires Plain(s, 86, 98) && s[87..98] == "+44 1234567"
    requires Plain(s, 113, 125) && s[114..125] == "+44 2345678"
    requires s[72] == '[' && s[99] == ',' && s[135] == ']'
    requires SkipWs(s, 71) == 72 && SkipWs(s, 73) == 86 && SkipWs(s, 99) == 99
    requires SkipWs(s, 100) == 113 && SkipWs(s, 126) == 135
    ensures ValueAt(s, 71) == Done(Phones, 136)
  {
    ArrayValue(s, 71, 72);
    QuotedValue(s, 73, 86, 98);
    ElementSeparator(s, 73, [], String("+44 1234567"), 99);
    QuotedValue(s, 100, 113, 125);
    ElementSeparator(s, 100, [] + [String("+44 1234567")], String("+44 2345678"), 126);
    assert [] + [String("+44 1234567")] + [String("+44 2345678")] == [String("+44 1234567"), String("+44 2345678")];
  }

  /** The three keyword members. */
  lemma DocumentKeywords(s: string)
    requires |s| == 272
    requires Plain(s, 146, 153) && s[147..153] == "field1" && s[154] == ':'
    requires Plain(s, 170, 177) && s[171..177] == "field2" && s[178] == ':'
    requires Plain(s, 194, 201) && s[195..201] == "field3" && s[202] == ':'
    requires SkipWs(s, 155) == 156 && SkipWs(s, 179) == 180 && SkipWs(s, 203) == 204
    requires StartsWith(s, 156, "null") && StartsWith(s, 180, "true") && StartsWith(s, 204, "false")
    ensures MemberAt(s, 146) == Done(Field1, 160) && MemberAt(s, 170) == Done(Field2, 184)
    ensures MemberAt(s, 194) == Done(Field3, 209)
  {
    DocumentField1(s);
    DocumentField2(s);
    DocumentField3(s);
  }

  lemma DocumentField1(s: string)
    requires |s| == 272
    requires Plain(s, 146, 153) && s[147..153] == "field1" && s[154] == ':'
    requires SkipWs(s, 155) == 156 && StartsWith(s, 156, "null")
    ensures MemberAt(s, 146) == Done(Field1, 160)
  {
    KeywordValue(s, 155, 156);
    MemberWith(s, 146, 153);
  }

  lemma DocumentField2(s: string)
    requires |s| == 272
    requires Plain(s, 170, 177) && s[171..177] == "field2" && s[178] == ':'
    requires SkipWs(s, 179) == 180 && StartsWith(s, 180, "true")
    ensures MemberAt(s, 170) == Done(Field2, 184)
  {
    KeywordValue(s, 179, 180);
    MemberWith(s, 170, 177);
  }

  lemma DocumentField3(s: string)
    requires |s| == 272
    requires Plain(s, 194, 201) && s[195..201] == "field3" && s[202] == ':'
    requires SkipWs(s, 203) == 204 && StartsWith(s, 204, "false")
    ensures MemberAt(s, 194) == Done(Field3, 209)
  {
    KeywordValue(s, 203, 204);
    MemberWith(s, 194, 201);
  }

  /** `"field4": { "foo": "bar", }`, with its trailing comma. */
  lemma DocumentNested(s: string)
    requires |s| == 272
    requires Plain(s, 219, 226) && s[220..226] == "field4" && s[227] == ':'
    requires Plain(s, 243, 247) && s[244..247] == "foo" && s[248] == ':'
    requires Plain(s, 250, 254) && s[251..254] == "bar"
    requires s[229] == '{' && s[243] != '}' && s[255] == ',' && s[265] == '}'
    requires SkipWs(s, 228) == 229 && SkipWs(s, 230) == 243 && SkipWs(s, 249) == 250
    requires SkipWs(s, 255) == 255 && SkipWs(s, 256) == 265
    ensures MemberAt(s, 219) == Done(Nested, 266)
  {
    QuotedValue(s, 249, 250, 254);
    MemberWith(s, 243, 247);
    MemberTrailingComma(s, 230, [], ("foo", String("bar")), 243, 255, 255, 265);
    assert [] + [("foo", String("bar"))] == [("foo", String("bar"))];
    ObjectValue(s, 228, 229);
    MemberWith(s, 219, 226);
  }

  const Name: (string, JsonValue) := ("name", String("John Doe"))
  const Age: (string, JsonValue) := ("age", Number("43"))
  const PhoneList: (string, JsonValue) := ("phones", Phones)
  const Field1: (string, JsonValue) := ("field1", Null)
  const Field2: (string, JsonValue) := ("field2", Bool(true))
  const Field3: (string, JsonValue) := ("field3", Bool(false))
  const Nested: (string, JsonValue) := ("field4", Field4)

  /** The members in the order the loop appends them. */
  lemma DocumentMembers()
    ensures [] + [Name] + [Age] + [PhoneList] + [Field1] + [Field2] + [Field3] + [Nested]
      == [Name, Age, PhoneList, Field1, Field2, Field3, Nested]
  {
  }

  /** The loop of `parse_object` over the seven members of the document. */
  lemma DocumentObject(s: string)
    requires |s| == 272 && s[5] == '{' && s[271] == '}'
    requires s[33] == ',' && s[52] == ',' && s[136] == ',' && s[160] == ','
    requires s[184] == ',' && s[209] == ','
    requires s[15] == '"' && s[43] == '"' && s[62] == '"' && s[146] == '"'
    requires s[170] == '"' && s[194] == '"' && s[219] == '"'
    requires SkipWs(s, 0) == 5 && SkipWs(s, 6) == 15 && SkipWs(s, 33) == 33 && SkipWs(s, 34) == 43
    requires SkipWs(s, 52) == 52 && SkipWs(s, 53) == 62 && SkipWs(s, 136) == 136 && SkipWs(s, 137) == 146
    requires SkipWs(s, 160) == 160 && SkipWs(s, 161) == 170 && SkipWs(s, 184) == 184
    requires SkipWs(s, 185) == 194 && SkipWs(s, 209) == 209 && SkipWs(s, 210) == 219
    requires SkipWs(s, 266) == 271
    requires MemberAt(s, 15) == Done(Name, 33) && MemberAt(s, 43) == Done(Age, 52)
    requires MemberAt(s, 62) == Done(PhoneList, 136) && MemberAt(s, 146) == Done(Field1, 160)
    requires MemberAt(s, 170) == Done(Field2, 184) && MemberAt(s, 194) == Done(Field3, 209)
    requires MemberAt(s, 219) == Done(Nested, 266)
    ensures ValueAt(s, 0) == Done(Object([] + [Name] + [Age] + [PhoneList] + [Field1] + [Field2] + [Field3] + [Nested]), 272)
  {
    ObjectValue(s, 0, 5);
    MemberSeparator(s, 6, [], Name, 33);
    MemberSeparator(s, 34, [] + [Name], Age, 52);
    MemberSeparator(s, 53, [] + [Name] + [Age], PhoneList, 136);
    MemberSeparator(s, 137, [] + [Name] + [Age] + [PhoneList], Field1, 160);
    MemberSeparator(s, 161, [] + [Name] + [Age] + [PhoneList] + [Field1], Field2, 184);
    MemberSeparator(s, 185, [] + [Name] + [Age] + [PhoneList] + [Field1] + [Field2], Field3, 209);
    MemberSeparator(s, 210, [] + [Name] + [Age] + [PhoneList] + [Field1] + [Field2] + [Field3], Nested, 266);
  }

  /** The document of the test parses to the expected object; the trailing
      comma inside `field4` is accepted. */
  lemma BasicParsing()
    ensures ParseResult(Document) == Ok(Object([
      ("name", String("John Doe")),
      ("age", Number("43")),
      ("phones", Array([String("+44 1234567"), String("+44 2345678")])),
      ("field1", Null),
      ("field2", Bool(true)),
      ("field3", Bool(false)),
      ("field4", Object([("foo", String("bar"))]))]))
  {
    DocumentKey15();
    DocumentKey43();
    DocumentKey62();
    DocumentKey146();
    DocumentKey170();
    DocumentKey194();
    DocumentKey219();
    DocumentKey243();
    DocumentString23();
    DocumentString86();
    DocumentString113();
    DocumentString250();
    DocumentScalars();
    DocumentNullAt();
    DocumentTrueAt();
    DocumentFalseAt();
    DocumentBrackets();
    DocumentSpace0();
    DocumentSpace6();
    DocumentSpace22();
    DocumentSpace33();
    DocumentSpace34();
    DocumentSpace49();
    DocumentSpace52();
    DocumentSpace53();
    DocumentSpace71();
    DocumentSpace73();
    DocumentSpace99();
    DocumentSpace100();
    DocumentSpace126();
    DocumentSpace136();
    DocumentSpace137();
    DocumentSpace155();
    DocumentSpace160();
    DocumentSpace161();
    DocumentSpace179();
    DocumentSpace184();
    DocumentSpace185();
    DocumentSpace203();
    DocumentSpace209();
    DocumentSpace210();
    DocumentSpace228();
    DocumentSpace230();
    DocumentSpace249();
    DocumentSpace255();
    DocumentSpace256();
    DocumentSpace266();
    DocumentNameAge(Document);
    DocumentPhones(Document);
    DocumentKeywords(Document);
    DocumentNested(Document);
    DocumentObject(Document);
    DocumentMembers();
  }

  // ---- departures from JSON ----

  /** A keyword is a prefix: `nullx` is `null`, the `x` is never read. */
  lemma KeywordPrefix()
    ensures ParseResult("nullx") == Ok(Null)
  {
    KeywordsMatchAsPrefixes([], "x");
    assert [] + "null" + "x" == "nullx";
  }

  /** A minus sign is rejected where it stands. */
  lemma NegativeNumber()
    ensures ParseResult("-1") == Err(ParseError(InvalidNumber, 0))
  {
    var s := "-1";
    assert SkipWs(s, 0) == 0;
    NegativeNumbersRejected(s, 0);
    ErrorOnAscii(s, InvalidNumber, 0);
  }

  /** There are no exponents: `1e5` is the number `1`, and the rest of the
      text is ignored. */
  lemma NoExponent()
    ensures ParseResult("1e5") == Ok(Number("1"))
  {
    var s := "1e5";
    assert SkipWs(s, 0) == 0;
    NumberValue(s, 0, 0);
    assert s[0..1] == "1";
    NumberStopsAtNonNumberChar(s, 0, 1);
  }

  /** A trailing comma in an array is accepted. */
  lemma ArrayTrailingComma()
    ensures ParseResult("[1,]") == Ok(Array([Number("1")]))
  {
    var s := "[1,]";
    assert SkipWs(s, 0) == 0 && SkipWs(s, 1) == 1 && SkipWs(s, 2) == 2 && SkipWs(s, 3) == 3;
    ArrayValue(s, 0, 0);
    NumberValue(s, 1, 1);
    assert s[1..2] == "1";
    NumberStopsAtNonNumberChar(s, 1, 2);
    ElementTrailingComma(s, 1, [], Number("1"), 2, 2, 3);
    assert [] + [Number("1")] == [Number("1")];
  }

  /** The character where a key's opening quote belongs is skipped
      unchecked: in `{x":1}` the key is the empty string between `x"` and
      the next quote. */
  lemma KeyQuoteUnchecked()
    ensures ParseResult("{x\":1}") == Ok(Object([("", Number("1"))]))
  {
    KeyQuoteUncheckedIn("{x\":1}");
  }

  lemma KeyQuoteUncheckedIn(s: string)
    requires |s| == 6 && s[0] == '{' && s[1] == 'x' && s[2] == '"' && s[3] == ':'
    requires s[4] == '1' && s[5] == '}'
    ensures ParseResult(s) == Ok(Object([("", Number("1"))]))
  {
    var kv := ("", Number("1"));
    assert MemberAt(s, 1) == Done(kv, 5) by {
      assert StringAt(s, 1) == Done(String([]), 3);
      assert SkipWs(s, 3) == 3 && SkipWs(s, 4) == 4;
      assert StartsWith(s, 3, ":") by {
        assert s[3] == ":"[0];
      }
      NumberValue(s, 4, 4);
      assert s[4..5] == "1";
      NumberStopsAtNonNumberChar(s, 4, 5);
    }
    assert ObjectRest(s, 1, []) == Done(Object([kv]), 6) by {
      assert SkipWs(s, 1) == 1 && SkipWs(s, 5) == 5;
      MemberClose(s, 1, [], kv, 5, 5);
      assert [] + [kv] == [kv];
    }
    assert ValueAt(s, 0) == ObjectRest(s, 1, []) by {
      assert SkipWs(s, 0) == 0;
      ObjectValue(s, 0, 0);
    }
  }

  /** A missing colon is reported as an unexpected `:`, the character that
      was expected, at the character found in its place. */
  lemma ColonExpected()
    ensures ParseResult("{\"a\";1}") == Err(ParseError(UnexpectedChar(':'), 4))
  {
    ColonExpectedIn("{\"a\";1}");
  }

  lemma ColonExpectedIn(s: string)
    requires |s| == 7 && s[0] == '{' && s[1] == '"' && s[2] == 'a' && s[3] == '"' && s[4] == ';'
    requires s[5] == '1' && s[6] == '}'
    ensures ParseResult(s) == Err(ParseError(UnexpectedChar(':'), 4))
  {
    assert ObjectRest(s, 1, []) == Stop(UnexpectedChar(':'), 4) by {
      assert SkipWs(s, 1) == 1 && SkipWs(s, 4) == 4;
      assert StringAt(s, 1) == Done(String("a"), 4) by {
        assert Plain(s, 1, 3);
        QuotedAt(s, 1, 3);
        assert s[2..3] == "a";
      }
      MissingColon(s, 1, [], String("a"), 4);
    }
    assert ValueAt(s, 0) == Stop(UnexpectedChar(':'), 4) by {
      assert SkipWs(s, 0) == 0;
      ObjectValue(s, 0, 0);
    }
    assert IsAscii(s);
    ErrorOnAscii(s, UnexpectedChar(':'), 4);
  }

  /** Keys may repeat; every member is kept, in order. */
  lemma DuplicateKeys()
    ensures ParseResult("{\"a\":1,\"a\":2}") == Ok(Object([("a", Number("1")), ("a", Number("2"))]))
  {
    DuplicateKeysIn("{\"a\":1,\"a\":2}");
  }

  /** A single-digit member `"a":d` between quotes at `q` and `q + 2`. */
  lemma DigitMember(s: string, q: nat)
    requires q + 5 < |s| && s[q] == '"' && s[q + 1] == 'a' && s[q + 2] == '"' && s[q + 3] == ':'
    requires IsDigit(s[q + 4]) && !IsNumberChar(s[q + 5])
    ensures MemberAt(s, q) == Done(("a", Number([s[q + 4]])), q + 5)
  {
    assert Plain(s, q, q + 2);
    assert s[q + 1..q + 2] == "a";
    assert SkipWs(s, q + 4) == q + 4;
    NumberValue(s, q + 4, q + 4);
    assert s[q + 4..q + 5] == [s[q + 4]];
    NumberStopsAtNonNumberChar(s, q + 4, q + 5);
    MemberWith(s, q, q + 2);
  }

  /** The text `{"a":1,"a":2}`, character by character. */
  predicate DuplicateKeysText(s: string)
  {
    && |s| == 13 && s[0] == '{' && s[6] == ',' && s[12] == '}'
    && s[1] == '"' && s[2] == 'a' && s[3] == '"' && s[4] == ':' && s[5] == '1'
    && s[7] == '"' && s[8] == 'a' && s[9] == '"' && s[10] == ':' && s[11] == '2'
  }

  lemma DuplicateKeysIn(s: string)
    requires DuplicateKeysText(s)
    ensures ParseResult(s) == Ok(Object([("a", Number("1")), ("a", Number("2"))]))
  {
    DuplicateKeysSecond(s);
    DuplicateKeysFirst(s);
    assert ValueAt(s, 0) == ObjectRest(s, 1, []) by {
      assert SkipWs(s, 0) == 0;
      ObjectValue(s, 0, 0);
    }
  }

  lemma DuplicateKeysFirst(s: string)
    requires DuplicateKeysText(s)
    ensures ObjectRest(s, 1, []) == ObjectRest(s, 7, [("a", Number("1"))])
  {
    var a1 := ("a", Number("1"));
    assert SkipWs(s, 1) == 1 && SkipWs(s, 6) == 6;
    DigitMember(s, 1);
    assert [s[5]] == "1";
    MemberComma(s, 1, [], a1, 6, 6);
    assert [] + [a1] == [a1];
  }

  lemma DuplicateKeysSecond(s: string)
    requires DuplicateKeysText(s)
    ensures ObjectRest(s, 7, [("a", Number("1"))]) == Done(Object([("a", Number("1")), ("a", Number("2"))]), 13)
  {
    var a1 := ("a", Number("1"));
    var a2 := ("a", Number("2"));
    assert SkipWs(s, 7) == 7 && SkipWs(s, 12) == 12;
    DigitMember(s, 7);
    assert [s[11]] == "2";
    MemberClose(s, 7, [a1], a2, 12, 12);
    assert [a1] + [a2] == [a1, a2];
  }

  /** Control characters need no escape: a raw tab is kept. */
  lemma RawControlCharacter()
    ensures ParseResult("\"\t\"") == Ok(String("\t"))
  {
    var s := "\"\t\"";
    assert SkipWs(s, 0) == 0;
    assert Plain(s, 0, 2);
    QuotedValue(s, 0, 0, 2);
    assert s[1..2] == "\t";
  }

  /** A string holding one `\uXXXX` escape of a scalar value, followed
      by one more character before the closing quote. */
  lemma UnicodeStringIn(s: string, ch: char)
    requires |s| == 9 && s[0] == '"' && s[1] == '\\' && s[2] == 'u' && s[8] == '"'
    requires FromStrRadix16(s[3..7]).Some? && CharFromU32(FromStrRadix16(s[3..7]).value) == Some(ch)
    ensures ParseResult(s) == Ok(String([ch]))
  {
    assert SkipWs(s, 0) == 0;
    StringValue(s, 0, 0);
    UnicodeEscapeSwallows(s, 1, [], ch);
    assert StringRest(s, 8, [] + [ch]) == Done(String([] + [ch]), 9);
    assert [] + [ch] == [ch];
  }

  lemma Hex0041()
    ensures FromStrRadix16("0041") == Some(0x41)
  {
    assert "0041"[..3] == "004" && "004"[..2] == "00" && "00"[..1] == "0" && "0"[..0] == "";
  }

  lemma HexPlus041()
    ensures FromStrRadix16("+041") == Some(0x41)
  {
    assert "+041"[1..] == "041";
    assert "041"[..2] == "04" && "04"[..1] == "0" && "0"[..0] == "";
  }

  lemma HexD800()
    ensures FromStrRadix16("D800") == Some(0xD800)
  {
    assert "D800"[..3] == "D80" && "D80"[..2] == "D8" && "D8"[..1] == "D" && "D"[..0] == "";
  }

  /** After `\uXXXX` the next character is dropped: `"\u0041B"` is `"A"`. */
  lemma UnicodeDropsNext()
    ensures ParseResult("\"\\u0041B\"") == Ok(String("A"))
  {
    var s := "\"\\u0041B\"";
    assert s[3..7] == "0041";
    Hex0041();
    UnicodeStringIn(s, 'A');
  }

  /** `u32::from_str_radix` takes a leading `+`: `\u+041` is `A`. */
  lemma UnicodePlusSign()
    ensures ParseResult("\"\\u+041x\"") == Ok(String("A"))
  {
    var s := "\"\\u+041x\"";
    assert s[3..7] == "+041";
    HexPlus041();
    assert FromStrRadix16(s[3..7]) == Some(0x41);
    assert CharFromU32(0x41) == Some('A');
    UnicodeStringIn(s, 'A');
  }

  /** A surrogate code point is no character: `\uD800` is an error after
      the four digits. */
  lemma UnicodeSurrogate()
    ensures ParseResult("\"\\uD800\"") == Err(ParseError(InvalidUnicode, 7))
  {
    var s := "\"\\uD800\"";
    assert s[3..7] == "D800";
    HexD800();
    UnicodeSurrogateIn(s);
  }

  lemma UnicodeSurrogateIn(s: string)
    requires |s| == 8 && s[0] == '"' && s[1] == '\\' && s[2] == 'u' && s[7] == '"' && IsAscii(s)
    requires FromStrRadix16(s[3..7]) == Some(0xD800)
    ensures ParseResult(s) == Err(ParseError(InvalidUnicode, 7))
  {
    assert SkipWs(s, 0) == 0;
    StringValue(s, 0, 0);
    InvalidUnicodeEscape(s, 1, []);
    ErrorOnAscii(s, InvalidUnicode, 7);
  }
}
