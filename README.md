# A verified model of a small recursive-descent JSON parser

This project models `src/lib.rs`, a hand-written JSON parser kept as a fuzzing
demonstration. The parser reads a loose subset of JSON (RFC 8259) through a
`Cursor`, a byte position over the input that its routines advance in place.
`parse_json` calls `parse_value`. `parse_value` skips whitespace, tries the
keywords `null`, `true` and `false`, and then dispatches on the next character
to `parse_string`, `parse_array`, `parse_object` or `parse_number`. Arrays and
objects recurse back into `parse_value`. A failure is a `JsonParseError` that
pairs an error kind with the byte offset at which it was detected.

The model has three layers:

- `Parser` (parser.dfy) is the imperative code. `Cursor` is a class whose
  `index` field the methods advance. Each parsing routine is a method with the
  loops of the Rust code and their invariants. Each method is proved to return
  exactly what a function of module `Grammar` prescribes, and to leave the
  cursor exactly where that function says.
- `Grammar` (grammar.dfy) is the specification. Pure functions over the text
  and a character index return `Done(value, next)` or `Stop(kind, at)`.
  `ParseResult` is what `parse_json` returns.
- `Properties` (properties.dfy), `RoundTrip` (roundtrip.dfy) and
  `Examples` (examples.dfy) state what the parser does. They include a
  print-then-parse round trip against module `Printer`, the error cases, and
  the places where the parser departs from RFC 8259. They also state the
  texts of `src/test.rs` whose expectations agree with the code.

The cursor counts characters, and errors carry the byte offset: `ByteOffset`
sums the UTF-8 widths of the preceding characters (RFC 3629, section 3).
Over ASCII text the two coincide (`Chars.AsciiByteOffset`).

The departures from RFC 8259 are reproduced, not fixed:

- Negative numbers always fail.
- There are no exponents.
- A trailing comma before `]` or `}` is accepted.
- Text after the first value is ignored.
- Keywords match as prefixes.
- After `\uXXXX` the next character is dropped.
- Surrogate escapes are errors.
- Control characters need no escape.
- `u32::from_str_radix` accepts a leading `+`, so `\u+041` is read as `A`.
- The character where a key's opening quote belongs is skipped unchecked.
- A missing colon is reported as an unexpected `:`.

## Model

| member | source | states |
|---|---|---|
| Parser.Cursor.constructor | src/lib.rs:10-12 | a new cursor is at position 0 of the given text |
| Parser.Cursor.Peek | src/lib.rs:14-16 | `None` exactly at the end of input, otherwise the character under the cursor |
| Parser.Cursor.Consume | src/lib.rs:18-22 | returns the character under the cursor and moves one past it; at the end it returns `None` and does not move |
| Parser.Cursor.ConsumeNChars | src/lib.rs:24-32 | when `n` characters remain, returns exactly them and advances past them; otherwise returns `None` and leaves the cursor at the end of input, with no rollback |
| Parser.Cursor.SkipWhitespaces | src/lib.rs:34-41 | moves to `SkipWs` of the old position: past whitespace only, stopping at the end or at the first non-whitespace character |
| Parser.Cursor.ConsumeStr | src/lib.rs:43-51 | succeeds exactly when the rest of the input starts with the literal, returns it and advances by its length; on failure the position is unchanged |
| Parser.Cursor.CreateError | src/lib.rs:53-58 | the error has the given kind and the cursor's byte offset, between the character index and four times it |
| Parser.ParseJson | src/lib.rs:86-89 | returns `ParseResult(text)`, the outcome of one value read from position 0 |
| Parser.ParseValue | src/lib.rs:91-120 | result and final position are those of `ValueAt`: whitespace, then the keywords as prefixes in order, then dispatch on `"`, `[`, `{`, `-` or a digit, else UnexpectedChar at that character or UnexpectedEnd |
| Parser.ParseString | src/lib.rs:122-170 | result and final position are those of `StringAt`; the loop invariant ties the collected characters to `StringRest` |
| Parser.ParseEscape | src/lib.rs:135-162 | result and position are those of `EscapeAt`: the eight simple escapes; `\u` with four hex digits, then `from_u32`; InvalidEscape or InvalidUnicode otherwise |
| Parser.ParseNumber | src/lib.rs:171-187 | collects the longest run of digits and dots; returns `Number` of it when the run is accepted as an f64, else InvalidNumber at the end of the run (`NumberAt`) |
| Parser.ParseArray | src/lib.rs:189-221 | result and position are those of `ArrayAt`; the loop invariant keeps `ArrayRest` of the elements read so far equal to the outcome |
| Parser.ParseObject | src/lib.rs:223-268 | result and position are those of `ObjectAt`, by the same loop invariant over `ObjectRest` |
| Parser.ParseMember | src/lib.rs:237-251 | key by `parse_string`, colon after whitespace, value after whitespace, with the errors of `MemberAt` |
| Parser.ParseSeparator | src/lib.rs:206-219 | after whitespace, a comma continues, the closing bracket ends, the end of input is UnexpectedEnd and any other character is UnexpectedChar of it (`SeparatorAt`, also lines 253-266) |
| Grammar.SkipWs | src/lib.rs:34-41 | the result is at or after the start, and is the end of input or a non-whitespace character |
| Grammar.SkipWsSkipsWhitespace | src/lib.rs:35-39 | every character skipped is whitespace |
| Grammar.NumberAt | src/lib.rs:171-187 | a number read is exactly the slice of input it covers; a failure is InvalidNumber |
| Grammar.RunAcceptedIsF64Accepts | src/lib.rs:183-185 | the index-based acceptance test agrees with the f64 grammar on the run's text |
| Grammar.HexAtIsFromStrRadix16 | src/lib.rs:151-155 | the four characters after `\u` are read exactly as `u32::from_str_radix(_, 16)` reads them |
| Grammar.StartsWithSlice | src/lib.rs:44 | the prefix test is `starts_with` on the rest of the input |
| Grammar.ParseResult | src/lib.rs:86-89 | an error offset never lies past the byte length of the text |
| Chars.FromStrRadix16Accepts | src/lib.rs:154-155 | accepted exactly when the text is hex digits, optionally after one leading `+` with at least one digit |
| Chars.CharFromU32 | src/lib.rs:156-158 | defined exactly on values below 0x110000 that are not surrogates, and then it is that code point |
| Chars.Utf8Width | src/lib.rs:20 | the UTF-8 width is 1 to 4 bytes, and 1 exactly for ASCII |
| Chars.AsciiByteOffset | src/lib.rs:53-58 | over ASCII text the byte offset stored in an error is the character index |
| Chars.ByteOffsetMonotonic | src/lib.rs:18-22 | advancing the cursor by k characters advances the byte offset by at least k |
| Properties.SkipWsTo | src/lib.rs:34-41 | whitespace skipping stops at the first non-whitespace character |
| Properties.SkipWsIdempotent | src/lib.rs:34-41 | skipping whitespace twice is skipping it once |
| Properties.ValueAfterWhitespace | src/lib.rs:92 | leading whitespace does not change the value read |
| Properties.BlankInputIsUnexpectedEnd | src/lib.rs:102-104 | a text of only whitespace is UnexpectedEnd at its byte length |
| Properties.KeywordsMatchAsPrefixes | src/lib.rs:94-99 | after whitespace, `null`, `true` or `false` followed by any text at all parses as that keyword |
| Properties.NegativeNumbersRejected | src/lib.rs:115-116 | a `-` where a value starts is InvalidNumber at the `-` |
| Properties.UnexpectedValueChar | src/lib.rs:117-118 | a character that starts no value and no keyword is UnexpectedChar of itself, at its position |
| Properties.NumberAccepted | src/lib.rs:174-186 | a number is accepted exactly when its run is an f64 lexeme, and the value is that run ending where the run ends; a failure is at the end of the run |
| Properties.NumberStopsAtNonNumberChar | src/lib.rs:174-181 | the run stops at the first character that is not a digit or a dot, so `1e5` is read as `1` |
| Properties.TwoDotsRejected | src/lib.rs:183-185 | a run with two dots is InvalidNumber at the end of the run, not at its start |
| Properties.ValueStartChars | src/lib.rs:94-119 | a value is only ever read at `n`, `t`, `f`, `"`, `[`, `{` or a digit after whitespace |
| Properties.ParseRoundTrip | src/lib.rs:86-120 | whitespace, a printable value (its number lexemes start with a digit and hold only digits and at most one dot), then any text not starting with a digit or dot: `parse_json` returns that value |
| Properties.PlainChars | src/lib.rs:164-167 | characters other than `"` and `\`, control characters included, are copied verbatim |
| Properties.PlainStringRun | src/lib.rs:131-134 | a run without quote or backslash up to a quote is the string, ending after the quote |
| Properties.UnterminatedString | src/lib.rs:127-129 | a string whose remaining text holds no quote and no backslash runs into the end: UnexpectedEnd at the end of input |
| Properties.StringEndsWithQuote | src/lib.rs:131-133 | a string read ends just after a `"` |
| Properties.BadEscape | src/lib.rs:137-160 | a backslash at the end is UnexpectedEnd; any unknown escape character is InvalidEscape at that character |
| Properties.UnicodeEscapeSwallows | src/lib.rs:149-162 | a valid `\uXXXX` appends its character and also consumes the character after the digits |
| Properties.UnicodeEscapeAtEnd | src/lib.rs:149-162 | a valid `\uXXXX` that ends the input leaves the string unterminated |
| Properties.InvalidUnicodeEscape | src/lib.rs:149-158 | fewer than four characters is InvalidUnicode at the end of input; non-hex digits or a surrogate value is InvalidUnicode just after the four characters |
| Properties.ElementSeparatorErrors | src/lib.rs:206-219 | after an element, the end of input is UnexpectedEnd and a character other than `,` or `]` is UnexpectedChar of it |
| Properties.ElementSeparator | src/lib.rs:203-213 | elements are appended in input order; `]` ends the array and `,` continues with the element appended |
| Properties.ElementTrailingComma | src/lib.rs:194-213 | a comma followed by `]` ends the array: the trailing comma is accepted |
| Grammar.ArrayClosed | src/lib.rs:194-200 | a `]` after whitespace ends the array loop with the elements read so far (so `[]` is empty) |
| Properties.MemberSeparatorErrors | src/lib.rs:253-266 | after a member, the end of input is UnexpectedEnd and a character other than `,` or `}` is UnexpectedChar of it |
| Properties.MemberSeparator | src/lib.rs:250-260 | members are appended in input order, duplicate keys kept; `}` ends the object and `,` continues |
| Properties.MemberTrailingComma | src/lib.rs:228-260 | a comma followed by `}` ends the object: the trailing comma is accepted |
| Grammar.ObjectClosed | src/lib.rs:228-235 | a `}` after whitespace ends the object loop with the members read so far (so `{}` is empty) |
| Properties.EndWhereValueExpected | src/lib.rs:102-104 | the end of input where a value, element or member is expected is UnexpectedEnd at the end |
| Properties.MissingColon | src/lib.rs:242-246 | a key not followed by a colon is UnexpectedChar(':'), naming the expected character, after the key and whitespace |
| Properties.ArrayEndsWithBracket | src/lib.rs:193-220 | an array read ends just after a `]` |
| Properties.ObjectEndsWithBrace | src/lib.rs:227-267 | an object read ends just after a `}` |
| RoundTrip.ValueRoundTrip | src/lib.rs:91-120 | a printable value (its number lexemes start with a digit and hold only digits and at most one dot), printed and followed by a non-number character, is read back as itself, ending where the printed text ends |
| RoundTrip.StringRoundTrip | src/lib.rs:122-170 | an escaped string body and its closing quote are read back as the original string |
| RoundTrip.NumberRoundTrip | src/lib.rs:171-187 | a digit-led lexeme with at most one dot is read back as itself |
| RoundTrip.KeywordRoundTrip | src/lib.rs:94-99 | printed keywords are read back |
| RoundTrip.ArrayRoundTrip | src/lib.rs:189-221 | a printed array of printable elements is read back element by element, in order |
| RoundTrip.ObjectRoundTrip | src/lib.rs:223-268 | a printed object of printable members is read back member by member, in order |
| RoundTrip.MemberRoundTrip | src/lib.rs:237-251 | a printed `"key":value` member with a printable value is read back as that pair |
| RoundTrip.KeyRoundTrip | src/lib.rs:237-240 | a quoted key is read back by `parse_string` |
| Examples.BasicParsing | src/test.rs:5-44 | the nested document of `basic_parsing` parses to its seven members, with the trailing comma accepted and `age` kept as the lexeme `43` |
| Examples.ComplexStrings | src/test.rs:46-56 | the escapes `\n`, `\t`, `\"` and `\\` decode to the characters they name |
| Examples.UnexpectedEndAfterComma | src/test.rs:87-100 | the text that ends after a member and its comma is UnexpectedEnd at 39 |
| Examples.UnexpectedEndAfterColon | src/test.rs:102-113 | the text that ends after a colon is UnexpectedEnd at 28 |
| Examples.InvalidUnicodeError | src/test.rs:116-129 | `\u{110000}` is InvalidUnicode at 12, after the four characters `{110` |
| Examples.InvalidNumberError | src/test.rs:131-144 | `123.456.789` is InvalidNumber at 16, the end of the run |
| Examples.InvalidEscapeError | src/test.rs:146-159 | `\q` is InvalidEscape at 7 |
| Examples.KeywordPrefix | src/lib.rs:94-95 | `nullx` parses as `null` |
| Examples.NegativeNumber | src/lib.rs:115-116 | `-1` is InvalidNumber at 0 |
| Examples.NoExponent | src/lib.rs:174-181 | `1e5` parses as the number `1` |
| Examples.ArrayTrailingComma | src/lib.rs:206-213 | `[1,]` parses as a one-element array |
| Examples.KeyQuoteUnchecked | src/lib.rs:237 | in `{x":1}` the `x` is taken as the opening quote, giving the key "" |
| Examples.ColonExpected | src/lib.rs:244-246 | `{"a";1}` is UnexpectedChar(':') at 4 |
| Examples.DuplicateKeys | src/lib.rs:250-251 | `{"a":1,"a":2}` keeps both members, in order |
| Examples.RawControlCharacter | src/lib.rs:164-167 | a raw tab inside a string is kept |
| Examples.UnicodeDropsNext | src/lib.rs:149-162 | `"\u0041B"` is the string `A`: the `B` is dropped |
| Examples.UnicodePlusSign | src/lib.rs:154-155 | `"\u+041x"` is the string `A` |
| Examples.UnicodeSurrogate | src/lib.rs:156-158 | `"\uD800"` is InvalidUnicode at 7 |

## Left out

- The conversion of a number to `f64` (src/lib.rs:183-185) is floating point. `Number` keeps the accepted lexeme. Acceptance is Rust's float grammar restricted to digits and dots: at least one digit and at most one dot. `basic_parsing` expects `Number(43.0)`; the model gives `Number("43")`.
- The 100000-element stack array and `black_box` in `parse_value` (src/lib.rs:106-107) have no effect on the result.
- Recursion depth and stack exhaustion are resource limits, not behaviour. The model recurses without bound.
- `src/main.rs` only prints one parse. It is not part of this model.
- Lifetimes and borrowing are not modelled. The cursor holds the text as a value.
- The cursor counts characters, not bytes. `CreateError` converts the position to the byte offset Rust stores, so every error position agrees with the byte position. Slicing `data[pos..]` at a byte position is thereby always on a character boundary.
- `char::is_whitespace` is an enumerated list of the Unicode White_Space characters (`Chars.IsWhitespace`).
- The guard in `parse_object` for a key that is not a string (src/lib.rs:239) cannot fire, because `parse_string` only returns strings. The model leaves that case out.
- `consume_n_chars` does not restore the position when fewer than `n` characters remain; it stops at the end of input. The model follows the code.
- The routines of `src/lib.rs` are inlined loops. The model factors the escape branch (`ParseEscape`), one object member (`ParseMember`) and the separator step (`ParseSeparator`, shared by arrays and objects) into methods of their own. They have the same branches and the same errors.
- The two texts of `unexpected_char_error` (src/test.rs:59-85) expect `UnexpectedChar(';')` at 21 and `UnexpectedChar('a')` at 15. The code gives `UnexpectedChar(':')` at 21 (the missing colon names the expected character), and `UnexpectedChar(':')` at 17 (the `a` is taken as the opening quote, the key is empty, and `n` stands where the colon should). The model follows the code, so these two expectations are not stated as lemmas. `Examples.ColonExpected` and `Examples.KeyQuoteUnchecked` state the code's behaviour on smaller texts.
- The other `src/test.rs` expectations compare with `PartialEq`, which the Rust types do not derive. The model compares values structurally.
