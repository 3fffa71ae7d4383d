/**
 * A compact printer for JSON values: the inverse against which the parser
 * is checked (module Properties proves that parsing the printed text of a
 * printable value gives the value back). Strings are written with `"` and
 * `\` escaped and every other character as it is; numbers as their lexeme;
 * no whitespace.
 */
module Printer {
  import opened JsonTypes
  import opened Chars

  /** One character of a string body: quote and backslash get a backslash. */
  function EscapeChar(c: char): (r: string)
    ensures 1 <= |r| <= 2 && r[|r| - 1] == c
    ensures |r| == 2 <==> c == '"' || c == '\\'
  {
    if c == '"' || c == '\\' then ['\\', c] else [c]
  }

  function Escaped(t: string): (r: string)
    ensures |t| <= |r| <= 2 * |t|
  {
    if t == [] then [] else EscapeChar(t[0]) + Escaped(t[1..])
  }

  function Quote(t: string): (r: string)
    ensures |r| >= 2 && r[0] == '"' && r[|r| - 1] == '"'
  {
    "\"" + Escaped(t) + "\""
  }

  function Print(v: JsonValue): string
    decreases v, 1
  {
    match v
    case Null => "null"
    case Bool(b) => if b then "true" else "false"
    case Number(lexeme) => lexeme
    case String(t) => Quote(t)
    case Array(elems) => "[" + PrintElems(elems) + "]"
    case Object(members) => "{" + PrintMembers(members) + "}"
  }

  /** Elements separated by commas. */
  function PrintElems(es: seq<JsonValue>): string
    decreases es, 0
  {
    if es == [] then ""
    else if |es| == 1 then Print(es[0])
    else Print(es[0]) + "," + PrintElems(es[1..])
  }

  /** `"key":value` members separated by commas. */
  function PrintMembers(ms: seq<(string, JsonValue)>): string
    decreases ms, 0
  {
    if ms == [] then ""
    else
      var m := ms[0];
      assert m in ms;
      assert m.1 < m;
      if |ms| == 1 then PrintMember(m) else PrintMember(m) + "," + PrintMembers(ms[1..])
  }

  function PrintMember(m: (string, JsonValue)): string
    decreases m, 0
  {
    assert m.1 < m;
    Quote(m.0) + ":" + Print(m.1)
  }

  /** A lexeme `parse_number` reads back: it starts with a digit (as the
      dispatch of `parse_value` needs), holds only digits and dots, and at
      most one dot. */
  predicate IsNumberLexeme(l: string) {
    && |l| > 0
    && IsDigit(l[0])
    && (forall k :: 0 <= k < |l| ==> IsNumberChar(l[k]))
    && DotCount(l) <= 1
  }

  /** The values whose printed form the parser reads back: those whose
      numbers are all number lexemes. */
  predicate Printable(v: JsonValue)
    decreases v, 1
  {
    match v
    case Number(lexeme) => IsNumberLexeme(lexeme)
    case Array(elems) => AllPrintable(elems)
    case Object(members) => AllPrintableMembers(members)
    case _ => true
  }

  predicate AllPrintable(es: seq<JsonValue>)
    decreases es, 0
  {
    es != [] ==> Printable(es[0]) && AllPrintable(es[1..])
  }

  predicate AllPrintableMembers(ms: seq<(string, JsonValue)>)
    decreases ms, 0
  {
    ms != [] ==>
      var m := ms[0];
      assert m in ms;
      assert m.1 < m;
      Printable(m.1) && AllPrintableMembers(ms[1..])
  }
}
