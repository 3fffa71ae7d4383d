/**
 * The parser as the Rust code runs it: a cursor whose position the routines
 * advance in place (src/lib.rs:4-59), and the recursive-descent routines
 * over it (src/lib.rs:86-268). Each routine is proved to leave the cursor
 * and return the result the matching function of module Grammar describes.
 *
 * The cursor counts characters; `CreateError` converts to the byte offset
 * Rust stores.
 */
module Parser {
  import opened JsonTypes
  import opened Chars
  import opened Grammar

  /** The result a routine returned and the index it left the cursor at
      agree with the outcome `step` of the specification. */
  ghost predicate Reflects<T>(r: Result<T, ParseError>, s: string, index: nat, step: Step<T>) {
    match step
    case Done(v, next) => r == Ok(v) && index == next
    case Stop(kind, at) => at <= |s| && r == Err(ParseError(kind, ByteOffset(s, at))) && index == at
  }

  class Cursor {
    const data: string
    var index: nat

    ghost predicate Valid()
      reads this
    {
      index <= |data|
    }

    constructor (data: string)
      ensures Valid() && this.data == data && index == 0
    {
      this.data := data;
      index := 0;
    }

    /** The character under the cursor, if any. */
    function Peek(): (r: Option<char>)
      reads this
      requires Valid()
      ensures r.None? <==> index == |data|
      ensures r.Some? ==> r.value == data[index]
    {
      if index < |data| then Some(data[index]) else None
    }

    /** Take the character under the cursor; at the end nothing moves. */
    method Consume() returns (r: Option<char>)
      requires Valid()
      modifies this
      ensures Valid()
      ensures old(index) < |data| ==> r == Some(data[old(index)]) && index == old(index) + 1
      ensures old(index) == |data| ==> r == None && index == old(index)
    {
      r := Peek();
      if r.Some? {
        index := index + 1;
      }
    }

    /** Take the next `n` characters. When fewer remain, the cursor is left
        at the end of input: what was consumed is not given back. */
    method ConsumeNChars(n: nat) returns (r: Option<string>)
      requires Valid()
      modifies this
      ensures Valid()
      ensures old(index) + n <= |data| ==>
        r == Some(data[old(index)..old(index) + n]) && index == old(index) + n
      ensures old(index) + n > |data| ==> r == None && index == |data|
    {
      var start := index;
      for k := 0 to n
        invariant Valid()
        invariant index == start + k <= |data|
      {
        var c := Consume();
        if c.None? {
          return None;
        }
      }
      r := Some(data[start..index]);
    }

    /** Advance over whitespace, stopping at the end of input or at the
        first character that is not whitespace. */
    method SkipWhitespaces()
      requires Valid()
      modifies this
      ensures Valid()
      ensures index == SkipWs(data, old(index))
    {
      while true
        invariant Valid()
        invariant old(index) <= index
        invariant SkipWs(data, index) == SkipWs(data, old(index))
        decreases |data| - index
      {
        var c := Peek();
        if c.None? || !IsWhitespace(c.value) {
          return;
        }
        var _ := Consume();
      }
    }

    /** Take `lit` if the remaining input starts with it; otherwise leave
        the cursor where it is. */
    method ConsumeStr(lit: string) returns (r: Option<string>)
      requires Valid()
      modifies this
      ensures Valid()
      ensures r.Some? <==> StartsWith(data, old(index), lit)
      ensures r.Some? ==> r.value == lit && index == old(index) + |lit|
      ensures r.None? ==> index == old(index)
    {
      StartsWithSlice(data, index, lit);
      if index + |lit| <= |data| && data[index..index + |lit|] == lit {
        var start := index;
        index := index + |lit|;
        r := Some(data[start..index]);
      } else {
        r := None;
      }
    }

    /** An error of the given kind at the cursor's byte offset. */
    function CreateError(kind: ErrorKind): (e: ParseError)
      reads this
      requires Valid()
      ensures e.kind == kind && index <= e.pos <= 4 * index
    {
      ParseError(kind, ByteOffset(data, index))
    }
  }

  /** `parse_json`: a fresh cursor at the start of the text, one value. */
  method ParseJson(text: string) returns (r: Result<JsonValue, ParseError>)
    ensures r == ParseResult(text)
  {
    var c := new Cursor(text);
    r := ParseValue(c);
  }

  method ParseValue(c: Cursor) returns (r: Result<JsonValue, ParseError>)
    requires c.Valid()
    modifies c
    ensures c.Valid()
    ensures Reflects(r, c.data, c.index, ValueAt(c.data, old(c.index)))
    decreases |c.data| - c.index, 1
  {
    c.SkipWhitespaces();
    var lit := c.ConsumeStr("null");
    if lit.Some? {
      return Ok(Null);
    }
    lit := c.ConsumeStr("true");
    if lit.Some? {
      return Ok(Bool(true));
    }
    lit := c.ConsumeStr("false");
    if lit.Some? {
      return Ok(Bool(false));
    }
    var next := c.Peek();
    if next.None? {
      return Err(c.CreateError(UnexpectedEnd));
    }
    var ch := next.value;
    if ch == '"' {
      r := ParseString(c);
    } else if ch == '[' {
      r := ParseArray(c);
    } else if ch == '{' {
      r := ParseObject(c);
    } else if ch == '-' || IsDigit(ch) {
      r := ParseNumber(c);
    } else {
      r := Err(c.CreateError(UnexpectedChar(ch)));
    }
  }

  /** `parse_string`: the character under the cursor is consumed as the
      opening quote; characters are collected up to the closing quote. */
  method ParseString(c: Cursor) returns (r: Result<JsonValue, ParseError>)
    requires c.Valid()
    modifies c
    ensures c.Valid()
    ensures Reflects(r, c.data, c.index, StringAt(c.data, old(c.index)))
  {
    var _ := c.Consume(); // the opening quote
    var acc: string := [];
    while true
      invariant c.Valid()
      invariant StringRest(c.data, c.index, acc) == StringAt(c.data, old(c.index))
      decreases |c.data| - c.index
    {
      var next := c.Peek();
      if next.None? {
        return Err(c.CreateError(UnexpectedEnd));
      }
      var ch := next.value;
      if ch == '"' {
        var _ := c.Consume();
        return Ok(String(acc));
      } else if ch == '\\' {
        var decoded := ParseEscape(c);
        if decoded.Err? {
          return Err(decoded.error);
        }
        acc := acc + [decoded.value];
      } else {
        acc := acc + [ch];
        var _ := c.Consume();
      }
    }
  }

  /** The escape branch of `parse_string`, entered on the backslash. */
  method ParseEscape(c: Cursor) returns (r: Result<char, ParseError>)
    requires c.Valid() && c.index < |c.data|
    modifies c
    ensures c.Valid()
    ensures Reflects(r, c.data, c.index, EscapeAt(c.data, old(c.index)))
  {
    var _ := c.Consume(); // the backslash
    var esc := c.Peek();
    if esc.None? {
      return Err(c.CreateError(UnexpectedEnd));
    }
    var e := esc.value;
    var mapped := SimpleEscape(e);
    if mapped.Some? {
      r := Ok(mapped.value);
    } else if e == 'u' {
      var _ := c.Consume();
      var digits := c.ConsumeNChars(4);
      if digits.None? {
        return Err(c.CreateError(InvalidUnicode));
      }
      var code := FromStrRadix16(digits.value);
      HexAtIsFromStrRadix16(c.data, c.index - 4);
      if code.None? {
        return Err(c.CreateError(InvalidUnicode));
      }
      var decoded := CharFromU32(code.value);
      if decoded.None? {
        return Err(c.CreateError(InvalidUnicode));
      }
      r := Ok(decoded.value);
    } else {
      return Err(c.CreateError(InvalidEscape));
    }
    var _ := c.Consume(); // the escaped character, or the one after the digits
  }

  method ParseNumber(c: Cursor) returns (r: Result<JsonValue, ParseError>)
    requires c.Valid()
    modifies c
    ensures c.Valid()
    ensures Reflects(r, c.data, c.index, NumberAt(c.data, old(c.index)))
  {
    var number: string := [];
    while true
      invariant c.Valid()
      invariant old(c.index) <= c.index
      invariant number == c.data[old(c.index)..c.index]
      invariant NumberEnd(c.data, c.index) == NumberEnd(c.data, old(c.index))
      decreases |c.data| - c.index
    {
      var next := c.Peek();
      if next.None? || !IsNumberChar(next.value) {
        break;
      }
      number := number + [next.value];
      var _ := c.Consume();
    }
    RunAcceptedIsF64Accepts(c.data, old(c.index), c.index);
    if F64Accepts(number) {
      r := Ok(Number(number));
    } else {
      r := Err(c.CreateError(InvalidNumber));
    }
  }

  /** `parse_array`, entered on the opening bracket. */
  method ParseArray(c: Cursor) returns (r: Result<JsonValue, ParseError>)
    requires c.Valid() && c.index < |c.data|
    modifies c
    ensures c.Valid()
    ensures Reflects(r, c.data, c.index, ArrayAt(c.data, old(c.index)))
    decreases |c.data| - c.index, 0
  {
    ghost var spec := ArrayAt(c.data, c.index);
    var _ := c.Consume(); // the opening bracket
    var elems: seq<JsonValue> := [];
    while true
      invariant c.Valid()
      invariant old(c.index) < c.index
      invariant ArrayRest(c.data, c.index, elems) == spec
      decreases |c.data| - c.index
    {
      c.SkipWhitespaces();
      var next := c.Peek();
      if next.Some? && next.value == ']' {
        var _ := c.Consume();
        return Ok(Array(elems));
      }
      var value := ParseValue(c);
      if value.Err? {
        return Err(value.error);
      }
      elems := elems + [value.value];
      var more := ParseSeparator(c, ']');
      if more.Err? {
        return Err(more.error);
      }
      if !more.value {
        return Ok(Array(elems));
      }
    }
  }

  /** `parse_object`, entered on the opening brace. */
  method ParseObject(c: Cursor) returns (r: Result<JsonValue, ParseError>)
    requires c.Valid() && c.index < |c.data|
    modifies c
    ensures c.Valid()
    ensures Reflects(r, c.data, c.index, ObjectAt(c.data, old(c.index)))
    decreases |c.data| - c.index, 0
  {
    ghost var spec := ObjectAt(c.data, c.index);
    var _ := c.Consume(); // the opening brace
    var members: seq<(string, JsonValue)> := [];
    while true
      invariant c.Valid()
      invariant old(c.index) < c.index
      invariant ObjectRest(c.data, c.index, members) == spec
      decreases |c.data| - c.index
    {
      c.SkipWhitespaces();
      var next := c.Peek();
      if next.Some? && next.value == '}' {
        var _ := c.Consume();
        return Ok(Object(members));
      }
      var member := ParseMember(c);
      if member.Err? {
        return Err(member.error);
      }
      members := members + [member.value];
      var more := ParseSeparator(c, '}');
      if more.Err? {
        return Err(more.error);
      }
      if !more.value {
        return Ok(Object(members));
      }
    }
  }

  /** One key/colon/value member inside `parse_object`. */
  method ParseMember(c: Cursor) returns (r: Result<(string, JsonValue), ParseError>)
    requires c.Valid()
    modifies c
    ensures c.Valid()
    ensures Reflects(r, c.data, c.index, MemberAt(c.data, old(c.index)))
    decreases |c.data| - c.index, 1
  {
    var key := ParseString(c);
    if key.Err? {
      return Err(key.error);
    }
    // parse_string only ever returns a string, so the Rust guard for any
    // other value cannot fire
    c.SkipWhitespaces();
    var colon := c.ConsumeStr(":");
    if colon.None? {
      return Err(c.CreateError(UnexpectedChar(':')));
    }
    c.SkipWhitespaces();
    var value := ParseValue(c);
    if value.Err? {
      return Err(value.error);
    }
    r := Ok((key.value.s, value.value));
  }

  /** The step after each element or member: skip whitespace, then a comma
      (result `true`) or the closing bracket `close` (result `false`). */
  method ParseSeparator(c: Cursor, close: char) returns (r: Result<bool, ParseError>)
    requires c.Valid()
    modifies c
    ensures c.Valid()
    ensures Reflects(r, c.data, c.index, SeparatorAt(c.data, old(c.index), close))
  {
    c.SkipWhitespaces();
    var next := c.Peek();
    if next.None? {
      return Err(c.CreateError(UnexpectedEnd));
    }
    if next.value == ',' {
      var _ := c.Consume();
      r := Ok(true);
    } else if next.value == close {
      var _ := c.Consume();
      r := Ok(false);
    } else {
      r := Err(c.CreateError(UnexpectedChar(next.value)));
    }
  }
}
