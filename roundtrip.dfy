/**
 * Print-then-parse: the parser reads every printable value back exactly
 * from its printed text. A value is printable when each of its number
 * lexemes starts with a digit and holds only digits and at most one dot.
 * The proofs follow the parser's structure: one lemma per branch of
 * `parse_value`, one per iteration of the loops of `parse_string`,
 * `parse_array` and `parse_object`.
 */
module RoundTrip {
  import opened JsonTypes
  import opened Chars
  import opened Grammar
  import opened Printer

  /** Text made of two parts stands in `s` exactly when each part stands
      where the other leaves off. */
  lemma StartsWithConcat(s: string, i: nat, a: string, b: string)
    ensures StartsWith(s, i, a + b) <==> StartsWith(s, i, a) && StartsWith(s, i + |a|, b)
  {
    StartsWithChars(s, i, a + b);
    StartsWithChars(s, i, a);
    StartsWithChars(s, i + |a|, b);
    if StartsWith(s, i, a + b) {
      forall k | 0 <= k < |a| ensures s[i + k] == a[k] {
        assert (a + b)[k] == a[k];
      }
      forall k | 0 <= k < |b| ensures s[i + |a| + k] == b[k] {
        assert (a + b)[|a| + k] == b[k];
      }
    }
    if StartsWith(s, i, a) && StartsWith(s, i + |a|, b) {
      forall k | 0 <= k < |a + b| ensures s[i + k] == (a + b)[k] {
        if k >= |a| {
          assert s[i + |a| + (k - |a|)] == b[k - |a|];
        }
      }
    }
  }

  /** Splits `(a + b) + c` into `a` and `b + c`. */
  lemma StartsWithRegroup(s: string, i: nat, a: string, b: string, c: string)
    requires StartsWith(s, i, a + b + c)
    ensures StartsWith(s, i, a) && StartsWith(s, i + |a|, b + c)
  {
    StartsWithConcat(s, i, a + b, c);
    StartsWithConcat(s, i, a, b);
    StartsWithConcat(s, i + |a|, b, c);
  }

  /** Splits `((a + b) + c) + d` into `a`, `b` and `c + d`. */
  lemma StartsWithSplit(s: string, i: nat, a: string, b: string, c: string, d: string)
    requires StartsWith(s, i, a + b + c + d)
    ensures StartsWith(s, i, a) && StartsWith(s, i + |a|, b) && StartsWith(s, i + |a| + |b|, c + d)
  {
    StartsWithConcat(s, i, a + b + c, d);
    StartsWithConcat(s, i, a + b, c);
    StartsWithConcat(s, i, a, b);
    StartsWithConcat(s, i + |a| + |b|, c, d);
  }

  /** Moving the first element of `xs` onto the end of `acc`. */
  lemma AppendFirst<T>(acc: seq<T>, xs: seq<T>)
    requires |xs| > 0
    ensures (acc + [xs[0]]) + xs[1..] == acc + xs
    ensures |xs| == 1 ==> acc + xs == acc + [xs[0]]
  {
  }

  /** The number run stops at `e` when everything before it is a digit or
      a dot and the character at `e` is not. */
  lemma {:induction false} NumberEndAt(s: string, i: nat, e: nat)
    requires i <= e <= |s|
    requires forall k :: i <= k < e ==> IsNumberChar(s[k])
    requires e == |s| || !IsNumberChar(s[e])
    ensures NumberEnd(s, i) == e
    decreases e - i
  {
    if i < e {
      NumberEndAt(s, i + 1, e);
    }
  }

  /** A number lexeme followed by a character that cannot extend it is read
      back as itself. */
  lemma NumberRoundTrip(s: string, i: nat, l: string)
    requires IsNumberLexeme(l) && StartsWith(s, i, l)
    requires i + |l| == |s| || !IsNumberChar(s[i + |l|])
    ensures NumberAt(s, i) == Done(Number(l), i + |l|)
  {
    StartsWithChars(s, i, l);
    forall k | i <= k < i + |l| ensures IsNumberChar(s[k]) {
      assert s[i + (k - i)] == l[k - i];
    }
    NumberEndAt(s, i, i + |l|);
    assert s[i..i + |l|] == l;
    RunCounts(s, i, i + |l|);
    StartsWithFirst(s, i, l);
    assert DigitIn(s, i, i + |l|);
  }

  /** An escaped string body followed by a quote is read back as the
      original characters, appended to what was already decoded. */
  lemma {:induction false} StringRoundTrip(s: string, i: nat, acc: string, t: string)
    requires StartsWith(s, i, Escaped(t) + "\"")
    ensures StringRest(s, i, acc) == Done(String(acc + t), i + |Escaped(t)| + 1)
    decreases t
  {
    if t == [] {
      StartsWithFirst(s, i, Escaped(t) + "\"");
      assert acc + t == acc;
    } else {
      var c := t[0];
      var e := EscapeChar(c);
      assert Escaped(t) == e + Escaped(t[1..]);
      StartsWithRegroup(s, i, e, Escaped(t[1..]), "\"");
      StartsWithFirst(s, i, e);
      assert acc + t == (acc + [c]) + t[1..];
      if c == '"' || c == '\\' {
        assert s[i + 1] == e[1];
        assert EscapeAt(s, i) == Done(c, i + 2);
      }
      StringRoundTrip(s, i + |e|, acc + [c], t[1..]);
    }
  }

  /** A printed value starts with a character that selects its branch of
      `parse_value`: never whitespace, a closing bracket or a comma. */
  lemma PrintFirstChar(v: JsonValue)
    requires Printable(v)
    ensures |Print(v)| > 0
    ensures var c := Print(v)[0];
      c == 'n' || c == 't' || c == 'f' || c == '"' || c == '[' || c == '{' || IsDigit(c)
  {
  }

  /** Print-then-parse: a printed value, followed by anything that cannot
      extend a number, is read back exactly, ending right after its text. */
  lemma {:induction false} ValueRoundTrip(s: string, i: nat, v: JsonValue)
    requires Printable(v) && StartsWith(s, i, Print(v))
    requires i + |Print(v)| == |s| || !IsNumberChar(s[i + |Print(v)|])
    ensures ValueAt(s, i) == Done(v, i + |Print(v)|)
    decreases v, 2
  {
    match v
    case Null => KeywordRoundTrip(s, i, v);
    case Bool(_) => KeywordRoundTrip(s, i, v);
    case Number(l) => NumberValueRoundTrip(s, i, l);
    case String(t) => StringValueRoundTrip(s, i, t);
    case Array(es) => ArrayRoundTrip(s, i, es);
    case Object(ms) => ObjectRoundTrip(s, i, ms);
  }

  lemma KeywordRoundTrip(s: string, i: nat, v: JsonValue)
    requires v.Null? || v.Bool?
    requires StartsWith(s, i, Print(v))
    ensures ValueAt(s, i) == Done(v, i + |Print(v)|)
  {
    var p := Print(v);
    StartsWithFirst(s, i, p);
    assert SkipWs(s, i) == i;
    KeywordValue(s, i, i);
    if v == Bool(false) {
      assert !StartsWith(s, i, "true") by {
        assert s[i + 1] == p[1] == 'a';
      }
    }
  }

  lemma NumberValueRoundTrip(s: string, i: nat, l: string)
    requires IsNumberLexeme(l) && StartsWith(s, i, l)
    requires i + |l| == |s| || !IsNumberChar(s[i + |l|])
    ensures ValueAt(s, i) == Done(Number(l), i + |l|)
  {
    StartsWithFirst(s, i, l);
    assert SkipWs(s, i) == i;
    NumberValue(s, i, i);
    NumberRoundTrip(s, i, l);
  }

  lemma StringValueRoundTrip(s: string, i: nat, t: string)
    requires StartsWith(s, i, Quote(t))
    ensures ValueAt(s, i) == Done(String(t), i + |Quote(t)|)
  {
    StartsWithRegroup(s, i, "\"", Escaped(t), "\"");
    StartsWithFirst(s, i, "\"");
    assert SkipWs(s, i) == i;
    StringValue(s, i, i);
    StringRoundTrip(s, i + 1, [], t);
    assert [] + t == t;
  }

  lemma {:induction false} ArrayRoundTrip(s: string, i: nat, es: seq<JsonValue>)
    requires AllPrintable(es) && StartsWith(s, i, "[" + PrintElems(es) + "]")
    ensures ValueAt(s, i) == Done(Array(es), i + |PrintElems(es)| + 2)
    decreases es, 3
  {
    StartsWithRegroup(s, i, "[", PrintElems(es), "]");
    StartsWithFirst(s, i, "[");
    assert SkipWs(s, i) == i;
    ArrayValue(s, i, i);
    ElemsRoundTrip(s, i + 1, [], es);
    assert [] + es == es;
  }

  lemma {:induction false} ObjectRoundTrip(s: string, i: nat, ms: seq<(string, JsonValue)>)
    requires AllPrintableMembers(ms) && StartsWith(s, i, "{" + PrintMembers(ms) + "}")
    ensures ValueAt(s, i) == Done(Object(ms), i + |PrintMembers(ms)| + 2)
    decreases ms, 3
  {
    StartsWithRegroup(s, i, "{", PrintMembers(ms), "}");
    StartsWithFirst(s, i, "{");
    assert SkipWs(s, i) == i;
    ObjectValue(s, i, i);
    MembersRoundTrip(s, i + 1, [], ms);
    assert [] + ms == ms;
  }

  /** A member whose key, colon and value follow each other directly. */
  lemma MemberStep(s: string, i: nat, key: string, k: nat, v: JsonValue, m: nat)
    requires i <= |s| && StringAt(s, i) == Done(String(key), k)
    requires k < |s| && s[k] == ':' && SkipWs(s, k + 1) == k + 1 && ValueAt(s, k + 1) == Done(v, m)
    ensures MemberAt(s, i) == Done((key, v), m)
  {
    assert SkipWs(s, k) == k;
    assert StartsWith(s, k, ":");
  }

  /** The separator is read where it stands when no whitespace precedes it. */
  lemma SeparatorStep(s: string, m: nat, close: char)
    requires close == ']' || close == '}'
    requires m < |s| && (s[m] == ',' || s[m] == close)
    ensures SeparatorAt(s, m, close) == Done(s[m] == ',', m + 1)
  {
    assert SkipWs(s, m) == m;
  }

  /** A printed value starts at `i` with a character that is neither
      whitespace nor a closing bracket. */
  lemma ValueStart(s: string, i: nat, v: JsonValue)
    requires Printable(v) && StartsWith(s, i, Print(v))
    ensures i < |s| && SkipWs(s, i) == i && s[i] != ']' && s[i] != '}'
  {
    PrintFirstChar(v);
    StartsWithFirst(s, i, Print(v));
  }

  /** A printed member starts at `i` with its opening quote. */
  lemma MemberStart(s: string, i: nat, m: (string, JsonValue))
    requires StartsWith(s, i, PrintMember(m))
    ensures i < |s| && SkipWs(s, i) == i && s[i] != '}'
  {
    assert PrintMember(m)[0] == '"';
    StartsWithFirst(s, i, PrintMember(m));
  }

  /** A quoted key is read back by `parse_string`. */
  lemma KeyRoundTrip(s: string, i: nat, key: string)
    requires StartsWith(s, i, Quote(key))
    ensures StringAt(s, i) == Done(String(key), i + |Quote(key)|)
  {
    StartsWithRegroup(s, i, "\"", Escaped(key), "\"");
    StartsWithFirst(s, i, "\"");
    StringRoundTrip(s, i + 1, [], key);
    assert [] + key == key;
  }

  /** Where the first printed element, its separator and the rest stand. */
  lemma ElemsCons(s: string, i: nat, es: seq<JsonValue>)
    requires |es| > 0 && AllPrintable(es) && StartsWith(s, i, PrintElems(es) + "]")
    ensures Printable(es[0]) && AllPrintable(es[1..]) && StartsWith(s, i, Print(es[0]))
    ensures var m := i + |Print(es[0])|;
      m < |s| && s[m] == (if |es| == 1 then ']' else ',')
      && (|es| > 1 ==> StartsWith(s, m + 1, PrintElems(es[1..]) + "]"))
    ensures |PrintElems(es)| == |Print(es[0])| + if |es| == 1 then 0 else 1 + |PrintElems(es[1..])|
  {
    var p := Print(es[0]);
    if |es| == 1 {
      StartsWithConcat(s, i, p, "]");
      StartsWithFirst(s, i + |p|, "]");
    } else {
      StartsWithSplit(s, i, p, ",", PrintElems(es[1..]), "]");
      StartsWithFirst(s, i + |p|, ",");
    }
  }

  /** Where the first printed member, its separator and the rest stand. */
  lemma MembersCons(s: string, i: nat, ms: seq<(string, JsonValue)>)
    requires |ms| > 0 && AllPrintableMembers(ms) && StartsWith(s, i, PrintMembers(ms) + "}")
    ensures Printable(ms[0].1) && AllPrintableMembers(ms[1..]) && StartsWith(s, i, PrintMember(ms[0]))
    ensures var e := i + |PrintMember(ms[0])|;
      e < |s| && s[e] == (if |ms| == 1 then '}' else ',')
      && (|ms| > 1 ==> StartsWith(s, e + 1, PrintMembers(ms[1..]) + "}"))
    ensures |PrintMembers(ms)| == |PrintMember(ms[0])| + if |ms| == 1 then 0 else 1 + |PrintMembers(ms[1..])|
  {
    var p := PrintMember(ms[0]);
    if |ms| == 1 {
      StartsWithConcat(s, i, p, "}");
      StartsWithFirst(s, i + |p|, "}");
    } else {
      StartsWithSplit(s, i, p, ",", PrintMembers(ms[1..]), "}");
      StartsWithFirst(s, i + |p|, ",");
    }
  }

  /** Where the key, the colon and the value of a printed member stand. */
  lemma MemberCons(s: string, i: nat, m: (string, JsonValue))
    requires Printable(m.1) && StartsWith(s, i, PrintMember(m))
    ensures var k := i + |Quote(m.0)|;
      StartsWith(s, i, Quote(m.0)) && k + 1 < |s| && s[k] == ':'
      && StartsWith(s, k + 1, Print(m.1)) && SkipWs(s, k + 1) == k + 1
      && |PrintMember(m)| == |Quote(m.0)| + 1 + |Print(m.1)|
  {
    var k := i + |Quote(m.0)|;
    StartsWithRegroup(s, i, Quote(m.0), ":", Print(m.1));
    StartsWithConcat(s, k, ":", Print(m.1));
    StartsWithFirst(s, k, ":");
    ValueStart(s, k + 1, m.1);
  }

  /** One iteration of the loop of `parse_array` over a printed element. */
  lemma {:induction false} ElemStep(s: string, i: nat, acc: seq<JsonValue>, es: seq<JsonValue>, m: nat)
    requires |es| > 0 && AllPrintable(es) && StartsWith(s, i, PrintElems(es) + "]")
    requires m == i + |Print(es[0])|
    ensures |es| == 1 ==> ArrayRest(s, i, acc) == Done(Array(acc + [es[0]]), m + 1)
    ensures |es| > 1 ==> ArrayRest(s, i, acc) == ArrayRest(s, m + 1, acc + [es[0]])
    decreases es, 0
  {
    var v := es[0];
    var more := |es| > 1;
    assert ArrayRest(s, i, acc) == if more then ArrayRest(s, m + 1, acc + [v]) else Done(Array(acc + [v]), m + 1) by {
      assert Printable(v) && StartsWith(s, i, Print(v)) && m < |s| && s[m] == (if more then ',' else ']') by {
        ElemsCons(s, i, es);
      }
      assert ValueAt(s, i) == Done(v, m) by {
        ValueRoundTrip(s, i, v);
      }
      assert i < |s| && SkipWs(s, i) == i && s[i] != ']' by {
        ValueStart(s, i, v);
      }
      assert SeparatorAt(s, m, ']') == Done(more, m + 1) by {
        SeparatorStep(s, m, ']');
      }
      ArrayIteration(s, i, acc, v, m, more, m + 1);
    }
  }

  /** Printed elements and the closing bracket, read by the loop of
      `parse_array`, extend the elements read so far. */
  lemma {:induction false} ElemsRoundTrip(s: string, i: nat, acc: seq<JsonValue>, es: seq<JsonValue>)
    requires AllPrintable(es) && StartsWith(s, i, PrintElems(es) + "]")
    ensures ArrayRest(s, i, acc) == Done(Array(acc + es), i + |PrintElems(es)| + 1)
    decreases es, 2
  {
    if es == [] {
      StartsWithFirst(s, i, PrintElems(es) + "]");
      ArrayClosed(s, i, acc, i);
      assert acc + es == acc;
    } else if |es| == 1 {
      ElemsLast(s, i, acc, es);
    } else {
      ElemsMore(s, i, acc, es, i + |Print(es[0])|, es[1..]);
      AppendFirst(acc, es);
    }
  }

  lemma {:induction false} ElemsLast(s: string, i: nat, acc: seq<JsonValue>, es: seq<JsonValue>)
    requires |es| == 1 && AllPrintable(es) && StartsWith(s, i, PrintElems(es) + "]")
    ensures ArrayRest(s, i, acc) == Done(Array(acc + es), i + |PrintElems(es)| + 1)
    decreases es, 1
  {
    ElemStep(s, i, acc, es, i + |Print(es[0])|);
    AppendFirst(acc, es);
  }

  lemma {:induction false} ElemsMore(s: string, i: nat, acc: seq<JsonValue>, es: seq<JsonValue>,
                                     m: nat, rest: seq<JsonValue>)
    requires |es| > 1 && AllPrintable(es) && StartsWith(s, i, PrintElems(es) + "]")
    requires m == i + |Print(es[0])| && rest == es[1..]
    ensures ArrayRest(s, i, acc) == Done(Array(acc + [es[0]] + rest), i + |PrintElems(es)| + 1)
    decreases es, 1
  {
    var next := acc + [es[0]];
    var n := m + 1 + |PrintElems(rest)| + 1;
    assert AllPrintable(rest) && StartsWith(s, m + 1, PrintElems(rest) + "]")
      && n == i + |PrintElems(es)| + 1 by {
      ElemsCons(s, i, es);
    }
    assert ArrayRest(s, m + 1, next) == Done(Array(next + rest), n) by {
      ElemsRoundTrip(s, m + 1, next, rest);
    }
    assert ArrayRest(s, i, acc) == ArrayRest(s, m + 1, next) by {
      ElemStep(s, i, acc, es, m);
    }
  }

  /** One iteration of the loop of `parse_object` over a printed member. */
  lemma {:induction false} MemberIteration(s: string, i: nat, acc: seq<(string, JsonValue)>,
                                           ms: seq<(string, JsonValue)>, e: nat)
    requires |ms| > 0 && AllPrintableMembers(ms) && StartsWith(s, i, PrintMembers(ms) + "}")
    requires e == i + |PrintMember(ms[0])|
    ensures |ms| == 1 ==> ObjectRest(s, i, acc) == Done(Object(acc + [ms[0]]), e + 1)
    ensures |ms| > 1 ==> ObjectRest(s, i, acc) == ObjectRest(s, e + 1, acc + [ms[0]])
    decreases ms, 0
  {
    var m := ms[0];
    var more := |ms| > 1;
    assert ObjectRest(s, i, acc) == if more then ObjectRest(s, e + 1, acc + [m]) else Done(Object(acc + [m]), e + 1) by {
      assert m in ms;
      assert Printable(m.1) && StartsWith(s, i, PrintMember(m)) && e < |s| && s[e] == (if more then ',' else '}') by {
        MembersCons(s, i, ms);
      }
      assert MemberAt(s, i) == Done(m, e) by {
        MemberRoundTrip(s, i, m);
      }
      assert i < |s| && SkipWs(s, i) == i && s[i] != '}' by {
        MemberStart(s, i, m);
      }
      assert SeparatorAt(s, e, '}') == Done(more, e + 1) by {
        SeparatorStep(s, e, '}');
      }
      ObjectIteration(s, i, acc, m, e, more, e + 1);
    }
  }

  /** Printed members and the closing brace, read by the loop of
      `parse_object`, extend the members read so far. */
  lemma {:induction false} MembersRoundTrip(s: string, i: nat, acc: seq<(string, JsonValue)>,
                                            ms: seq<(string, JsonValue)>)
    requires AllPrintableMembers(ms) && StartsWith(s, i, PrintMembers(ms) + "}")
    ensures ObjectRest(s, i, acc) == Done(Object(acc + ms), i + |PrintMembers(ms)| + 1)
    decreases ms, 2
  {
    if ms == [] {
      StartsWithFirst(s, i, PrintMembers(ms) + "}");
      ObjectClosed(s, i, acc, i);
      assert acc + ms == acc;
    } else if |ms| == 1 {
      MembersLast(s, i, acc, ms);
    } else {
      MembersMore(s, i, acc, ms, i + |PrintMember(ms[0])|, ms[1..]);
      AppendFirst(acc, ms);
    }
  }

  lemma {:induction false} MembersLast(s: string, i: nat, acc: seq<(string, JsonValue)>,
                                       ms: seq<(string, JsonValue)>)
    requires |ms| == 1 && AllPrintableMembers(ms) && StartsWith(s, i, PrintMembers(ms) + "}")
    ensures ObjectRest(s, i, acc) == Done(Object(acc + ms), i + |PrintMembers(ms)| + 1)
    decreases ms, 1
  {
    MemberIteration(s, i, acc, ms, i + |PrintMember(ms[0])|);
    AppendFirst(acc, ms);
  }

  lemma {:induction false} MembersMore(s: string, i: nat, acc: seq<(string, JsonValue)>,
                                       ms: seq<(string, JsonValue)>, e: nat, rest: seq<(string, JsonValue)>)
    requires |ms| > 1 && AllPrintableMembers(ms) && StartsWith(s, i, PrintMembers(ms) + "}")
    requires e == i + |PrintMember(ms[0])| && rest == ms[1..]
    ensures ObjectRest(s, i, acc) == Done(Object(acc + [ms[0]] + rest), i + |PrintMembers(ms)| + 1)
    decreases ms, 1
  {
    var next := acc + [ms[0]];
    var n := e + 1 + |PrintMembers(rest)| + 1;
    assert AllPrintableMembers(rest) && StartsWith(s, e + 1, PrintMembers(rest) + "}")
      && n == i + |PrintMembers(ms)| + 1 by {
      MembersCons(s, i, ms);
    }
    assert ObjectRest(s, e + 1, next) == Done(Object(next + rest), n) by {
      MembersRoundTrip(s, e + 1, next, rest);
    }
    assert ObjectRest(s, i, acc) == ObjectRest(s, e + 1, next) by {
      MemberIteration(s, i, acc, ms, e);
    }
  }

  /** A printed member followed by a comma or a closing brace is read back
      as itself. */
  lemma {:induction false} MemberRoundTrip(s: string, i: nat, m: (string, JsonValue))
    requires Printable(m.1) && StartsWith(s, i, PrintMember(m))
    requires i + |PrintMember(m)| == |s| || !IsNumberChar(s[i + |PrintMember(m)|])
    ensures MemberAt(s, i) == Done(m, i + |PrintMember(m)|)
    decreases m, 1
  {
    var k := i + |Quote(m.0)|;
    var e := k + 1 + |Print(m.1)|;
    assert StartsWith(s, i, Quote(m.0)) && k + 1 < |s| && s[k] == ':' && SkipWs(s, k + 1) == k + 1
      && StartsWith(s, k + 1, Print(m.1)) && e == i + |PrintMember(m)| by {
      MemberCons(s, i, m);
    }
    assert StringAt(s, i) == Done(String(m.0), k) by {
      KeyRoundTrip(s, i, m.0);
    }
    MemberValue(s, k + 1, m, e);
    MemberStep(s, i, m.0, k, m.1, e);
  }

  /** The value of a printed member is read back where it stands. */
  lemma {:induction false} MemberValue(s: string, j: nat, m: (string, JsonValue), e: nat)
    requires Printable(m.1) && StartsWith(s, j, Print(m.1)) && e == j + |Print(m.1)|
    requires e == |s| || !IsNumberChar(s[e])
    ensures ValueAt(s, j) == Done(m.1, e)
    decreases m, 0
  {
    ValueRoundTrip(s, j, m.1);
  }
}
