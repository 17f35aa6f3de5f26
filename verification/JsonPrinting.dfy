/**
 Printing: `json_escape`, decimal numbers, and the rendering of a value as a text with
 any white space between the tokens.  Parsing a rendering gives the value back.
 */
module JsonPrinting {
  import opened JsonGrammar
  import JsonParsing

  // ----- strings -----

  /** How one character is written: the five escapes of `json_escape`, or itself. */
  function EscapeItem(c: char): Item {
    match c
    case '\\' => Escape('\\')
    case '"' => Escape('"')
    case '\n' => Escape('n')
    case '\r' => Escape('r')
    case '\t' => Escape('t')
    case _ => Raw(c)
  }

  function EscapeItems(s: string): (items: seq<Item>)
    ensures |items| == |s|
  {
    if s == [] then [] else [EscapeItem(s[0])] + EscapeItems(s[1..])
  }

  function ItemText(i: Item): string { if i.Raw? then [i.c] else ['\\', i.e] }

  function Escaped(s: string): string {
    if s == [] then [] else ItemText(EscapeItem(s[0])) + Escaped(s[1..])
  }

  lemma {:induction false} PutOne(i: Item, items: seq<Item>, k: string)
    ensures PutItems([i] + items, k) == ItemText(i) + PutItems(items, k)
  {
    assert ([i] + items)[0] == i && ([i] + items)[1..] == items;
  }

  /** The text of the items of an escaped string is the escaped string. */
  lemma {:induction false} PutEscaped(s: string, k: string)
    ensures PutItems(EscapeItems(s), k) == Escaped(s) + k
  {
    if s == [] {
      assert Escaped(s) + k == k;
    } else {
      var i := EscapeItem(s[0]);
      PutEscaped(s[1..], k);
      PutOne(i, EscapeItems(s[1..]), k);
      assert (ItemText(i) + Escaped(s[1..])) + k == ItemText(i) + (Escaped(s[1..]) + k);
    }
  }

  lemma {:induction false} EscapeMeaning(s: string)
    ensures WellFormedItems(EscapeItems(s)) && ItemsValue(EscapeItems(s)) == s
  {
    if s != [] {
      EscapeMeaning(s[1..]);
      var items := EscapeItems(s);
      assert items[1..] == EscapeItems(s[1..]);
      assert items == [items[0]] + items[1..];
    }
  }

  /** `json_escape`: one pass that appends to a buffer. */
  method JsonEscape(input: string) returns (out: string)
    ensures out == Escaped(input)
    ensures forall k :: ReadString(['"'] + (out + (['"'] + k))) == Read(input, k)
  {
    out := [];
    for i := 0 to |input|
      invariant out + Escaped(input[i..]) == Escaped(input)
    {
      ghost var before := out;
      var ch := input[i];
      match ch {
        case '\\' => out := out + "\\\\";
        case '"' => out := out + "\\\"";
        case '\n' => out := out + "\\n";
        case '\r' => out := out + "\\r";
        case '\t' => out := out + "\\t";
        case _ => out := out + [ch];
      }
      assert out == before + ItemText(EscapeItem(ch));
      EscapedStep(before, input, i);
    }
    assert out + [] == out;
    forall k ensures ReadString(['"'] + (out + (['"'] + k))) == Read(input, k) {
      ParseStringInvertsEscape(input, k);
    }
  }

  lemma {:induction false} EscapedStep(before: string, input: string, i: nat)
    requires i < |input|
    ensures before + Escaped(input[i..]) == (before + ItemText(EscapeItem(input[i]))) + Escaped(input[i + 1..])
  {
    assert input[i..][0] == input[i] && input[i..][1..] == input[i + 1..];
  }

  /** Reading a quoted escaped string gives the string, whatever bytes it holds. */
  lemma {:induction false} ParseStringInvertsEscape(s: string, k: string)
    ensures ReadString(['"'] + (Escaped(s) + (['"'] + k))) == Read(s, k)
  {
    EscapeMeaning(s);
    CompleteString(EscapeItems(s), k);
    PutEscaped(s, ['"'] + k);
  }

  /** So no two strings have the same escape. */
  lemma {:induction false} EscapeIsInjective(s: string, t: string)
    requires Escaped(s) == Escaped(t)
    ensures s == t
  {
    ParseStringInvertsEscape(s, []);
    ParseStringInvertsEscape(t, []);
  }

  // ----- numbers -----

  function DigitOf(d: nat): (c: char)
    requires d < 10
    ensures IsDigit(c) && c as nat - '0' as nat == d
  {
    (d + '0' as nat) as char
  }

  function Decimal(n: nat): (s: string)
    ensures s != [] && Digits(s)
  {
    if n < 10 then [DigitOf(n)] else Decimal(n / 10) + [DigitOf(n % 10)]
  }

  /** No digit in front that could be left out. */
  lemma {:induction false} DecimalIsPlain(n: nat)
    ensures |Decimal(n)| > 1 ==> Decimal(n)[0] != '0'
  {
    if n >= 10 { DecimalIsPlain(n / 10); }
  }

  lemma {:induction false} DecimalRoundTrip(n: nat)
    ensures DecimalValue(Decimal(n)) == n
  {
    var s := Decimal(n);
    if n < 10 {
      assert s[..0] == [];
    } else {
      DecimalRoundTrip(n / 10);
      assert s[..|s| - 1] == Decimal(n / 10);
    }
  }

  // ----- values -----

  /** Every number in the value fits in 64 bits. */
  ghost predicate InRange(v: Json) {
    match v
    case Number(n) => n <= MAX_NUMBER
    case Object(f) => forall k | k in f :: InRange(f[k])
    case _ => true
  }

  /** `t` is a rendering of `v`: strings written by `json_escape`, numbers in decimal, each
      key of an object once, in any order, with any space between the tokens. */
  ghost predicate Renders(t: Tree, v: Json)
    decreases t
  {
    match t
    case TNull => v == Null
    case TBool(b) => v == Bool(b)
    case TNumber(d) => v.Number? && v.n <= MAX_NUMBER && d == Decimal(v.n)
    case TString(items) => v.String? && items == EscapeItems(v.s)
    case TEmpty(space) => Spaces(space) && v == Object(map[])
    case TObject(ms) => v.Object? && RendersMembers(ms, v.fields)
  }

  ghost predicate RendersMembers(ms: Members, fields: map<string, Json>)
    decreases ms
  {
    var m := ms.m;
    && Spaces(m.beforeKey) && Spaces(m.afterKey) && Spaces(m.beforeValue) && Spaces(m.afterValue)
    && exists k ::
         && k in fields && m.key == EscapeItems(k) && Renders(m.value, fields[k])
         && (if ms.Last? then fields.Keys == {k} else RendersMembers(ms.rest, fields - {k}))
  }

  lemma {:induction false} RenderingMeans(t: Tree, v: Json)
    requires Renders(t, v)
    ensures WellFormed(t) && Meaning(t) == v
    decreases t
  {
    match t
    case TNumber(d) => DecimalRoundTrip(v.n);
    case TString(items) => EscapeMeaning(v.s);
    case TObject(ms) =>
      RenderingMembersMean(ms, v.fields, map[]);
      assert map[] + v.fields == v.fields;
    case _ =>
  }

  lemma {:induction false} RenderingMembersMean(ms: Members, fields: map<string, Json>, had: map<string, Json>)
    requires RendersMembers(ms, fields)
    ensures WellFormedMembers(ms) && MembersMeaning(ms, had) == had + fields
    decreases ms
  {
    var m := ms.m;
    var k :| k in fields && m.key == EscapeItems(k) && Renders(m.value, fields[k])
             && (if ms.Last? then fields.Keys == {k} else RendersMembers(ms.rest, fields - {k}));
    EscapeMeaning(k);
    RenderingMeans(m.value, fields[k]);
    assert WellFormedMember(m);
    MoveKey(fields, k, had);
    if ms.More? { RenderingMembersMean(ms.rest, fields - {k}, had[k := fields[k]]); }
  }

  lemma MoveKey(fields: map<string, Json>, k: string, had: map<string, Json>)
    requires k in fields
    ensures had[k := fields[k]] + (fields - {k}) == had + fields
    ensures fields.Keys == {k} ==> had[k := fields[k]] == had + fields
  {
  }

  /** Every value in range has a rendering. */
  lemma {:induction false} RenderingExists(v: Json) returns (t: Tree)
    requires InRange(v)
    ensures Renders(t, v)
    decreases v, 1
  {
    match v
    case Null => t := TNull;
    case Bool(b) => t := TBool(b);
    case Number(n) => t := TNumber(Decimal(n));
    case String(s) => t := TString(EscapeItems(s));
    case Object(f) =>
      if f == map[] {
        t := TEmpty([]);
      } else {
        var ms := RenderingMembersExist(v, f);
        t := TObject(ms);
      }
  }

  lemma {:induction false} RenderingMembersExist(v: Json, f: map<string, Json>) returns (ms: Members)
    requires v.Object? && InRange(v) && f != map[]
    requires forall k | k in f :: k in v.fields && f[k] == v.fields[k]
    ensures RendersMembers(ms, f)
    decreases v, 0, |f|
  {
    var k :| k in f;
    assert v.fields[k] < v;
    var t := RenderingExists(f[k]);
    var m := Member([], EscapeItems(k), [], [], t, []);
    var f' := f - {k};
    if f' == map[] {
      ms := Last(m);
      assert f'.Keys == f.Keys - {k};
    } else {
      assert f'.Keys < f.Keys;
      assert |f'| < |f| by { SmallerMap(f, k); }
      var rest := RenderingMembersExist(v, f');
      ms := More(m, rest);
    }
  }

  lemma SmallerMap(f: map<string, Json>, k: string)
    requires k in f
    ensures |f - {k}| < |f|
  {
    assert (f - {k}).Keys == f.Keys - {k};
    assert |(f - {k}).Keys| == |f - {k}| && |f.Keys| == |f|;
  }

  /** Printing and parsing: every rendering, with any space around it, parses to the value. */
  lemma {:induction false} PrintParseRoundTrip(v: Json, d: Document)
    requires Renders(d.tree, v) && Spaces(d.before) && Spaces(d.after)
    ensures Parse(Text(d)) == Some(v)
  {
    RenderingMeans(d.tree, v);
    ParseIsComplete(d);
  }

  /** The same on the parser itself. */
  method ParseRendering(v: Json, d: Document) returns (ok: bool, out: Json)
    requires Renders(d.tree, v) && Spaces(d.before) && Spaces(d.after)
    ensures ok && out == v
  {
    PrintParseRoundTrip(v, d);
    var parser := new JsonParsing.JsonParser(Text(d));
    ok, out := parser.Parse();
  }
}
