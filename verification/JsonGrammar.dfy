/**
 The configuration language: values, a declarative grammar with its meaning, and the
 reading of a text from left to right.

 The grammar is the subset of RFC 8259 without arrays, signs, fractions, exponents and
 `\u` escapes.  It admits leading zeros and raw control characters, bounds numbers by
 2^64 - 1, and lets the last of several equal keys win.  A tree's text is given together
 with what follows it, so no reassociation of concatenations is ever needed.
 */
module JsonGrammar {

  datatype Json =
    | Null
    | Bool(b: bool)
    | Number(n: nat)
    | String(s: string)
    | Object(fields: map<string, Json>)

  const MAX_NUMBER: nat := 0xFFFF_FFFF_FFFF_FFFF

  // ----- characters -----

  predicate IsSpace(c: char) { c == ' ' || c == '\n' || c == '\r' || c == '\t' }

  predicate IsDigit(c: char) { '0' <= c <= '9' }

  datatype Option<T> = None | Some(value: T)

  /** The character an escape letter stands for. */
  function Unescape(e: char): Option<char> {
    match e
    case '"' => Some('"')
    case '\\' => Some('\\')
    case '/' => Some('/')
    case 'b' => Some('\U{8}')
    case 'f' => Some('\U{C}')
    case 'n' => Some('\n')
    case 'r' => Some('\r')
    case 't' => Some('\t')
    case _ => None
  }

  predicate Digits(s: string) { forall i | 0 <= i < |s| :: IsDigit(s[i]) }

  function DecimalValue(digits: string): nat
    requires Digits(digits)
  {
    if digits == [] then 0
    else
      var last := digits[|digits| - 1];
      10 * DecimalValue(digits[..|digits| - 1]) + (last as nat - '0' as nat)
  }

  // ----- the grammar -----

  datatype Item = Raw(c: char) | Escape(e: char)

  datatype Tree =
    | TNull
    | TBool(b: bool)
    | TNumber(digits: string)
    | TString(items: seq<Item>)
    | TEmpty(space: string)
    | TObject(members: Members)

  datatype Members = Last(m: Member) | More(m: Member, rest: Members)

  datatype Member =
    Member(beforeKey: string, key: seq<Item>, afterKey: string, beforeValue: string, value: Tree, afterValue: string)

  predicate Spaces(s: string) { forall c | c in s :: IsSpace(c) }

  predicate WellFormedItems(items: seq<Item>) {
    forall i | i in items :: if i.Raw? then i.c != '"' && i.c != '\\' else Unescape(i.e).Some?
  }

  predicate WellFormed(t: Tree) {
    match t
    case TNumber(d) => d != [] && Digits(d) && DecimalValue(d) <= MAX_NUMBER
    case TString(items) => WellFormedItems(items)
    case TEmpty(space) => Spaces(space)
    case TObject(ms) => WellFormedMembers(ms)
    case _ => true
  }

  predicate WellFormedMembers(ms: Members) {
    && WellFormedMember(ms.m)
    && (ms.More? ==> WellFormedMembers(ms.rest))
  }

  predicate WellFormedMember(m: Member) {
    && Spaces(m.beforeKey) && Spaces(m.afterKey) && Spaces(m.beforeValue) && Spaces(m.afterValue)
    && WellFormedItems(m.key) && WellFormed(m.value)
  }

  /** The text of string items, followed by `k`. */
  function PutItems(items: seq<Item>, k: string): string {
    if items == [] then k
    else match items[0]
      case Raw(c) => [c] + PutItems(items[1..], k)
      case Escape(e) => ['\\', e] + PutItems(items[1..], k)
  }

  function PutString(items: seq<Item>, k: string): string { ['"'] + PutItems(items, ['"'] + k) }

  /** The text of a tree, followed by `k`. */
  function Put(t: Tree, k: string): string {
    match t
    case TNull => "null" + k
    case TBool(b) => (if b then "true" else "false") + k
    case TNumber(d) => d + k
    case TString(items) => PutString(items, k)
    case TEmpty(space) => ['{'] + (space + (['}'] + k))
    case TObject(ms) => ['{'] + PutMembers(ms, ['}'] + k)
  }

  function PutMembers(ms: Members, k: string): string {
    match ms
    case Last(m) => PutMember(m, k)
    case More(m, rest) => PutMember(m, [','] + PutMembers(rest, k))
  }

  function PutMember(m: Member, k: string): string {
    m.beforeKey + PutString(m.key, m.afterKey + ([':'] + (m.beforeValue + Put(m.value, m.afterValue + k))))
  }

  function ItemsValue(items: seq<Item>): string
    requires WellFormedItems(items)
  {
    if items == [] then []
    else [if items[0].Raw? then items[0].c else Unescape(items[0].e).value] + ItemsValue(items[1..])
  }

  function Meaning(t: Tree): Json
    requires WellFormed(t)
  {
    match t
    case TNull => Null
    case TBool(b) => Bool(b)
    case TNumber(d) => Number(DecimalValue(d))
    case TString(items) => String(ItemsValue(items))
    case TEmpty(_) => Object(map[])
    case TObject(ms) => Object(MembersMeaning(ms, map[]))
  }

  /** Later members overwrite earlier ones with the same key. */
  function MembersMeaning(ms: Members, fields: map<string, Json>): map<string, Json>
    requires WellFormedMembers(ms)
  {
    assert WellFormedMember(ms.m);
    var fields' := fields[ItemsValue(ms.m.key) := Meaning(ms.m.value)];
    if ms.Last? then fields' else MembersMeaning(ms.rest, fields')
  }

  datatype Document = Document(before: string, tree: Tree, after: string)

  predicate WellFormedDocument(d: Document) { Spaces(d.before) && WellFormed(d.tree) && Spaces(d.after) }

  function Text(d: Document): string { d.before + Put(d.tree, d.after) }

  // ----- reading from left to right -----

  /** A reading of a prefix: what was read and the text that remains. */
  datatype Reading<T> = Fail | Read(value: T, rest: string)

  function SkipSpace(s: string): (r: string)
    ensures |r| <= |s|
    ensures r == [] || !IsSpace(r[0])
  {
    if s != [] && IsSpace(s[0]) then SkipSpace(s[1..]) else s
  }

  function ReadChars(s: string): (r: Reading<string>)
    ensures r.Read? ==> |r.rest| < |s|
  {
    if s == [] then Fail
    else if s[0] == '"' then Read([], s[1..])
    else if s[0] == '\\' then
      if |s| < 2 || Unescape(s[1]).None? then Fail
      else match ReadChars(s[2..])
        case Fail => Fail
        case Read(v, rest) => Read([Unescape(s[1]).value] + v, rest)
    else match ReadChars(s[1..])
      case Fail => Fail
      case Read(v, rest) => Read([s[0]] + v, rest)
  }

  function ReadString(s: string): (r: Reading<string>)
    ensures r.Read? ==> |r.rest| < |s|
  {
    if s == [] || s[0] != '"' then Fail else ReadChars(s[1..])
  }

  /** The length of the longest run of digits at the front. */
  function DigitRun(s: string): (n: nat)
    ensures n <= |s|
    ensures Digits(s[..n])
    ensures n < |s| ==> !IsDigit(s[n])
  {
    if s != [] && IsDigit(s[0]) then
      var n := DigitRun(s[1..]) + 1;
      assert s[..n] == [s[0]] + s[1..][..n - 1];
      n
    else 0
  }

  function ReadNumber(s: string): (r: Reading<Json>)
    ensures r.Read? ==> |r.rest| < |s|
  {
    var n := DigitRun(s);
    if n == 0 || DecimalValue(s[..n]) > MAX_NUMBER then Fail else Read(Number(DecimalValue(s[..n])), s[n..])
  }

  function ReadValue(s: string): (r: Reading<Json>)
    ensures r.Read? ==> |r.rest| < |s|
    decreases |s|, 3
  {
    var t := SkipSpace(s);
    if t == [] then Fail
    else if t[0] == '{' then ReadObject(t[1..])
    else if t[0] == '"' then
      match ReadString(t)
      case Fail => Fail
      case Read(v, rest) => Read(String(v), rest)
    else if "true" <= t then Read(Bool(true), t[4..])
    else if "false" <= t then Read(Bool(false), t[5..])
    else if "null" <= t then Read(Null, t[4..])
    else ReadNumber(t)
  }

  /** What follows the opening brace. */
  function ReadObject(s: string): (r: Reading<Json>)
    ensures r.Read? ==> |r.rest| < |s|
    decreases |s|, 2
  {
    var t := SkipSpace(s);
    if t != [] && t[0] == '}' then Read(Object(map[]), t[1..]) else ReadMembers(t, map[])
  }

  /** A key and the colon after it, with the space around them. */
  function ReadKey(s: string): (r: Reading<string>)
    ensures r.Read? ==> |r.rest| < |s|
  {
    match ReadString(SkipSpace(s))
    case Fail => Fail
    case Read(key, rest) =>
      var t := SkipSpace(rest);
      if t == [] || t[0] != ':' then Fail else Read(key, t[1..])
  }

  /** A key, a colon, a value, and the space around them. */
  function ReadMember(s: string): (r: Reading<(string, Json)>)
    ensures r.Read? ==> |r.rest| < |s|
    decreases |s|, 0
  {
    match ReadKey(s)
    case Fail => Fail
    case Read(key, t) =>
      match ReadValue(t)
      case Fail => Fail
      case Read(value, rest) => Read((key, value), SkipSpace(rest))
  }

  function ReadMembers(s: string, fields: map<string, Json>): (r: Reading<Json>)
    ensures r.Read? ==> |r.rest| < |s|
    decreases |s|, 1
  {
    match ReadMember(s)
    case Fail => Fail
    case Read((key, value), t) =>
      var fields' := fields[key := value];
      if t == [] then Fail
      else if t[0] == '}' then Read(Object(fields'), t[1..])
      else if t[0] == ',' then ReadMembers(t[1..], fields')
      else Fail
  }

  function Parse(s: string): Option<Json> {
    match ReadValue(SkipSpace(s))
    case Fail => None
    case Read(v, rest) => if SkipSpace(rest) == [] then Some(v) else None
  }

  // ----- completeness: every derivable text is read, with its meaning -----

  predicate NoDigitFirst(k: string) { k == [] || !IsDigit(k[0]) }

  lemma NoDigitAfterSpace(space: string, k: string)
    requires Spaces(space) && NoDigitFirst(k)
    ensures NoDigitFirst(space + k)
  {
    if space != [] { assert space[0] in space; }
  }

  lemma {:induction false} SkipSpaces(space: string, k: string)
    requires Spaces(space)
    ensures SkipSpace(space + k) == SkipSpace(k)
  {
    if space == [] {
      assert space + k == k;
    } else {
      assert (space + k)[0] == space[0] && (space + k)[1..] == space[1..] + k;
      SkipSpaces(space[1..], k);
    }
  }

  lemma {:induction false} CompleteItems(items: seq<Item>, k: string)
    requires WellFormedItems(items)
    ensures ReadChars(PutItems(items, ['"'] + k)) == Read(ItemsValue(items), k)
  {
    var s := PutItems(items, ['"'] + k);
    if items == [] {
      assert s[0] == '"' && s[1..] == k;
    } else {
      CompleteItems(items[1..], k);
      var s' := PutItems(items[1..], ['"'] + k);
      match items[0]
      case Raw(c) => assert s[0] == c && s[1..] == s';
      case Escape(e) => assert s[0] == '\\' && s[1] == e && s[2..] == s';
    }
  }

  lemma {:induction false} CompleteString(items: seq<Item>, k: string)
    requires WellFormedItems(items)
    ensures ReadString(PutString(items, k)) == Read(ItemsValue(items), k)
  {
    CompleteItems(items, k);
    assert PutString(items, k)[1..] == PutItems(items, ['"'] + k);
  }

  lemma {:induction false} CompleteDigits(d: string, k: string)
    requires Digits(d) && NoDigitFirst(k)
    ensures DigitRun(d + k) == |d|
  {
    if d == [] {
      assert d + k == k;
    } else {
      assert (d + k)[0] == d[0] && (d + k)[1..] == d[1..] + k;
      CompleteDigits(d[1..], k);
    }
  }

  /** A tree's text never starts with white space, so reading it starts where it starts. */
  lemma {:induction false} PutStarts(t: Tree, k: string)
    requires WellFormed(t)
    ensures Put(t, k) != [] && SkipSpace(Put(t, k)) == Put(t, k)
  {
  }

  /** The values without parts: `null`, `true`, `false` and numbers. */
  lemma {:induction false} CompleteLiteral(t: Tree, k: string)
    requires WellFormed(t) && NoDigitFirst(k) && (t.TNull? || t.TBool? || t.TNumber?)
    ensures ReadValue(Put(t, k)) == Read(Meaning(t), k)
  {
    var s := Put(t, k);
    PutStarts(t, k);
    match t
    case TNull =>
      assert s[4..] == k && "null" <= s && s[0] == 'n';
    case TBool(b) =>
      if b { assert s[4..] == k && "true" <= s; } else { assert s[5..] == k && "false" <= s && s[0] == 'f'; }
    case TNumber(d) =>
      CompleteDigits(d, k);
      assert s[0] == d[0] && s[..|d|] == d && s[|d|..] == k;
  }

  lemma {:induction false} CompleteValue(t: Tree, k: string)
    requires WellFormed(t) && NoDigitFirst(k)
    ensures ReadValue(Put(t, k)) == Read(Meaning(t), k)
    decreases t
  {
    var s := Put(t, k);
    PutStarts(t, k);
    match t
    case TString(items) =>
      CompleteString(items, k);
    case TEmpty(space) =>
      assert s[1..] == space + (['}'] + k);
      SkipSpaces(space, ['}'] + k);
      assert (['}'] + k)[1..] == k;
    case TObject(ms) =>
      assert s[1..] == PutMembers(ms, ['}'] + k);
      CompleteMembers(ms, map[], k);
      ReadMembersSkips(PutMembers(ms, ['}'] + k), map[]);
      PutMembersStarts(ms, ['}'] + k);
    case _ =>
      CompleteLiteral(t, k);
  }

  /** Space before the first key makes no difference. */
  lemma {:induction false} ReadMembersSkips(s: string, fields: map<string, Json>)
    ensures ReadMembers(SkipSpace(s), fields) == ReadMembers(s, fields)
  {
    assert SkipSpace(SkipSpace(s)) == SkipSpace(s);
  }

  lemma {:induction false} PutMembersStarts(ms: Members, k: string)
    requires WellFormedMembers(ms)
    ensures SkipSpace(PutMembers(ms, k)) != [] && SkipSpace(PutMembers(ms, k))[0] == '"'
  {
    var m := ms.m;
    var after := if ms.Last? then k else [','] + PutMembers(ms.rest, k);
    SkipSpaces(m.beforeKey, PutString(m.key, m.afterKey + ([':'] + (m.beforeValue + Put(m.value, m.afterValue + after)))));
  }

  lemma {:induction false} CompleteMembers(ms: Members, fields: map<string, Json>, k: string)
    requires WellFormedMembers(ms)
    ensures ReadMembers(PutMembers(ms, ['}'] + k), fields) == Read(Object(MembersMeaning(ms, fields)), k)
    decreases ms
  {
    var m := ms.m;
    var after := if ms.Last? then ['}'] + k else [','] + PutMembers(ms.rest, ['}'] + k);
    CompleteMember(m, after);
    if ms.More? {
      assert after[1..] == PutMembers(ms.rest, ['}'] + k);
      CompleteMembers(ms.rest, fields[ItemsValue(m.key) := Meaning(m.value)], k);
    } else {
      assert after[1..] == k;
    }
  }

  /** One member, up to the delimiter after it. */
  lemma {:induction false} CompleteMember(m: Member, after: string)
    requires WellFormedMember(m) && after != [] && (after[0] == '}' || after[0] == ',')
    ensures ReadMember(PutMember(m, after)) == Read((ItemsValue(m.key), Meaning(m.value)), after)
    decreases m
  {
    CompleteKey(m, m.beforeValue + Put(m.value, m.afterValue + after));
    CompleteMemberValue(m, after);
  }

  lemma {:induction false} CompleteKey(m: Member, k: string)
    requires WellFormedMember(m)
    ensures ReadKey(m.beforeKey + PutString(m.key, m.afterKey + ([':'] + k))) == Read(ItemsValue(m.key), k)
  {
    var colon := [':'] + k;
    var s := PutString(m.key, m.afterKey + colon);
    SkipSpaces(m.beforeKey, s);
    assert SkipSpace(s) == s;
    CompleteString(m.key, m.afterKey + colon);
    SkipSpaces(m.afterKey, colon);
    assert SkipSpace(colon) == colon && colon[1..] == k;
  }

  lemma {:induction false} CompleteMemberValue(m: Member, after: string)
    requires WellFormedMember(m) && after != [] && (after[0] == '}' || after[0] == ',')
    ensures var v := ReadValue(m.beforeValue + Put(m.value, m.afterValue + after));
            v.Read? && v.value == Meaning(m.value) && SkipSpace(v.rest) == after
    decreases m, 0
  {
    var k := m.afterValue + after;
    var s := Put(m.value, k);
    SkipSpaces(m.beforeValue, s);
    PutStarts(m.value, k);
    NoDigitAfterSpace(m.afterValue, after);
    CompleteValue(m.value, k);
    ReadValueSkips(m.beforeValue + s, s);
    SkipSpaces(m.afterValue, after);
  }

  /** Reading a value only depends on the text after the leading space. */
  lemma {:induction false} ReadValueSkips(s: string, t: string)
    requires SkipSpace(s) == SkipSpace(t)
    ensures ReadValue(s) == ReadValue(t)
  {
  }

  /** Every well-formed document is accepted, with its meaning. */
  lemma {:induction false} ParseIsComplete(d: Document)
    requires WellFormedDocument(d)
    ensures Parse(Text(d)) == Some(Meaning(d.tree))
  {
    SkipSpaces(d.before, Put(d.tree, d.after));
    PutStarts(d.tree, d.after);
    NoDigitAfterSpace(d.after, []);
    assert d.after + [] == d.after;
    CompleteValue(d.tree, d.after);
    SkipSpaces(d.after, []);
  }

  // ----- soundness: every text that is read is derivable, with the value returned -----

  lemma {:induction false} SoundSpace(s: string) returns (space: string)
    ensures Spaces(space) && s == space + SkipSpace(s)
  {
    if s != [] && IsSpace(s[0]) {
      var rest := SoundSpace(s[1..]);
      space := [s[0]] + rest;
    } else {
      space := [];
    }
  }

  lemma {:induction false} SoundChars(s: string) returns (items: seq<Item>)
    requires ReadChars(s).Read?
    ensures WellFormedItems(items) && ItemsValue(items) == ReadChars(s).value
    ensures s == PutItems(items, ['"'] + ReadChars(s).rest)
  {
    if s[0] == '"' {
      items := [];
    } else if s[0] == '\\' {
      var tail := SoundChars(s[2..]);
      items := [Escape(s[1])] + tail;
      assert items[1..] == tail;
    } else {
      var tail := SoundChars(s[1..]);
      items := [Raw(s[0])] + tail;
      assert items[1..] == tail;
    }
  }

  lemma {:induction false} SoundString(s: string) returns (items: seq<Item>)
    requires ReadString(s).Read?
    ensures WellFormedItems(items) && ItemsValue(items) == ReadString(s).value
    ensures s == PutString(items, ReadString(s).rest)
  {
    items := SoundChars(s[1..]);
  }

  lemma WordSplits(w: string, s: string)
    requires w <= s
    ensures s == w + s[|w|..]
  {
  }

  lemma {:induction false} SoundNumber(s: string) returns (t: Tree)
    requires ReadNumber(s).Read?
    ensures WellFormed(t) && Meaning(t) == ReadNumber(s).value && s == Put(t, ReadNumber(s).rest)
  {
    var d := s[..DigitRun(s)];
    t := TNumber(d);
    assert s == d + s[DigitRun(s)..];
  }

  lemma {:induction false} SoundLiteral(s: string) returns (t: Tree)
    requires SkipSpace(s) == s && ReadValue(s).Read? && s[0] != '{' && s[0] != '"'
    ensures WellFormed(t) && Meaning(t) == ReadValue(s).value && s == Put(t, ReadValue(s).rest)
  {
    if "true" <= s {
      t := TBool(true);
      WordSplits("true", s);
    } else if "false" <= s {
      t := TBool(false);
      WordSplits("false", s);
    } else if "null" <= s {
      t := TNull;
      WordSplits("null", s);
    } else {
      t := SoundNumber(s);
    }
  }

  lemma {:induction false} SoundValue(s: string) returns (space: string, t: Tree)
    requires ReadValue(s).Read?
    ensures Spaces(space) && WellFormed(t) && Meaning(t) == ReadValue(s).value
    ensures s == space + Put(t, ReadValue(s).rest)
    decreases |s|, 1
  {
    space := SoundSpace(s);
    var u := SkipSpace(s);
    ReadValueSkips(s, u);
    if u[0] == '{' {
      t := SoundObject(u[1..]);
      assert u == ['{'] + u[1..];
    } else if u[0] == '"' {
      var items := SoundString(u);
      t := TString(items);
    } else {
      t := SoundLiteral(u);
    }
  }

  lemma Reassemble(a: string, c: char, space: string, s: string, rest: string)
    requires s == space + ([c] + rest)
    ensures a + s == a + (space + ([c] + rest))
  {
  }

  lemma {:induction false} SoundObject(s: string) returns (t: Tree)
    requires ReadObject(s).Read?
    ensures WellFormed(t) && Meaning(t) == ReadObject(s).value
    ensures ['{'] + s == Put(t, ReadObject(s).rest)
    decreases |s|, 2
  {
    var u := SkipSpace(s);
    if u != [] && u[0] == '}' {
      var space := SoundSpace(s);
      t := TEmpty(space);
      WordSplits(['}'], u);
      Reassemble(['{'], '}', space, s, u[1..]);
    } else {
      ReadMembersSkips(s, map[]);
      var ms := SoundMembers(s, map[]);
      t := TObject(ms);
    }
  }

  lemma {:induction false} SoundKey(s: string) returns (before: string, items: seq<Item>, after: string)
    requires ReadKey(s).Read?
    ensures Spaces(before) && WellFormedItems(items) && Spaces(after) && ItemsValue(items) == ReadKey(s).value
    ensures s == before + PutString(items, after + ([':'] + ReadKey(s).rest))
  {
    var rest := ReadString(SkipSpace(s)).rest;
    before := SoundSpace(s);
    items := SoundString(SkipSpace(s));
    after := SoundSpace(rest);
    WordSplits([':'], SkipSpace(rest));
  }

  lemma {:induction false} SoundMember(s: string) returns (m: Member)
    requires ReadMember(s).Read?
    ensures WellFormedMember(m) && ReadMember(s).value == (ItemsValue(m.key), Meaning(m.value))
    ensures s == PutMember(m, ReadMember(s).rest)
    decreases |s|, 0
  {
    var beforeKey, items, afterKey := SoundKey(s);
    var s2 := ReadKey(s).rest;
    var beforeValue, t := SoundValue(s2);
    var afterValue := SoundSpace(ReadValue(s2).rest);
    m := Member(beforeKey, items, afterKey, beforeValue, t, afterValue);
    assert ReadValue(s2).rest == afterValue + ReadMember(s).rest;
  }

  lemma {:induction false} SoundMembers(s: string, fields: map<string, Json>) returns (ms: Members)
    requires ReadMembers(s, fields).Read?
    ensures WellFormedMembers(ms)
    ensures ReadMembers(s, fields).value == Object(MembersMeaning(ms, fields))
    ensures s == PutMembers(ms, ['}'] + ReadMembers(s, fields).rest)
    decreases |s|, 1
  {
    var m := SoundMember(s);
    var (key, value) := ReadMember(s).value;
    var after := ReadMember(s).rest;
    if after[0] == '}' {
      ms := Last(m);
      assert after == ['}'] + after[1..];
    } else {
      var rest := SoundMembers(after[1..], fields[key := value]);
      ms := More(m, rest);
      assert after == [','] + after[1..];
    }
  }

  /** Every accepted text is the text of a well-formed document with the value returned. */
  lemma {:induction false} ParseIsSound(s: string) returns (d: Document)
    requires Parse(s).Some?
    ensures WellFormedDocument(d) && Text(d) == s && Parse(s) == Some(Meaning(d.tree))
  {
    var before := SoundSpace(s);
    var space, t := SoundValue(SkipSpace(s));
    var rest := ReadValue(SkipSpace(s)).rest;
    var after := SoundSpace(rest);
    assert SkipSpace(rest) == [];
    assert after == rest;
    d := Document(before + space, t, after);
    assert SkipSpace(s) == space + Put(t, after);
    assert before + (space + Put(t, after)) == (before + space) + Put(t, after);
  }

  /** A text has a derivation exactly when it is accepted. */
  lemma {:induction false} ParseDecidesTheGrammar(s: string)
    ensures Parse(s).Some? <==> exists d :: WellFormedDocument(d) && Text(d) == s
  {
    if Parse(s).Some? { var d := ParseIsSound(s); }
    if d :| WellFormedDocument(d) && Text(d) == s { ParseIsComplete(d); }
  }

  /** The grammar is unambiguous: derivations of the same text have the same meaning. */
  lemma {:induction false} GrammarIsUnambiguous(d1: Document, d2: Document)
    requires WellFormedDocument(d1) && WellFormedDocument(d2) && Text(d1) == Text(d2)
    ensures Meaning(d1.tree) == Meaning(d2.tree)
  {
    ParseIsComplete(d1);
    ParseIsComplete(d2);
  }
}
