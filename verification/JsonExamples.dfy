/**
 The configuration language pinned down by character codes and by texts: white space,
 escapes, numbers and their bound, repeated keys, and texts that are refused.
 */
module JsonExamples {
  import opened JsonGrammar
  import opened JsonPrinting

  // ----- characters -----

  lemma SpaceCodes(c: char)
    ensures IsSpace(c) <==> c as int == 32 || c as int == 9 || c as int == 10 || c as int == 13
    ensures IsDigit(c) <==> 48 <= c as int <= 57
  {
  }

  /** The eight escapes that are read: letter and character, by code. */
  lemma EscapeCodes(e: char)
    ensures match Unescape(e)
            case Some(c) => (e as int, c as int)
                            in {(34, 34), (92, 92), (47, 47), (98, 8), (102, 12), (110, 10), (114, 13), (116, 9)}
            case None => e as int !in {34, 92, 47, 98, 102, 110, 114, 116}
  {
  }

  /** The five that are written; every other character stands for itself. */
  lemma WrittenCodes(c: char)
    ensures Escaped([c]) == (
              if c as int == 92 then ['\\', '\\'] else if c as int == 34 then ['\\', '"']
              else if c as int == 10 then ['\\', 'n'] else if c as int == 13 then ['\\', 'r']
              else if c as int == 9 then ['\\', 't'] else [c])
  {
    assert [c][1..] == [];
    assert Escaped([]) == [];
  }

  // ----- numbers -----

  /** Any run of digits is a number, leading zeros included, if it fits into 64 bits. */
  lemma {:induction false} NumberIsRead(digits: string)
    requires Digits(digits) && digits != []
    ensures Parse(digits)
         == if DecimalValue(digits) <= 18446744073709551615 then Some(Number(DecimalValue(digits))) else None
  {
    assert IsDigit(digits[0]);
    CompleteDigits(digits, []);
    assert digits + [] == digits && digits[..|digits|] == digits && digits[|digits|..] == [];
    assert SkipSpace(digits) == digits;
    assert ReadValue(digits) == ReadNumber(digits);
  }

  /** Digits count in tens. */
  lemma {:induction false} ValueOfDigits(digits: string, d: char)
    requires Digits(digits) && IsDigit(d)
    ensures DecimalValue([]) == 0
    ensures DecimalValue(digits + [d]) == 10 * DecimalValue(digits) + (d as int - 48)
  {
    assert (digits + [d])[..|digits|] == digits;
  }

  // ----- texts that are accepted -----

  /** The three words, and the empty object. */
  lemma {:induction false} WordsAreRead()
    ensures Parse("true") == Some(Bool(true)) && Parse("false") == Some(Bool(false)) && Parse("null") == Some(Null)
    ensures Parse("{}") == Some(Object(map[]))
  {
    ParseIsComplete(Document("", TBool(true), ""));
    ParseIsComplete(Document("", TBool(false), ""));
    ParseIsComplete(Document("", TNull, ""));
    ParseIsComplete(Document("", TEmpty(""), ""));
    assert Text(Document("", TBool(true), "")) == "true" && Text(Document("", TBool(false), "")) == "false";
    assert Text(Document("", TNull, "")) == "null" && Text(Document("", TEmpty(""), "")) == "{}";
  }

  lemma KeyText(k: string)
    ensures PutString([Raw('a')], k) == "\"a\"" + k
  {
    OneKey();
  }

  lemma MemberText(b: string, a: string, v: string, digits: string, w: string, k: string)
    ensures PutMember(Member(b, [Raw('a')], a, v, TNumber(digits), w), k)
         == b + ("\"a\"" + (a + (":" + (v + (digits + (w + k))))))
  {
    KeyText(a + ([':'] + (v + (digits + (w + k)))));
  }

  /** Line ends of either kind and tabs may stand between any two tokens. */
  lemma {:induction false} SpacedText()
    ensures Parse("\r\n{\t\"a\"\r:\t1\r\n}\n") == Some(Object(map["a" := Number(1)]))
  {
    var m := Member("\t", [Raw('a')], "\r", "\t", TNumber("1"), "\r\n");
    OneKey();
    MemberText("\t", "\r", "\t", "1", "\r\n", "}\n");
    OneMember("\r\n", m, "\n", "}\n");
    assert "\r\n" + (['{'] + PutMember(m, "}\n")) == "\r\n{\t\"a\"\r:\t1\r\n}\n";
  }

  /** An object with one member, and what is around it. */
  lemma {:induction false} OneMember(before: string, m: Member, after: string, end: string)
    requires Spaces(before) && Spaces(after) && WellFormedMember(m) && end == ['}'] + after
    ensures Parse(before + (['{'] + PutMember(m, end))) == Some(Object(map[ItemsValue(m.key) := Meaning(m.value)]))
  {
    var d := Document(before, TObject(Last(m)), after);
    ParseIsComplete(d);
    assert PutMembers(Last(m), end) == PutMember(m, end);
    assert Put(d.tree, after) == ['{'] + PutMember(m, end);
  }

  lemma OneKey()
    ensures WellFormedItems([Raw('a')]) && ItemsValue([Raw('a')]) == "a"
    ensures Digits("1") && DecimalValue("1") == 1 && Digits("2") && DecimalValue("2") == 2
    ensures forall k :: PutItems([Raw('a')], k) == ['a'] + k
  {
    assert [Raw('a')][1..] == [];
    assert "1"[..0] == [] && "2"[..0] == [];
  }

  /** Of equal keys the last one counts. */
  lemma {:induction false} RepeatedKey()
    ensures Parse("{\"a\":1,\"a\":2}") == Some(Object(map["a" := Number(2)]))
  {
    var first := Member("", [Raw('a')], "", "", TNumber("1"), "");
    var second := Member("", [Raw('a')], "", "", TNumber("2"), "");
    var d := Document("", TObject(More(first, Last(second))), "");
    OneKey();
    MemberText("", "", "", "2", "", "}");
    MemberText("", "", "", "1", "", ",\"a\":2}");
    assert ['}'] + "" == "}";
    var end := PutMember(second, "}");
    assert [','] + end == ",\"a\":2}";
    assert Put(d.tree, "") == ['{'] + PutMember(first, [','] + end);
    assert Text(d) == "{\"a\":1,\"a\":2}";
    ParseIsComplete(d);
    assert MembersMeaning(Last(second), map["a" := Number(1)]) == map["a" := Number(2)];
  }

  // ----- texts that are refused -----

  lemma NoValue(s: string)
    requires SkipSpace(s) == s && (s == [] || s[0] == '[' || s[0] == '-' || s[0] == '+' || s[0] == '.')
    ensures ReadValue(s) == Fail && Parse(s) == None
  {
    if s != [] {
      assert !("true" <= s) && !("false" <= s) && !("null" <= s);
      assert DigitRun(s) == 0;
    }
  }

  /** The empty text, arrays and signs are refused, whatever follows. */
  lemma {:induction false} NoArraysNoSigns(rest: string)
    ensures Parse("") == None
    ensures Parse("[" + rest) == None && Parse("-" + rest) == None && Parse("+" + rest) == None
  {
    NoValue("");
    NoValue("[" + rest);
    NoValue("-" + rest);
    NoValue("+" + rest);
  }

  /** Neither may anything but space follow a number: no fractions, no exponents. */
  lemma {:induction false} NothingAfterNumbers(digits: string, c: char, rest: string)
    requires Digits(digits) && digits != [] && !IsDigit(c) && !IsSpace(c)
    ensures Parse(digits + ([c] + rest)) == None
  {
    var s := digits + ([c] + rest);
    CompleteDigits(digits, [c] + rest);
    assert s[0] == digits[0] && SkipSpace(s) == s && ReadValue(s) == ReadNumber(s);
    assert s[|digits|..] == [c] + rest;
  }

  /** A string with any other escape is refused, `\u` among them. */
  lemma {:induction false} OtherEscapes(e: char, rest: string)
    requires Unescape(e) == None
    ensures Parse(['"', '\\', e] + rest) == None
  {
    var s := ['"', '\\', e] + rest;
    assert s[1..][0] == '\\' && s[1..][1] == e;
    assert ReadString(s) == Fail;
  }

  /** A comma must be followed by another key. */
  lemma {:induction false} NoTrailingComma()
    ensures Parse("{\"a\":1,}") == None
  {
    var m := Member("", [Raw('a')], "", "", TNumber("1"), "");
    OneKey();
    MemberText("", "", "", "1", "", ",}");
    CommaThenBrace(m, "{\"a\":1,}");
  }

  lemma {:induction false} CommaThenBrace(m: Member, s: string)
    requires WellFormedMember(m) && s == ['{'] + PutMember(m, [',', '}'])
    ensures Parse(s) == None
  {
    var t, k := PutMember(m, [',', '}']), [',', '}'];
    CompleteMember(m, k);
    ReadMembersSkips(t, map[]);
    PutMembersStarts(Last(m), k);
    assert s[1..] == t && k[1..] == ['}'] && SkipSpace(['}']) == ['}'];
    assert ReadMembers(['}'], map[ItemsValue(m.key) := Meaning(m.value)]) == Fail;
    assert ReadMembers(t, map[]) == Fail;
    assert ReadObject(t) == Fail && ReadValue(s) == Fail;
  }
}
