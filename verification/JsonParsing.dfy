/**
 The recursive-descent parser of the configuration file: one cursor that every method
 moves forward.  Each method reads exactly what `JsonGrammar` says is there.
 */
module JsonParsing {
  import opened JsonGrammar

  class JsonParser {
    const input: string
    var pos: nat

    ghost predicate Valid()
      reads this
    {
      pos <= |input|
    }

    /** The text that has not been read yet. */
    ghost function Rest(): string
      requires Valid()
      reads this
    {
      input[pos..]
    }

    constructor (input: string)
      ensures this.input == input && Valid() && Rest() == input
    {
      this.input := input;
      pos := 0;
    }

    /** Accepts exactly the texts of the grammar, with their meaning. */
    method Parse() returns (ok: bool, out: Json)
      requires Valid() && pos == 0
      modifies this
      ensures ok <==> exists d :: WellFormedDocument(d) && Text(d) == input
      ensures ok ==> forall d | WellFormedDocument(d) && Text(d) == input :: out == Meaning(d.tree)
      ensures JsonGrammar.Parse(input) == if ok then Some(out) else None
    {
      ParseDecidesTheGrammar(input);
      forall d | WellFormedDocument(d) && Text(d) == input ensures JsonGrammar.Parse(input) == Some(Meaning(d.tree)) {
        ParseIsComplete(d);
      }
      assert Rest() == input;
      SkipWs();
      ok, out := ParseValue();
      if !ok { return; }
      SkipWs();
      ok := pos == |input|;
    }

    method SkipWs()
      requires Valid()
      modifies this
      ensures Valid() && pos >= old(pos) && Rest() == SkipSpace(old(Rest()))
    {
      while pos < |input|
        invariant Valid() && pos >= old(pos)
        invariant SkipSpace(Rest()) == SkipSpace(old(Rest()))
      {
        var ch := input[pos];
        if ch == ' ' || ch == '\n' || ch == '\r' || ch == '\t' {
          assert Rest()[1..] == input[pos + 1..];
          pos := pos + 1;
          continue;
        }
        break;
      }
    }

    method ParseValue() returns (ok: bool, out: Json)
      requires Valid()
      modifies this
      ensures Valid() && pos >= old(pos)
      ensures ReadValue(old(Rest())) == if ok then Read(out, Rest()) else Fail
      decreases |input| - pos, 5
    {
      out := Null;
      SkipWs();
      if pos >= |input| { return false, out; }
      ghost var t := Rest();
      var ch := input[pos];
      if ch == '{' {
        ok, out := ParseObject();
      } else if ch == '"' {
        var s;
        ok, s := ParseString();
        out := String(s);
      } else if ch == 't' || ch == 'f' {
        var b;
        ok, b := ParseBool();
        out := Bool(b);
        assert DigitRun(t) == 0;
      } else if ch == 'n' {
        ok := ParseNull();
        assert DigitRun(t) == 0;
      } else if '0' <= ch <= '9' {
        var n;
        ok, n := ParseNumber();
        out := Number(n);
      } else {
        assert DigitRun(t) == 0;
        ok := false;
      }
    }

    method ParseObject() returns (ok: bool, out: Json)
      requires Valid()
      modifies this
      ensures Valid() && pos >= old(pos)
      ensures (if old(Rest()) != [] && old(Rest())[0] == '{' then ReadObject(old(Rest())[1..]) else Fail)
              == if ok then Read(out, Rest()) else Fail
      decreases |input| - pos, 4
    {
      out := Null;
      if pos >= |input| || input[pos] != '{' { return false, out; }
      assert Rest()[1..] == input[pos + 1..];
      pos := pos + 1;
      SkipWs();
      if pos < |input| && input[pos] == '}' {
        assert Rest()[1..] == input[pos + 1..];
        pos := pos + 1;
        return true, Object(map[]);
      }
      ok, out := ParseMembers();
    }

    /** The member loop. */
    method ParseMembers() returns (ok: bool, out: Json)
      requires Valid()
      modifies this
      ensures Valid() && pos >= old(pos)
      ensures ReadMembers(old(Rest()), map[]) == if ok then Read(out, Rest()) else Fail
      decreases |input| - pos, 3
    {
      out := Null;
      var fields: map<string, Json> := map[];
      ghost var whole := ReadMembers(Rest(), map[]);
      while pos < |input|
        invariant Valid() && pos >= old(pos)
        invariant whole == ReadMembers(Rest(), fields)
        decreases |input| - pos
      {
        ghost var before, had := Rest(), fields;
        var key, value;
        ok, key, value := ParseMember();
        MembersStep(before, had);
        if !ok { return; }
        fields := fields[key := value];
        if pos >= |input| { return false, out; }
        var ch := input[pos];
        assert ch == Rest()[0] && input[pos + 1..] == Rest()[1..];
        if ch != '}' && ch != ',' { return false, out; }
        pos := pos + 1;
        if ch == '}' { return true, Object(fields); }
      }
      return false, out;
    }

    /** One turn of the member loop, up to the delimiter. */
    method ParseMember() returns (ok: bool, key: string, value: Json)
      requires Valid()
      modifies this
      ensures Valid() && pos >= old(pos) && (ok ==> pos > old(pos))
      ensures ReadMember(old(Rest())) == if ok then Read((key, value), Rest()) else Fail
      decreases |input| - pos, 2
    {
      value := Null;
      ok, key := ParseKey();
      if !ok { return; }
      ok, value := ParseValue();
      if !ok { return; }
      SkipWs();
    }

    method ParseKey() returns (ok: bool, key: string)
      requires Valid()
      modifies this
      ensures Valid() && pos >= old(pos) && (ok ==> pos > old(pos))
      ensures ReadKey(old(Rest())) == if ok then Read(key, Rest()) else Fail
    {
      SkipWs();
      ok, key := ParseString();
      if !ok { return; }
      SkipWs();
      if pos >= |input| || input[pos] != ':' { return false, key; }
      assert Rest()[1..] == input[pos + 1..];
      pos := pos + 1;
    }

    /** The letter after a backslash. */
    method ParseEscape() returns (ok: bool, c: char)
      requires Valid()
      modifies this
      ensures Valid() && old(pos) <= pos
      ensures ok <==> old(pos) < |input| && Unescape(input[old(pos)]).Some?
      ensures ok ==> pos == old(pos) + 1 && Unescape(input[old(pos)]) == Some(c)
    {
      c := ' ';
      if pos >= |input| { return false, c; }
      var decoded := Unescape(input[pos]);
      pos := pos + 1;
      if decoded.None? { return false, c; }
      return true, decoded.value;
    }

    /** The characters after the opening quotation mark. */
    method ParseChars() returns (ok: bool, out: string)
      requires Valid()
      modifies this
      ensures Valid() && pos >= old(pos)
      ensures ReadChars(old(Rest())) == if ok then Read(out, Rest()) else Fail
    {
      out := "";
      ghost var whole := ReadChars(Rest());
      PrependNothing(whole);
      while pos < |input|
        invariant Valid() && pos >= old(pos)
        invariant whole == Prepend(out, ReadChars(Rest()))
      {
        CharsStep(out, input, pos);
        var ch := input[pos];
        pos := pos + 1;
        if ch == '"' { return true, out; }
        if ch == '\\' {
          ok, ch := ParseEscape();
          if !ok { return false, out; }
        }
        out := out + [ch];
      }
      return false, out;
    }

    method ParseString() returns (ok: bool, out: string)
      requires Valid()
      modifies this
      ensures Valid() && pos >= old(pos) && (ok ==> pos > old(pos))
      ensures ReadString(old(Rest())) == if ok then Read(out, Rest()) else Fail
    {
      if pos >= |input| || input[pos] != '"' { return false, ""; }
      assert Rest()[1..] == input[pos + 1..];
      pos := pos + 1;
      ok, out := ParseChars();
    }

    method ParseNumber() returns (ok: bool, out: nat)
      requires Valid()
      modifies this
      ensures Valid() && pos >= old(pos)
      ensures ReadNumber(old(Rest())) == if ok then Read(Number(out), Rest()) else Fail
    {
      out := 0;
      if pos >= |input| || input[pos] < '0' || input[pos] > '9' { return false, out; }
      var start := pos;
      while pos < |input| && '0' <= input[pos] <= '9'
        invariant Valid() && pos >= start
        invariant DigitRun(old(Rest())) == pos - start + DigitRun(Rest())
      {
        assert Rest()[1..] == input[pos + 1..];
        pos := pos + 1;
      }
      assert DigitRun(Rest()) == 0;
      assert old(Rest())[..pos - start] == input[start..pos];
      var value := DecimalValue(input[start..pos]);
      if value > MAX_NUMBER { return false, out; }
      return true, value;
    }

    /** `compare(pos, n, word) == 0` */
    predicate Matches(word: string)
      requires Valid()
      reads this
      ensures Matches(word) <==> word <= Rest()
    {
      pos + |word| <= |input| && input[pos..pos + |word|] == word
    }

    method ParseBool() returns (ok: bool, out: bool)
      requires Valid()
      modifies this
      ensures Valid() && pos >= old(pos)
      ensures ok <==> "true" <= old(Rest()) || "false" <= old(Rest())
      ensures ok ==> out == ("true" <= old(Rest())) && Rest() == old(Rest())[if out then 4 else 5..]
    {
      if Matches("true") {
        pos := pos + 4;
        return true, true;
      }
      if Matches("false") {
        pos := pos + 5;
        return true, false;
      }
      return false, false;
    }

    method ParseNull() returns (ok: bool)
      requires Valid()
      modifies this
      ensures Valid() && pos >= old(pos)
      ensures ok <==> "null" <= old(Rest())
      ensures ok ==> Rest() == old(Rest())[4..]
    {
      ok := Matches("null");
      if ok { pos := pos + 4; }
    }
  }

  ghost function Prepend(s: string, r: Reading<string>): Reading<string> {
    if r.Fail? then Fail else Read(s + r.value, r.rest)
  }

  lemma PrependNothing(r: Reading<string>)
    ensures Prepend([], r) == r
  {
    if r.Read? { assert [] + r.value == r.value; }
  }

  lemma PrependMore(s: string, c: char, r: Reading<string>)
    ensures Prepend(s, Prepend([c], r)) == Prepend(s + [c], r)
  {
    if r.Read? { assert s + ([c] + r.value) == s + [c] + r.value; }
  }

  /** One turn of the member loop, by what follows the member. */
  lemma MembersStep(s: string, fields: map<string, Json>)
    ensures ReadMember(s).Fail? ==> ReadMembers(s, fields) == Fail
    ensures ReadMember(s).Read? ==>
              var ((key, value), t) := (ReadMember(s).value, ReadMember(s).rest);
              ReadMembers(s, fields) ==
                if t == [] then Fail
                else if t[0] == '}' then Read(Object(fields[key := value]), t[1..])
                else if t[0] == ',' then ReadMembers(t[1..], fields[key := value])
                else Fail
  {
  }

  /** One character of a string, or one escape, after `out` has been read. */
  lemma CharsStep(out: string, input: string, pos: nat)
    requires pos < |input|
    ensures Prepend(out, ReadChars(input[pos..])) ==
              if input[pos] == '"' then Read(out, input[pos + 1..])
              else if input[pos] != '\\' then Prepend(out + [input[pos]], ReadChars(input[pos + 1..]))
              else if pos + 1 == |input| || Unescape(input[pos + 1]).None? then Fail
              else Prepend(out + [Unescape(input[pos + 1]).value], ReadChars(input[pos + 2..]))
  {
    var here := input[pos..];
    assert here[1..] == input[pos + 1..] && out + [] == out;
    if input[pos] == '\\' {
      if pos + 1 < |input| && Unescape(input[pos + 1]).Some? {
        assert here[1] == input[pos + 1] && here[2..] == input[pos + 2..];
        PrependMore(out, Unescape(input[pos + 1]).value, ReadChars(input[pos + 2..]));
      }
    } else {
      PrependMore(out, input[pos], ReadChars(input[pos + 1..]));
    }
  }
}
