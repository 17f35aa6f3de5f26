/**
 The lines that client and pool write, and how each reads the lines of the other.
 Texts are built around the place where a pattern is to be found.
 */
module Messages {
  import opened JsonGrammar
  import opened JsonPrinting
  import opened Matchers

  // ----- requests -----

  datatype Method = Subscribe | Authorize | Submit

  function Name(m: Method): string {
    match m
    case Subscribe => "subscribe"
    case Authorize => "authorize"
    case Submit => "submit"
  }

  function Quoted(s: string): string { ['"'] + (Escaped(s) + ['"']) }

  /** The parameters: quoted, escaped and separated by commas. */
  function List(args: seq<string>): string
    requires args != []
  {
    Quoted(args[0]) + (if |args| == 1 then "]}" else [','] + List(args[1..]))
  }

  /** What the pool looks for to tell the methods apart. */
  function Mark(m: Method): string { "\"method\":\"mining." + (Name(m) + ['"']) }

  /** A quoted word and a colon, or a quoted text, and what follows. */
  function Key(word: string, rest: string): string { ['"'] + (word + (['"', ':'] + rest)) }

  function Plain(text: string, rest: string): string { ['"'] + (text + (['"'] + rest)) }

  function Head(id: nat): string { ['{'] + Key("id", Decimal(id) + [',']) }

  function Request(id: nat, m: Method, args: seq<string>): string
    requires args != []
  {
    Head(id) + (Mark(m) + (",\"params\":[" + List(args)))
  }

  // ----- answers -----

  const TRUE := "true"

  /** `[["mining.notify","deadbeef"],"abcdef01",4]` */
  const SUBSCRIPTION :=
    ['[', '['] + Plain("mining.notify", [','] + Plain("deadbeef", [']', ','] + Plain("abcdef01", ",4]")))

  /** `json_resp`: `{"id":N,"result":R,"error":E}` */
  function Response(id: nat, result: string, error: string): string {
    Head(id) + Key("result", result + ([','] + Key("error", error + ['}'])))
  }

  function JobId(k: nat): string { "job-" + Decimal(k) }

  function Prefix(k: nat): string { "offline-job-" + Decimal(k) }

  function Params(k: nat): string {
    Key("params", ['['] + Plain(JobId(k), [','] + Plain(Prefix(k), ",20,true]}")))
  }

  const NULL_HEAD := ['{'] + Key("id", "null,")

  /** `{"id":null,"method":"mining.notify","params":["job-K","offline-job-K",20,true]}` */
  function Notify(k: nat): string { NULL_HEAD + Key("method", Plain("mining.notify", [','] + Params(k))) }

  // ----- the texts in full -----

  lemma HeadIsWritten(id: nat, rest: string)
    ensures Head(id) + rest == "{\"id\":" + (Decimal(id) + ([','] + rest))
  {
    assert Head(id) == "{\"id\":" + (Decimal(id) + [',']);
  }

  /** The three marks, character by character. */
  lemma MarkIsWritten(m: Method)
    ensures Mark(m) == match m
              case Subscribe => "\"method\":\"mining.subscribe\""
              case Authorize => "\"method\":\"mining.authorize\""
              case Submit => "\"method\":\"mining.submit\""
  {
  }

  lemma QuotedIsWritten(s: string, rest: string)
    ensures Quoted(s) + rest == ['"'] + (Escaped(s) + (['"'] + rest))
    ensures ['"'] + ([','] + (['"'] + rest)) == "\",\"" + rest
    ensures ['"'] + "]}" == "\"]}"
  {
  }

  /** The lists of one, two and three parameters. */
  lemma {:induction false} ListIsWritten(a: string, b: string, c: string)
    ensures List([a]) == ['"'] + (Escaped(a) + "\"]}")
    ensures List([a, b]) == ['"'] + (Escaped(a) + ("\",\"" + (Escaped(b) + "\"]}")))
    ensures List([a, b, c]) == ['"'] + (Escaped(a) + ("\",\"" + (Escaped(b) + ("\",\"" + (Escaped(c) + "\"]}")))))
  {
    LastIsWritten(a);
    MoreIsWritten(a, b, []);
    LastIsWritten(b);
    MoreIsWritten(a, b, [c]);
    MoreIsWritten(b, c, []);
    LastIsWritten(c);
    assert [a, b] == [a, b] + [] && [a, b, c] == [a, b] + [c] && [b, c] == [b, c] + [];
    assert [b] == [b] + [] && [b, c] == [b] + [c] && [c] == [c] + [];
  }

  lemma LastIsWritten(a: string)
    ensures List([a]) == ['"'] + (Escaped(a) + "\"]}")
  {
    QuotedIsWritten(a, "]}");
  }

  lemma {:induction false} MoreIsWritten(a: string, b: string, more: seq<string>)
    ensures List([a, b] + more)[0] == '"' == List([b] + more)[0]
    ensures List([a, b] + more) == ['"'] + (Escaped(a) + ("\",\"" + List([b] + more)[1..]))
  {
    var rest := List([b] + more);
    assert ([a, b] + more)[1..] == [b] + more;
    assert rest == ['"'] + rest[1..];
    QuotedIsWritten(a, [','] + rest);
    QuotedIsWritten(a, rest[1..]);
  }

  lemma {:induction false} ResponseIsWritten(id: nat, result: string, error: string)
    ensures Response(id, result, error)
         == "{\"id\":" + (Decimal(id) + (",\"result\":" + (result + (",\"error\":" + (error + "}")))))
  {
    var end := Key("error", error + ['}']);
    HeadIsWritten(id, Key("result", result + ([','] + end)));
    assert [','] + Key("result", result + ([','] + end)) == ",\"result\":" + (result + ([','] + end));
    assert [','] + end == ",\"error\":" + (error + "}");
  }

  lemma SubscriptionIsWritten()
    ensures SUBSCRIPTION == "[[" + ("\"mining.notify\"" + (",\"deadbeef\"]" + ",\"abcdef01\",4]"))
  {
    assert ['"'] + ("mining.notify" + ['"']) == "\"mining.notify\"";
    assert [','] + (['"'] + ("deadbeef" + (['"'] + [']']))) == ",\"deadbeef\"]";
    assert [','] + Plain("abcdef01", ",4]") == ",\"abcdef01\",4]";
  }

  lemma JobIsWritten(k: nat, rest: string)
    ensures Plain(JobId(k), rest) == "\"job-" + (Decimal(k) + (['"'] + rest))
    ensures Plain(Prefix(k), rest) == "\"offline-job-" + (Decimal(k) + (['"'] + rest))
  {
  }

  /** An announcement, character by character. */
  lemma {:induction false} NotifyIsWritten(k: nat)
    ensures Notify(k) == "{\"id\":null," + ("\"method\":" + ("\"mining.notify\"," + ("\"params\":[" + (
              "\"job-" + (Decimal(k) + ("\"," + ("\"offline-job-" + (Decimal(k) + "\",20,true]}"))))))))
  {
    var end := Plain(Prefix(k), ",20,true]}");
    JobIsWritten(k, ",20,true]}");
    assert ['"'] + ",20,true]}" == "\",20,true]}";
    JobIsWritten(k, [','] + end);
    assert ['"'] + ([','] + end) == "\"," + end;
    NotifyFront(Params(k));
    assert Params(k) == "\"params\":[" + Plain(JobId(k), [','] + end);
  }

  lemma NotifyFront(params: string)
    ensures NULL_HEAD + Key("method", Plain("mining.notify", [','] + params))
         == "{\"id\":null," + ("\"method\":" + ("\"mining.notify\"," + params))
  {
    assert NULL_HEAD == "{\"id\":null,";
    var notify := Plain("mining.notify", [','] + params);
    assert notify == "\"mining.notify\"," + params;
    assert Key("method", notify) == "\"method\":" + notify;
  }

  /** A request, up to its parameters. */
  lemma {:induction false} RequestIsWritten(id: nat, m: Method, args: seq<string>)
    requires args != []
    ensures Request(id, m, args) == "{\"id\":" + (Decimal(id) + ([','] + (Mark(m) + (",\"params\":[" + List(args)))))
  {
    HeadIsWritten(id, Mark(m) + (",\"params\":[" + List(args)));
  }

  // ----- one line -----

  predicate OneLine(s: string) { forall i | 0 <= i < |s| :: s[i] != '\n' && s[i] != '\r' }

  /** Escaping leaves no line break, and puts a backslash before every quotation mark. */
  lemma {:induction false} EscapedIsSafe(s: string)
    ensures OneLine(Escaped(s))
    ensures forall i | 0 <= i < |Escaped(s)| && Escaped(s)[i] == '"' :: 0 < i && Escaped(s)[i - 1] == '\\'
  {
    if s != [] {
      EscapedIsSafe(s[1..]);
      var a, b := ItemText(EscapeItem(s[0])), Escaped(s[1..]);
      forall i | 0 <= i < |Escaped(s)| && Escaped(s)[i] == '"' ensures 0 < i && Escaped(s)[i - 1] == '\\' {
        if i >= |a| { assert b[i - |a|] == '"'; }
      }
    }
  }

  lemma {:induction false} ListIsOneLine(args: seq<string>)
    requires args != []
    ensures OneLine(List(args))
  {
    EscapedIsSafe(args[0]);
    if |args| > 1 { ListIsOneLine(args[1..]); }
  }

  /** No request contains a line break, whatever the strings in it. */
  lemma {:induction false} RequestIsOneLine(id: nat, m: Method, args: seq<string>)
    requires args != []
    ensures OneLine(Request(id, m, args))
  {
    ListIsOneLine(args);
    assert OneLine(Head(id));
    assert OneLine(Mark(m));
    assert OneLine(",\"params\":[");
  }

  // ----- identifiers -----

  /** The number after the key is read to its end. */
  lemma {:induction false} IdIsRead(id: nat, rest: string)
    requires rest != [] && !IsDigit(rest[0])
    ensures IdHere(Key("id", Decimal(id) + rest)) == Some(Decimal(id))
  {
    var r := Decimal(id) + rest;
    KeyHere("id", r, false);
    CompleteDigits(Decimal(id), rest);
    assert r[..|Decimal(id)|] == Decimal(id);
  }

  /** Both sides recover the identifier of any line that starts with one. */
  lemma {:induction false} HeadIsRead(id: nat, rest: string)
    requires id <= MAX_NUMBER
    ensures ParseMessageId(Head(id) + rest) == Some(id) && ParseId(Head(id) + rest) == id
  {
    var s := Head(id) + rest;
    IdIsRead(id, [','] + rest);
    assert s[1..] == Key("id", Decimal(id) + ([','] + rest));
    NoKey(s, "id", false);
    assert IdHere(s) == None && IdHere(s[1..]) == Some(Decimal(id));
    assert FindFirst(s[1..], IdHere) == Some(Decimal(id));
    DecimalRoundTrip(id);
  }

  /** An identifier beyond 64 bits is none to the client, and 0 to the pool. */
  lemma {:induction false} LargeIdIsNone(id: nat, rest: string)
    requires id > MAX_NUMBER
    ensures ParseMessageId(Head(id) + rest) == None && ParseId(Head(id) + rest) == 0
  {
    var s := Head(id) + rest;
    IdIsRead(id, [','] + rest);
    assert s[1..] == Key("id", Decimal(id) + ([','] + rest));
    NoKey(s, "id", false);
    assert FindFirst(s[1..], IdHere) == Some(Decimal(id));
    DecimalRoundTrip(id);
  }

  /** A difficulty beyond 32 bits is replaced by 20. */
  lemma {:induction false} DifficultyIsRead(n: nat)
    ensures Difficulty(Decimal(n)) == if n <= 4294967295 then n else 20
  {
    DecimalRoundTrip(n);
  }

  // ----- dispatch -----

  /** The end of a key that ends in `d`: in a request only `id` and `method` have it. */
  predicate KeyEnd(s: string, i: int) {
    0 <= i < |s| - 2 && s[i] == 'd' && s[i + 1] == '"' && s[i + 2] == ':'
  }

  lemma {:induction false} ListHasNoKeyEnd(args: seq<string>)
    requires args != []
    ensures List(args)[0] == '"'
    ensures forall i :: !KeyEnd(List(args), i)
  {
    EscapedIsSafe(args[0]);
    var q := Quoted(args[0]);
    var rest := if |args| == 1 then "]}" else [','] + List(args[1..]);
    if |args| > 1 { ListHasNoKeyEnd(args[1..]); }
    forall i ensures !KeyEnd(q + rest, i) {
      if 0 <= i < |q + rest| - 2 && (q + rest)[i + 1] == '"' {
        if i + 1 < |q| - 1 {
          assert Escaped(args[0])[i] == '"';
          assert (q + rest)[i] == '\\';
        } else if i + 1 == |q| - 1 {
          assert (q + rest)[i + 2] == rest[0];
        } else if i >= |q| + 1 {
          assert !KeyEnd(List(args[1..]), i - |q| - 1);
        }
      }
    }
  }

  lemma {:induction false} HeadKeyEnd(id: nat, rest: string, i: int)
    requires KeyEnd(Head(id) + rest, i) && i < |Head(id)|
    requires rest != [] && rest[0] == '"'
    ensures i == 3
  {
    var s := Head(id) + rest;
    assert i + 1 < |Head(id)| ==> s[i + 1] == Head(id)[i + 1];
    assert s[i] == Head(id)[i];
  }

  lemma {:induction false} MarkKeyEnd(m: Method, list: string, i: int)
    requires list != [] && list[0] == '"' && forall j :: !KeyEnd(list, j)
    ensures KeyEnd(Mark(m) + (",\"params\":[" + list), i) ==> i == 6
  {
    var params := ",\"params\":[";
    var s := Mark(m) + (params + list);
    if 0 <= i < |s| - 2 {
      if i < |Mark(m)| {
        assert s[i] == Mark(m)[i];
        assert i + 1 < |Mark(m)| ==> s[i + 1] == Mark(m)[i + 1];
        assert i + 2 < |Mark(m)| ==> s[i + 2] == Mark(m)[i + 2];
      } else if i < |Mark(m)| + |params| {
        assert s[i] == params[i - |Mark(m)|];
      } else {
        var j := i - |Mark(m)| - |params|;
        assert s[i] == list[j] && s[i + 1] == list[j + 1] && s[i + 2] == list[j + 2];
        assert !KeyEnd(list, j);
      }
    }
  }

  lemma {:induction false} MarksDiffer(m: Method, other: Method, rest: string)
    requires Starts(Mark(m) + rest, Mark(other), false)
    ensures m == other
  {
    var s := Mark(m) + rest;
    assert s[17] == Mark(other)[17] && s[20] == Mark(other)[20];
    assert s[17] == Name(m)[0] && s[20] == Name(m)[3];
    assert Mark(other)[17] == Name(other)[0] && Mark(other)[20] == Name(other)[3];
  }

  lemma {:induction false} MarkEndsAKey(s: string, i: nat, m: Method)
    requires i <= |s| && Starts(s[i..], Mark(m), false)
    ensures KeyEnd(s, i + 6)
  {
    var t := s[i..];
    assert t[6] == Mark(m)[6] && t[7] == Mark(m)[7] && t[8] == Mark(m)[8];
    assert s[i + 6] == t[6] && s[i + 7] == t[7] && s[i + 8] == t[8];
  }

  /** The only place where a mark can stand in a request, and the only mark there. */
  lemma {:induction false} MarkIsUnique(id: nat, m: Method, list: string, i: nat, other: Method)
    requires list != [] && list[0] == '"' && forall j :: !KeyEnd(list, j)
    requires var s := Head(id) + (Mark(m) + (",\"params\":[" + list));
             i <= |s| && Starts(s[i..], Mark(other), false)
    ensures m == other
  {
    var rest := Mark(m) + (",\"params\":[" + list);
    var s := Head(id) + rest;
    MarkEndsAKey(s, i, other);
    if i + 6 < |Head(id)| {
      HeadKeyEnd(id, rest, i + 6);
    } else {
      KeyEndOfRest(Head(id), rest, i + 6);
      MarkKeyEnd(m, list, i + 6 - |Head(id)|);
      assert s[i..] == rest;
      MarksDiffer(m, other, ",\"params\":[" + list);
    }
  }

  lemma KeyEndOfRest(s: string, t: string, i: nat)
    requires KeyEnd(s + t, i) && i >= |s|
    ensures KeyEnd(t, i - |s|)
  {
  }

  /** A request carries the mark of its own method and of no other, whatever the strings
      in it: the pool's searches, in whatever order, find the right branch. */
  lemma {:induction false} DispatchIsExact(id: nat, m: Method, args: seq<string>, other: Method)
    requires args != []
    ensures Contains(Request(id, m, args), Mark(other)) <==> other == m
  {
    var s := Request(id, m, args);
    ListHasNoKeyEnd(args);
    if Contains(s, Mark(other)) {
      var i :| 0 <= i <= |s| && Starts(s[i..], Mark(other), false);
      MarkIsUnique(id, m, List(args), i, other);
    }
    PrefixStarts(Head(id), Mark(m), ",\"params\":[" + List(args));
  }

  lemma PrefixStarts(s: string, w: string, t: string)
    ensures Contains(s + (w + t), w)
  {
    assert (s + (w + t))[|s|..] == w + t;
    assert Starts(w + t, w, false);
  }
}
