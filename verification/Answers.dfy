/**
 What the pool writes back, line by line, and what the client reads in it, also when a
 deadline cut the front of the line off.
 */
module Answers {
  import opened JsonGrammar
  import opened JsonPrinting
  import opened Matchers
  import opened Messages

  datatype Pool = Pool(notified: bool, jobSeq: nat)

  /** The error of a refusal. */
  const UNKNOWN_METHOD := "[20,\"unknown method\",null]"

  /** One turn of the pool's loop: the lines it sends for the line it has received. */
  function Serve(p: Pool, line: string): (seq<string>, Pool) {
    var id := ParseId(line);
    if Contains(line, Mark(Subscribe)) then
      ([Response(id, SUBSCRIPTION, "null")], p)
    else if Contains(line, Mark(Authorize)) then
      if p.notified then ([Response(id, TRUE, "null")], p)
      else ([Response(id, TRUE, "null"), Notify(p.jobSeq)], p.(notified := true))
    else if Contains(line, Mark(Submit)) then
      ([Response(id, TRUE, "null"), Notify(p.jobSeq + 1)], p.(jobSeq := p.jobSeq + 1))
    else
      ([Response(id, "false", UNKNOWN_METHOD)], p)
  }

  /** A line that carries none of the three methods is refused, in these words. */
  lemma {:induction false} UnknownIsRefused(p: Pool, line: string)
    requires forall m :: !Contains(line, Mark(m))
    ensures Serve(p, line).1 == p && |Serve(p, line).0| == 1
    ensures Serve(p, line).0[0]
         == "{\"id\":" + (Decimal(ParseId(line)) + (",\"result\":false,\"error\":" + "[20,\"unknown method\",null]}"))
  {
    ResponseIsWritten(ParseId(line), "false", UNKNOWN_METHOD);
    var error := UNKNOWN_METHOD + "}";
    assert ",\"result\":" + ("false" + (",\"error\":" + error)) == ",\"result\":false,\"error\":" + error;
    assert error == "[20,\"unknown method\",null]}";
  }

  /** All that the client ever asks a line for. */
  datatype Reading = Reading(id: Option<nat>, accepted: Option<bool>, errorIsNull: bool, job: Option<Job>)

  function Read(line: string): Reading {
    Reading(ParseMessageId(line), ParseBoolResult(line), ParseErrorIsNull(line), ParseNotify(line))
  }

  /** What a response of the pool says. */
  datatype Verdict = Subscribed | Accepted | Refused

  function ResultOf(v: Verdict): string {
    match v
    case Subscribed => SUBSCRIPTION
    case Accepted => TRUE
    case Refused => "false"
  }

  function ErrorOf(v: Verdict): string { if v.Refused? then UNKNOWN_METHOD else "null" }

  function TruthOf(v: Verdict): Option<bool> { if v.Subscribed? then None else Some(v.Accepted?) }

  function TextOfResponse(id: nat, v: Verdict): string { Response(id, ResultOf(v), ErrorOf(v)) }

  // ----- responses -----

  predicate Unquoted(s: string) { forall i | 0 <= i < |s| :: s[i] != '"' }

  /** A pair that starts with a quotation mark is absent from a quoted text when neither the
      text nor what follows starts with its second part. */
  lemma {:induction false} PlainPairs(text: string, rest: string, b: char)
    requires Unquoted(text) && text != [] && Lower(text[0]) != b
    requires NoPair(rest, '"', b) && rest != [] && Lower(rest[0]) != b && b != '"'
    ensures NoPair(Plain(text, rest), '"', b)
  {
    JoinPairs(['"'], rest, '"', b);
    JoinPairs(text, ['"'] + rest, '"', b);
    JoinPairs(['"'], text + (['"'] + rest), '"', b);
  }

  lemma {:induction false} KeyPairs(word: string, rest: string, b: char)
    requires Unquoted(word) && word != [] && Lower(word[0]) != b
    requires NoPair(rest, '"', b) && b != '"' && b != ':'
    ensures NoPair(Key(word, rest), '"', b)
  {
    JoinPairs(['"', ':'], rest, '"', b);
    JoinPairs(word, ['"', ':'] + rest, '"', b);
    JoinPairs(['"'], word + (['"', ':'] + rest), '"', b);
  }

  /** The pair `me` is absent from quoted texts that do not have it. */
  lemma {:induction false} PlainHasNoMe(text: string, rest: string)
    requires NoPair(text, 'm', 'e') && NoPair(rest, 'm', 'e')
    ensures NoPair(Plain(text, rest), 'm', 'e')
  {
    JoinPairs(['"'], rest, 'm', 'e');
    JoinPairs(text, ['"'] + rest, 'm', 'e');
    JoinPairs(['"'], text + (['"'] + rest), 'm', 'e');
  }

  lemma {:induction false} KeyHasNoMe(word: string, rest: string)
    requires NoPair(word, 'm', 'e') && NoPair(rest, 'm', 'e') && (word != [] ==> word[|word| - 1] != 'm')
    ensures NoPair(Key(word, rest), 'm', 'e')
  {
    JoinPairs(['"', ':'], rest, 'm', 'e');
    JoinPairs(word, ['"', ':'] + rest, 'm', 'e');
    JoinPairs(['"'], word + (['"', ':'] + rest), 'm', 'e');
  }

  /** Where a key can stand when no other key or text starts as it does. */
  lemma {:induction false} OnlyKeyHere(before: string, word: string, rest: string, fold: bool)
    requires Unquoted(word) && word != [] && word[0] == Lower(word[0]) != ':'
    requires NoPair(before, '"', word[0]) && NoPair(rest, '"', word[0])
    ensures var s := before + Key(word, rest);
            && |before| < |s| && s[|before|..] == Key(word, rest)
            && forall i | 0 <= i <= |s| && i != |before| :: AfterKey(s[i..], word, fold) == None
  {
    var after := word + (['"', ':'] + rest);
    JoinPairs(['"', ':'], rest, '"', word[0]);
    JoinPairs(word, ['"', ':'] + rest, '"', word[0]);
    OnlyKey(before, after, word, fold);
  }

  /** What follows the key of the result. */
  function Rest(v: Verdict): string { ResultOf(v) + ([','] + Key("error", ErrorOf(v) + ['}'])) }

  lemma {:induction false} SubscriptionPairs(b: char)
    requires b == 'i' || b == 'r' || b == 'p'
    ensures NoPair(SUBSCRIPTION, '"', b)
  {
    var last := Plain("abcdef01", ",4]");
    var middle := Plain("deadbeef", [']', ','] + last);
    PlainPairs("abcdef01", ",4]", b);
    PlainPairs("deadbeef", [']', ','] + last, b);
    PlainPairs("mining.notify", [','] + middle, b);
  }

  lemma {:induction false} ErrorPairs(v: Verdict, b: char)
    requires b == 'i' || b == 'r' || b == 'p' || b == 'e'
    ensures NoPair(ErrorOf(v) + ['}'], '"', b)
  {
    UnknownMethodText();
    PlainPairs("unknown method", ",null]}", b);
    JoinPairs("[20,", Plain("unknown method", ",null]}"), '"', b);
  }

  lemma UnknownMethodText()
    ensures UNKNOWN_METHOD + ['}'] == "[20," + Plain("unknown method", ",null]}")
  {
  }

  lemma {:induction false} RestPairs(v: Verdict, b: char)
    requires b == 'i' || b == 'r' || b == 'p'
    ensures NoPair(Rest(v), '"', b)
  {
    var error := Key("error", ErrorOf(v) + ['}']);
    SubscriptionPairs(b);
    ErrorPairs(v, b);
    KeyPairs("error", ErrorOf(v) + ['}'], b);
    JoinPairs([','], error, '"', b);
    JoinPairs(ResultOf(v), [','] + error, '"', b);
  }

  lemma {:induction false} AfterIdPairs(id: nat, v: Verdict)
    ensures NoPair(Decimal(id) + ([','] + Key("result", Rest(v))), '"', 'i')
  {
    RestPairs(v, 'i');
    KeyPairs("result", Rest(v), 'i');
    JoinPairs([','], Key("result", Rest(v)), '"', 'i');
    JoinPairs(Decimal(id), [','] + Key("result", Rest(v)), '"', 'i');
  }

  /** Where the identifier of a line can stand. */
  lemma {:induction false} OnlyIdHere(rest: string)
    requires NoPair(rest, '"', 'i')
    ensures var s := ['{'] + Key("id", rest);
            forall i | 0 <= i <= |s| && i != 1 :: IdHere(s[i..]) == None
  {
    OnlyKeyHere(['{'], "id", rest, false);
  }

  /** Where the identifier of a response stands. */
  lemma {:induction false} ResponseIds(id: nat, v: Verdict)
    ensures var s := TextOfResponse(id, v);
            forall i | 0 <= i <= |s| && i != 1 :: IdHere(s[i..]) == None
  {
    var rest := Decimal(id) + ([','] + Key("result", Rest(v)));
    AfterIdPairs(id, v);
    OnlyIdHere(rest);
    HeadAndRest(id, Key("result", Rest(v)));
  }

  lemma HeadAndRest(id: nat, rest: string)
    ensures Head(id) + rest == ['{'] + Key("id", Decimal(id) + ([','] + rest))
  {
  }

  lemma {:induction false} ResultIsRead(v: Verdict)
    ensures ResultHere(Key("result", Rest(v))) == TruthOf(v)
  {
    KeyHere("result", Rest(v), true);
    TruthIsRead([','] + Key("error", ErrorOf(v) + ['}']));
    FalseIsRead([','] + Key("error", ErrorOf(v) + ['}']));
  }

  lemma {:induction false} ResponseResults(id: nat, v: Verdict)
    ensures var s := TextOfResponse(id, v);
            && |Head(id)| < |s|
            && (forall i | 0 <= i <= |s| && i != |Head(id)| :: ResultHere(s[i..]) == None)
            && ResultHere(s[|Head(id)|..]) == TruthOf(v)
  {
    RestPairs(v, 'r');
    HeadPairs(id);
    OnlyKeyHere(Head(id), "result", Rest(v), true);
    ResultIsRead(v);
  }

  lemma {:induction false} HeadPairs(id: nat)
    ensures NoPair(Head(id), '"', 'r') && NoPair(Head(id), '"', 'p') && NoPair(Head(id), '"', 'e')
  {
  }

  // ----- any response -----

  ghost predicate HasResult(line: string, result: string) {
    exists id: nat, error :: line == Response(id, result, error)
  }

  ghost predicate IsVerdict(line: string, v: Verdict) { exists id: nat :: line == TextOfResponse(id, v) }

  /** The result of a response is read as it is, whatever the identifier and the error. */
  lemma {:induction false} TruthIsHeard(id: nat, truth: bool, error: string)
    ensures ParseBoolResult(Response(id, if truth then "true" else "false", error)) == Some(truth)
  {
    var result := if truth then "true" else "false";
    var rest := result + ([','] + Key("error", error + ['}']));
    var s, m := Head(id) + Key("result", rest), |Head(id)|;
    assert s[m..] == Key("result", rest);
    KeyHere("result", rest, true);
    TruthIsRead([','] + Key("error", error + ['}']));
    FalseIsRead([','] + Key("error", error + ['}']));
    HeadPairs(id);
    forall i | 0 <= i < m ensures ResultHere(s[i..]) == None {
      assert s[i] == Head(id)[i] && (i + 1 < m ==> s[i + 1] == Head(id)[i + 1]);
      NoKey(s[i..], "result", true);
    }
    FindLeftmost(s, ResultHere, m, 0);
    assert s[0..] == s;
  }

  lemma {:induction false} VerdictIsHeard(line: string)
    ensures HasResult(line, "true") ==> ParseBoolResult(line) == Some(true)
    ensures HasResult(line, "false") ==> ParseBoolResult(line) == Some(false)
  {
    if HasResult(line, "true") {
      var id: nat, error :| line == Response(id, "true", error);
      TruthIsHeard(id, true, error);
    }
    if HasResult(line, "false") {
      var id: nat, error :| line == Response(id, "false", error);
      TruthIsHeard(id, false, error);
    }
  }

  lemma {:induction false} RefusalIsHeard(line: string, v: Verdict)
    requires IsVerdict(line, v)
    ensures ParseErrorIsNull(line) <==> !v.Refused?
  {
    var id: nat :| line == TextOfResponse(id, v);
    ReadVerdict(id, v, 0);
    assert line[0..] == line;
  }

  /** Everything before the error of a response. */
  function UpToError(id: nat, result: string): string { Head(id) + Key("result", result + [',']) }

  lemma UpToErrorOf(id: nat, result: string, error: string)
    ensures Response(id, result, error) == UpToError(id, result) + Key("error", error + ['}'])
  {
  }

  /** The error of a response is read where it stands, unless the result or the error itself
      holds a quotation mark with an `e` behind it. */
  lemma {:induction false} ErrorIsRead(id: nat, result: string, error: string, cut: nat)
    requires NoPair(result, '"', 'e') && NoPair(error + ['}'], '"', 'e')
    requires error != [] && !IsWhite(error[0]) && |error| >= 4
    requires cut <= |UpToError(id, result)|
    ensures ParseErrorIsNull(Response(id, result, error)[cut..]) <==> Starts(error, "null", true)
  {
    var s, m := Response(id, result, error), |UpToError(id, result)|;
    UpToErrorOf(id, result, error);
    HeadPairs(id);
    JoinPairs(result, [','], '"', 'e');
    KeyPairs("result", result + [','], 'e');
    JoinPairs(Head(id), Key("result", result + [',']), '"', 'e');
    OnlyKeyHere(UpToError(id, result), "error", error + ['}'], true);
    KeyHere("error", error + ['}'], true);
    Suffixes(s, cut);
    assert ErrorHere(s[m..]) <==> Starts(error, "null", true);
    if Starts(error, "null", true) { assert ErrorHere(s[cut..][m - cut..]); }
  }

  /** A text in which no key that starts with `p` can stand announces no job. */
  lemma {:induction false} ResponseIsNoJob(id: nat, v: Verdict)
    ensures var s := TextOfResponse(id, v);
            forall i | 0 <= i <= |s| :: JobHere(s[i..]) == None
  {
    var s := TextOfResponse(id, v);
    RestPairs(v, 'p');
    KeyPairs("result", Rest(v), 'p');
    HeadPairs(id);
    JoinPairs(Head(id), Key("result", Rest(v)), '"', 'p');
    forall i | 0 <= i <= |s| ensures JobHere(s[i..]) == None {
      if i + 1 < |s| { assert s[i..][0] == s[i] && s[i..][1] == s[i + 1]; }
      NoKey(s[i..], "params", true);
    }
  }

  lemma {:induction false} NotifyNeedsMe(t: string)
    ensures NotifyHere(t) ==> |t| > 2 && t[1] == 'm' && t[2] == 'e'
  {
    var key := ['"'] + "method" + ['"'];
    assert key[1] == 'm' && key[2] == 'e';
  }

  /** A key that starts with "me" cannot stand where no such pair is. */
  lemma {:induction false} NoNotify(s: string, from: nat)
    requires from <= |s| && NoPair(s[from..], 'm', 'e')
    ensures forall i | from <= i <= |s| :: !NotifyHere(s[i..])
  {
    forall i | from <= i <= |s| ensures !NotifyHere(s[i..]) {
      NotifyNeedsMe(s[i..]);
      if i + 2 < |s| { assert s[from..][i + 1 - from] == s[i..][1] && s[from..][i + 2 - from] == s[i..][2]; }
    }
  }

  lemma {:induction false} ResultHasNoError(v: Verdict)
    ensures NoPair(ResultOf(v), '"', 'e')
  {
    var last := Plain("abcdef01", ",4]");
    var middle := Plain("deadbeef", [']', ','] + last);
    PlainPairs("abcdef01", ",4]", 'e');
    PlainPairs("deadbeef", [']', ','] + last, 'e');
    PlainPairs("mining.notify", [','] + middle, 'e');
  }

  /** A response, with the first `cut` characters missing. */
  lemma {:induction false} ReadResponse(id: nat, v: Verdict, cut: nat)
    requires id <= MAX_NUMBER
    requires cut <= |TextOfResponse(id, v)|
    ensures var r := Read(TextOfResponse(id, v)[cut..]);
            && r.job == None
            && r.id == (if cut <= 1 then Some(id) else None)
            && (cut <= 1 ==> r.accepted == TruthOf(v) && (r.errorIsNull <==> !v.Refused?))
  {
    var s := TextOfResponse(id, v);
    ResponseIds(id, v);
    FindOnly(s, IdHere, 1, cut);
    FindOnly(s, IdHere, 1, 0);
    assert s[0..] == s;
    HeadIsRead(id, Key("result", Rest(v)));
    ResponseIsNoJob(id, v);
    FindNone(s, JobHere, cut);
    if cut <= 1 { ReadVerdict(id, v, cut); }
  }

  lemma {:induction false} ReadVerdict(id: nat, v: Verdict, cut: nat)
    requires cut <= 1 <= |TextOfResponse(id, v)|
    ensures ParseBoolResult(TextOfResponse(id, v)[cut..]) == TruthOf(v)
    ensures ParseErrorIsNull(TextOfResponse(id, v)[cut..]) <==> !v.Refused?
  {
    ResponseResults(id, v);
    FindOnly(TextOfResponse(id, v), ResultHere, |Head(id)|, cut);
    ErrorOfVerdict(id, v, cut);
  }

  lemma {:induction false} ErrorOfVerdict(id: nat, v: Verdict, cut: nat)
    requires cut <= 1 <= |TextOfResponse(id, v)|
    ensures ParseErrorIsNull(TextOfResponse(id, v)[cut..]) <==> !v.Refused?
  {
    ResultHasNoError(v);
    ErrorPairs(v, 'e');
    ErrorIsRead(id, ResultOf(v), ErrorOf(v), cut);
    assert Starts(ErrorOf(v), "null", true) <==> !v.Refused?;
  }

  lemma Suffixes(s: string, cut: nat)
    requires cut <= |s|
    ensures forall i | 0 <= i <= |s| - cut :: s[cut..][i..] == s[cut + i..]
  {
  }

  // ----- announcements -----

  /** The rest of an announcement, from inside its last key on. */
  function Jobs(k: nat): string { ['['] + Plain(JobId(k), [','] + Plain(Prefix(k), ",20,true]}")) }

  lemma {:induction false} JobsPairs(k: nat, b: char)
    requires b == 'i' || b == 'p'
    ensures NoPair(Jobs(k), '"', b) && NoPair(Jobs(k), 'm', 'e')
  {
    var end := ",20,true]}";
    TagPairs(k);
    PlainPairs(Prefix(k), end, b);
    PlainPairs(JobId(k), [','] + Plain(Prefix(k), end), b);
    PlainHasNoMe(Prefix(k), end);
    PlainHasNoMe(JobId(k), [','] + Plain(Prefix(k), end));
  }

  lemma {:induction false} TagPairs(k: nat)
    ensures Unquoted(JobId(k)) && Unquoted(Prefix(k)) && JobId(k)[0] == 'j' && Prefix(k)[0] == 'o'
    ensures NoPair(JobId(k), 'm', 'e') && NoPair(Prefix(k), 'm', 'e')
  {
    JoinPairs("job-", Decimal(k), 'm', 'e');
    JoinPairs("offline-job-", Decimal(k), 'm', 'e');
  }

  /** What follows the null identifier. */
  function Body(k: nat): string { Key("method", Plain("mining.notify", [','] + Params(k))) }

  lemma {:induction false} BodyPairs(k: nat)
    ensures NoPair(Body(k), '"', 'i')
  {
    JobsPairs(k, 'i');
    KeyPairs("params", Jobs(k), 'i');
    PlainPairs("mining.notify", [','] + Params(k), 'i');
    KeyPairs("method", Plain("mining.notify", [','] + Params(k)), 'i');
  }

  lemma {:induction false} NullIsNoId(rest: string)
    requires rest != [] && rest[0] == 'n'
    ensures IdHere(Key("id", rest)) == None
  {
    KeyHere("id", rest, false);
    assert DigitRun(rest) == 0;
  }

  /** A null identifier is none. */
  lemma {:induction false} NullIds(body: string)
    requires NoPair(body, '"', 'i')
    ensures forall i | 0 <= i <= |NULL_HEAD + body| :: IdHere((NULL_HEAD + body)[i..]) == None
  {
    var rest := "null," + body;
    JoinPairs("null,", body, '"', 'i');
    OnlyIdHere(rest);
    NullIsNoId(rest);
    assert NULL_HEAD + body == ['{'] + Key("id", rest);
    assert (['{'] + Key("id", rest))[1..] == Key("id", rest);
  }

  lemma {:induction false} NotifyIds(k: nat)
    ensures forall i | 0 <= i <= |Notify(k)| :: IdHere(Notify(k)[i..]) == None
  {
    BodyPairs(k);
    NullIds(Body(k));
  }

  lemma {:induction false} NotifyWord(rest: string)
    ensures Starts(Plain("mining.notify", rest), "\"mining.notify\"", false)
  {
    assert "\"mining.notify\"" == ['"'] + ("mining.notify" + ['"']);
    PlainStarts("mining.notify", rest);
  }

  lemma PlainStarts(text: string, rest: string)
    ensures Starts(Plain(text, rest), ['"'] + (text + ['"']), false)
  {
  }

  lemma KeyTail(c: char, word: string, rest: string)
    ensures Key([c] + word, rest)[2..] == word + (['"', ':'] + rest) && Key([c] + word, rest)[1] == c
  {
  }

  lemma {:induction false} BodyIsNotify(k: nat)
    ensures NotifyHere(Body(k))
    ensures |Body(k)| > 2 && Body(k)[1] == 'm' && NoPair(Body(k)[2..], 'm', 'e')
  {
    var rest := Plain("mining.notify", [','] + Params(k));
    KeyHere("method", rest, false);
    NotifyWord([','] + Params(k));
    JobsPairs(k, 'i');
    KeyHasNoMe("params", Jobs(k));
    PlainHasNoMe("mining.notify", [','] + Params(k));
    JoinPairs(['"', ':'], rest, 'm', 'e');
    JoinPairs("ethod", ['"', ':'] + rest, 'm', 'e');
    assert "method" == ['m'] + "ethod";
    KeyTail('m', "ethod", rest);
  }

  /** A text with one `me`, right after its first character. */
  lemma {:induction false} NotifyOnce(before: string, s: string)
    requires |s| > 2 && s[1] == 'm' && NoPair(s[2..], 'm', 'e')
    ensures forall i | |before| < i <= |before + s| :: !NotifyHere((before + s)[i..])
  {
    var t := before + s;
    assert t[|before| + 2..] == s[2..];
    NoNotify(t, |before| + 2);
    assert t[|before| + 1..][0] == s[1];
    NoKey(t[|before| + 1..], "method", false);
  }

  lemma {:induction false} NotifyMethods(k: nat)
    ensures var s := Notify(k);
            && |NULL_HEAD| < |s| && NotifyHere(s[|NULL_HEAD|..])
            && forall i | |NULL_HEAD| < i <= |s| :: !NotifyHere(s[i..])
  {
    BodyIsNotify(k);
    SplitAt(NULL_HEAD, Body(k));
    NotifyOnce(NULL_HEAD, Body(k));
  }

  lemma SplitAt(before: string, s: string)
    ensures (before + s)[|before|..] == s
  {
  }

  lemma {:induction false} UntilQuoteOf(t: string, rest: string)
    requires Unquoted(t)
    ensures UntilQuote(t + (['"'] + rest)) == |t|
  {
    if t == [] {
      assert t + (['"'] + rest) == ['"'] + rest;
    } else {
      assert (t + (['"'] + rest))[1..] == t[1..] + (['"'] + rest);
      UntilQuoteOf(t[1..], rest);
    }
  }

  lemma {:induction false} TextIsRead(t: string, rest: string)
    requires Unquoted(t) && rest != [] && !IsWhite(rest[0])
    ensures QuotedText(Plain(t, [','] + rest)) == Some((t, rest))
  {
    var s := Plain(t, [','] + rest);
    assert s[1..] == t + (['"'] + ([','] + rest));
    UntilQuoteOf(t, [','] + rest);
    assert s[1..1 + |t|] == t;
    assert s[|t| + 2..] == [','] + rest;
    assert ([','] + rest)[1..] == rest;
  }

  /** What follows the two texts of a job: a comma, the difficulty, a comma, and the clean flag. */
  function JobEnd(n: nat, clean: bool, rest: string): string {
    [','] + (Decimal(n) + ([','] + ((if clean then "true" else "false") + rest)))
  }

  lemma {:induction false} CleanIsRead(clean: bool, rest: string)
    ensures var truth := (if clean then "true" else "false") + rest;
            TruthHere(truth) == Some(clean) && truth != [] && !IsWhite(truth[0])
  {
    TruthIsRead(rest);
    FalseIsRead(rest);
  }

  lemma {:induction false} DifficultyBefore(digits: string, truth: string, clean: bool)
    requires Digits(digits) && digits != [] && truth != [] && !IsWhite(truth[0]) && TruthHere(truth) == Some(clean)
    ensures DifficultyAndClean(digits + ([','] + truth)) == Some((Difficulty(digits), clean))
  {
    var s := digits + ([','] + truth);
    CompleteDigits(digits, [','] + truth);
    assert s[..|digits|] == digits && s[|digits|..] == [','] + truth;
    assert s[|digits|..][1..] == truth;
  }

  lemma {:induction false} JobEndIsRead(n: nat, clean: bool, rest: string)
    ensures DifficultyAndClean(JobEnd(n, clean, rest)[1..]) == Some((if n <= 4294967295 then n else 20, clean))
  {
    var truth := (if clean then "true" else "false") + rest;
    assert JobEnd(n, clean, rest)[1..] == Decimal(n) + ([','] + truth);
    CleanIsRead(clean, rest);
    DifficultyBefore(Decimal(n), truth, clean);
    DifficultyIsRead(n);
  }

  /** Any job is read back from its text, with 20 for a difficulty beyond 32 bits. */
  lemma {:induction false} JobTextIsRead(id: string, prefix: string, n: nat, clean: bool, rest: string)
    requires Unquoted(id) && Unquoted(prefix) && id != []
    ensures JobText(Plain(id, [','] + Plain(prefix, JobEnd(n, clean, rest))))
         == Some(Job(id, prefix, if n <= 4294967295 then n else 20, clean))
  {
    var end := JobEnd(n, clean, rest);
    TextIsRead(id, Plain(prefix, end));
    assert end == [','] + end[1..] && end[1] == Decimal(n)[0] && IsDigit(Decimal(n)[0]);
    TextIsRead(prefix, end[1..]);
    JobEndIsRead(n, clean, rest);
  }

  /** The prefix of a job may be empty, but not its name. */
  lemma {:induction false} EmptyNameIsNone(rest: string)
    ensures JobText(Plain("", rest)) == None
  {
    var s := Plain("", rest);
    assert s[1..] == "" + (['"'] + rest);
    UntilQuoteOf("", rest);
    assert s[1..1] == [];
  }

  lemma {:induction false} JobIsRead(k: nat)
    ensures JobHere(Params(k)) == Some(Job(JobId(k), Prefix(k), 20, true))
  {
    KeyHere("params", Jobs(k), true);
    TagPairs(k);
    TwentyIsWritten();
    JobTextIsRead(JobId(k), Prefix(k), 20, true, "]}");
    var text := Plain(JobId(k), [','] + Plain(Prefix(k), ",20,true]}"));
    BracketIsRead(text);
  }

  lemma {:induction false} BracketIsRead(text: string)
    requires text != [] && !IsWhite(text[0])
    ensures Token(['['] + text, '[') == Some(text)
  {
    assert (['['] + text)[1..] == text;
  }

  lemma {:induction false} TwentyIsWritten()
    ensures JobEnd(20, true, "]}") == ",20,true]}"
  {
    assert Decimal(20) == "20";
    assert "true" + "]}" == "true]}";
  }

  lemma {:induction false} TruthIsRead(rest: string)
    ensures TruthHere("true" + rest) == Some(true)
  {
    assert ("true" + rest)[..4] == "true";
  }

  lemma {:induction false} FalseIsRead(rest: string)
    ensures TruthHere("false" + rest) == Some(false)
  {
    assert ("false" + rest)[0] == 'f';
  }

  lemma {:induction false} BeforePairs()
    ensures NoPair(NULL_HEAD + Key("method", Plain("mining.notify", [','])), '"', 'p')
  {
    PlainPairs("mining.notify", [','], 'p');
    KeyPairs("method", Plain("mining.notify", [',']), 'p');
    KeyPairs("id", "null,", 'p');
    JoinPairs(NULL_HEAD, Key("method", Plain("mining.notify", [','])), '"', 'p');
  }

  lemma KeyOfPlain(before: string, word: string, text: string, s: string, t: string)
    ensures before + Key(word, Plain(text, s + t)) == (before + Key(word, Plain(text, s))) + t
  {
  }

  lemma {:induction false} NotifyJobs(k: nat)
    ensures var s, m := Notify(k), |Notify(k)| - |Params(k)|;
            && |NULL_HEAD| < m < |s|
            && (forall i | 0 <= i <= |s| && i != m :: JobHere(s[i..]) == None)
            && JobHere(s[m..]) == Some(Job(JobId(k), Prefix(k), 20, true))
  {
    var before := NULL_HEAD + Key("method", Plain("mining.notify", [',']));
    JobsPairs(k, 'p');
    BeforePairs();
    OnlyKeyHere(before, "params", Jobs(k), true);
    KeyOfPlain(NULL_HEAD, "method", "mining.notify", [','], Params(k));
    JobIsRead(k);
  }

  /** An announcement, with the first `cut` characters missing. */
  lemma {:induction false} ReadNotify(k: nat, cut: nat)
    requires cut <= |Notify(k)|
    ensures var r := Read(Notify(k)[cut..]);
            && r.id == None
            && r.job == if cut <= |NULL_HEAD| then Some(Job(JobId(k), Prefix(k), 20, true)) else None
  {
    var s := Notify(k);
    NotifyIds(k);
    FindNone(s, IdHere, cut);
    NotifyJobs(k);
    FindOnly(s, JobHere, |s| - |Params(k)|, cut);
    NotifyMethods(k);
    Suffixes(s, cut);
    if cut <= |NULL_HEAD| { assert NotifyHere(s[cut..][|NULL_HEAD| - cut..]); }
  }

  // ----- both -----

  datatype Line = Answer(id: nat, verdict: Verdict) | Announcement(k: nat)

  function TextOf(l: Line): string {
    match l
    case Answer(id, verdict) => TextOfResponse(id, verdict)
    case Announcement(k) => Notify(k)
  }

  /** What a line says to the client; the fields that only responses are asked for are
      open for announcements. */
  predicate Says(r: Reading, l: Line) {
    match l
    case Answer(id, verdict) => r == Reading(Some(id), TruthOf(verdict), !verdict.Refused?, None)
    case Announcement(k) => r.id == None && r.job == Some(Job(JobId(k), Prefix(k), 20, true))
  }

  predicate SaysNothing(r: Reading) { r.id == None && r.job == None }

  /** A deadline that cuts a line loses the line or nothing: what is left of it is read as
      the same message, or as none; never as another message. */
  lemma {:induction false} CutLineIsWholeOrLost(l: Line, cut: nat)
    requires cut <= |TextOf(l)| && (l.Answer? ==> l.id <= MAX_NUMBER)
    ensures Says(Read(TextOf(l)[cut..]), l) || SaysNothing(Read(TextOf(l)[cut..]))
    ensures Says(Read(TextOf(l)), l)
  {
    var s := TextOf(l);
    assert s[0..] == s;
    match l {
      case Answer(id, verdict) =>
        ReadResponse(id, verdict, cut);
        ReadResponse(id, verdict, 0);
      case Announcement(k) =>
        ReadNotify(k, cut);
        ReadNotify(k, 0);
    }
  }
}
