/**
 A request and its answer, end to end: the client's bytes reach the pool's dispatch, and
 the pool's bytes come back as the response the client waits for.
 */
module Exchange {
  import opened JsonGrammar
  import opened JsonPrinting
  import opened Matchers
  import opened Messages
  import opened Wire
  import opened Client
  import opened FakePool
  import Answers

  // ----- the pool answers -----

  /** What the pool is meant to answer: first the response, then a job where one is due. */
  function Replies(p: Answers.Pool, id: nat, m: Method): seq<Answers.Line> {
    match m
    case Subscribe => [Answers.Answer(id, Answers.Subscribed)]
    case Authorize =>
      if p.notified then [Answers.Answer(id, Answers.Accepted)]
      else [Answers.Answer(id, Answers.Accepted), Answers.Announcement(p.jobSeq)]
    case Submit => [Answers.Answer(id, Answers.Accepted), Answers.Announcement(p.jobSeq + 1)]
  }

  function VerdictOf(m: Method): Answers.Verdict { if m.Subscribe? then Answers.Subscribed else Answers.Accepted }

  function After(p: Answers.Pool, m: Method): Answers.Pool {
    match m
    case Subscribe => p
    case Authorize => p.(notified := true)
    case Submit => p.(jobSeq := p.jobSeq + 1)
  }

  function Texts(lines: seq<Answers.Line>): (r: seq<string>)
    ensures |r| == |lines|
    ensures forall i | 0 <= i < |lines| :: r[i] == Answers.TextOf(lines[i])
  {
    if lines == [] then [] else [Answers.TextOf(lines[0])] + Texts(lines[1..])
  }

  /** Whatever strings a request carries, the pool answers the method it is for. */
  lemma {:induction false} PoolServesTheRequest(p: Answers.Pool, id: nat, m: Method, args: seq<string>)
    requires args != [] && id <= MAX_NUMBER
    ensures Answers.Serve(p, Request(id, m, args)) == (Texts(Replies(p, id, m)), After(p, m))
  {
    DispatchIsExact(id, m, args, Subscribe);
    DispatchIsExact(id, m, args, Authorize);
    DispatchIsExact(id, m, args, Submit);
    HeadIsRead(id, Mark(m) + (",\"params\":[" + List(args)));
    TextsOfReplies(p, id, m);
  }

  lemma TextsOfReplies(p: Answers.Pool, id: nat, m: Method)
    ensures Texts(Replies(p, id, m)) == match m
              case Subscribe => [Response(id, SUBSCRIPTION, "null")]
              case Authorize =>
                if p.notified then [Response(id, TRUE, "null")] else [Response(id, TRUE, "null"), Notify(p.jobSeq)]
              case Submit => [Response(id, TRUE, "null"), Notify(p.jobSeq + 1)]
  {
  }

  // ----- short lines -----

  function Power10(k: nat): nat { if k == 0 then 1 else 10 * Power10(k - 1) }

  lemma {:induction false} DecimalIsShort(n: nat, k: nat)
    requires k > 0 && n < Power10(k)
    ensures |Decimal(n)| <= k
  {
    if n >= 10 { DecimalIsShort(n / 10, k - 1); }
  }

  lemma {:induction false} PlainIsOneLine(text: string, rest: string)
    requires OneLine(text) && OneLine(rest)
    ensures OneLine(Plain(text, rest)) && OneLine(Key(text, rest))
    ensures |Plain(text, rest)| == |text| + |rest| + 2 && |Key(text, rest)| == |text| + |rest| + 3
  {
  }

  lemma {:induction false} ResultIsOneLine(v: Answers.Verdict)
    ensures OneLine(Answers.ResultOf(v)) && |Answers.ResultOf(v)| <= 64
  {
    var last := Plain("abcdef01", ",4]");
    PlainIsOneLine("abcdef01", ",4]");
    PlainIsOneLine("deadbeef", [']', ','] + last);
    PlainIsOneLine("mining.notify", [','] + Plain("deadbeef", [']', ','] + last));
  }

  lemma {:induction false} ResponseIsSendable(id: nat, v: Answers.Verdict)
    requires id <= MAX_NUMBER
    ensures Sendable(Answers.TextOf(Answers.Answer(id, v)))
  {
    var result := Answers.ResultOf(v);
    var error := Key("error", Answers.ErrorOf(v) + ['}']);
    assert Power10(8) == 1_0000_0000;
    assert Power10(14) == 100_0000_0000_0000;
    assert Power10(20) == 1_0000_0000_0000_0000_0000;
    DecimalIsShort(id, 20);
    ResultIsOneLine(v);
    PlainIsOneLine("id", Decimal(id) + [',']);
    PlainIsOneLine("error", Answers.ErrorOf(v) + ['}']);
    PlainIsOneLine("result", result + ([','] + error));
  }

  lemma {:induction false} NotifyIsSendable(k: nat)
    requires k < 0x1_0000_0000
    ensures Sendable(Notify(k))
  {
    assert Power10(10) == 100_0000_0000;
    DecimalIsShort(k, 10);
    PlainIsOneLine(Prefix(k), ",20,true]}");
    PlainIsOneLine(JobId(k), [','] + Plain(Prefix(k), ",20,true]}"));
    PlainIsOneLine("params", Answers.Jobs(k));
    PlainIsOneLine("mining.notify", [','] + Params(k));
    PlainIsOneLine("method", Plain("mining.notify", [','] + Params(k)));
    PlainIsOneLine("id", "null,");
  }

  // ----- end to end -----

  lemma {:induction false} RequestArrives(id: nat, m: Method, args: seq<string>)
    requires args != []
    ensures TakeLine(Request(id, m, args) + ['\n']) == Some((Request(id, m, args), []))
  {
    RequestIsOneLine(id, m, args);
    TakeLineOfLine(Request(id, m, args), []);
    assert ['\n'] + [] == ['\n'];
  }

  lemma {:induction false} AnswerArrives(id: nat, v: Answers.Verdict, stale: seq<string>, lines: seq<string>,
                                         turns: seq<seq<Poll>>)
    requires id <= MAX_NUMBER && lines != [] && lines[0] == Answers.TextOf(Answers.Answer(id, v))
    requires forall s | s in stale :: Sendable(s) && ParseMessageId(s) != Some(id)
    requires |turns| > |stale| && forall t | t in turns :: Calm(t, MAX_LINE)
    ensures Await(id, Sent(stale + lines, []), turns, []) == Got(lines[0], Sent(lines[1..], []), stale)
  {
    ResponseIsSendable(id, v);
    ResponseIsHeard(id, v);
    AwaitFindsTheAnswer(id, stale, lines[0], Sent(lines[1..], []), turns, []);
    SentSplits(stale, lines);
    assert [] + stale == stale;
  }

  /** For every request that fits into a line, whatever its strings and however its bytes are
      taken: the pool receives it unchanged and answers its method, and from the answer,
      after any lines that are no response to it, `request_response` returns the response
      and leaves the rest. */
  lemma {:induction false} RequestIsAnswered(id: nat, m: Method, args: seq<string>, p: Answers.Pool, stale: seq<string>,
                                             takes: seq<int>, turns: seq<seq<Poll>>)
    requires args != [] && id <= MAX_NUMBER && |Request(id, m, args)| <= MAX_LINE
    requires Accepts(takes, |Request(id, m, args)| + 1)
    requires forall s | s in stale :: Sendable(s) && ParseMessageId(s) != Some(id)
    requires |turns| > |stale| && forall t | t in turns :: Calm(t, MAX_LINE)
    ensures TakeLine(Request(id, m, args) + ['\n']) == Some((Request(id, m, args), []))
    ensures var (lines, p') := Answers.Serve(p, Request(id, m, args));
            && lines == Texts(Replies(p, id, m)) && p' == After(p, m)
            && CallOutcome(true, Sent(stale + lines, []), Request(id, m, args), id, takes, turns)
               == Got(Answers.TextOf(Answers.Answer(id, VerdictOf(m))), Sent(lines[1..], []), stale)
  {
    RequestArrives(id, m, args);
    PoolServesTheRequest(p, id, m, args);
    AnswerArrives(id, VerdictOf(m), stale, Texts(Replies(p, id, m)), turns);
  }

  lemma {:induction false} ResponseIsHeard(id: nat, v: Answers.Verdict)
    requires id <= MAX_NUMBER
    ensures var s := Answers.TextOf(Answers.Answer(id, v));
            && ParseMessageId(s) == Some(id) && ParseNotify(s) == None
            && ParseBoolResult(s) == Answers.TruthOf(v) && (ParseErrorIsNull(s) <==> !v.Refused?)
  {
    var l := Answers.Answer(id, v);
    Answers.ReadResponse(id, v, 0);
    assert Answers.TextOf(l)[0..] == Answers.TextOf(l);
  }

  lemma {:induction false} NotifyIsHeard(k: nat)
    ensures ParseMessageId(Notify(k)) == None
    ensures ParseNotify(Notify(k)) == Some(Job(JobId(k), Prefix(k), 20, true))
  {
    Answers.ReadNotify(k, 0);
    assert Notify(k)[0..] == Notify(k);
  }

  lemma {:induction false} SentSplits(before: seq<string>, lines: seq<string>)
    requires lines != []
    ensures Sent(before + lines, []) == Sent(before + [lines[0]], Sent(lines[1..], []))
  {
    if before == [] {
      assert before + lines == lines && before + [lines[0]] == [lines[0]];
    } else {
      assert (before + lines)[1..] == before[1..] + lines && (before + [lines[0]])[1..] == before[1..] + [lines[0]];
      SentSplits(before[1..], lines);
    }
  }

  /** The first line left over is a job. */
  lemma {:induction false} JobIsFound(k: nat, turns: seq<Turn>)
    requires k < 0x1_0000_0000
    requires turns != [] && forall t | t in turns :: !t.stop && Calm(t.polls, MAX_LINE)
    ensures Wire.WaitForJob(Sent([Notify(k)], []), turns) == Found(Job(JobId(k), Prefix(k), 20, true), [])
  {
    NotifyIsHeard(k);
    NotifyIsSendable(k);
    assert [Notify(k)] == [] + [Notify(k)];
    WaitFindsTheJob([], Notify(k), [], turns);
  }

  /** A submit round: the share is accepted and the next job is the pool's next one, with
      nothing left over. */
  lemma {:induction false} SubmitRound(id: nat, user: string, job: string, nonce: nat, p: Answers.Pool,
                                       takes: seq<int>, turns: seq<seq<Poll>>, jobTurns: seq<Turn>)
    requires id <= MAX_NUMBER && p.jobSeq < 0xFFFF_FFFF
    requires |Request(id, Submit, [user, job, NonceHex(nonce)])| <= MAX_LINE
    requires Accepts(takes, |Request(id, Submit, [user, job, NonceHex(nonce)])| + 1)
    requires turns != [] && forall t | t in turns :: Calm(t, MAX_LINE)
    requires jobTurns != [] && forall t | t in jobTurns :: !t.stop && Calm(t.polls, MAX_LINE)
    ensures var request := Request(id, Submit, [user, job, NonceHex(nonce)]);
            var (lines, p') := Answers.Serve(p, request);
            var o := CallOutcome(true, Sent(lines, []), request, id, takes, turns);
            && p' == p.(jobSeq := p.jobSeq + 1)
            && o.Got? && o.dropped == [] && ParseBoolResult(o.line) == Some(true)
            && Wire.WaitForJob(o.rest, jobTurns) == Found(Job(JobId(p'.jobSeq), Prefix(p'.jobSeq), 20, true), [])
  {
    RequestIsAnswered(id, Submit, [user, job, NonceHex(nonce)], p, [], takes, turns);
    TextsOfReplies(p, id, Submit);
    var lines := Texts(Replies(p, id, Submit));
    assert [] + lines == lines && lines[1..] == [Notify(p.jobSeq + 1)];
    ResponseIsHeard(id, Answers.Accepted);
    JobIsFound(p.jobSeq + 1, jobTurns);
  }

  /** A request whose answer is a refusal, with whatever error, gets that answer, and reads it
      as one: `authorize` and `submit_share` then return false. */
  lemma {:induction false} RefusalIsHeard(id: nat, m: Method, args: seq<string>, error: string, stale: seq<string>,
                                          rest: string, takes: seq<int>, turns: seq<seq<Poll>>)
    requires args != [] && id <= MAX_NUMBER && |Request(id, m, args)| <= MAX_LINE
    requires Sendable(Response(id, "false", error))
    requires Accepts(takes, |Request(id, m, args)| + 1)
    requires forall s | s in stale :: Sendable(s) && ParseMessageId(s) != Some(id)
    requires |turns| > |stale| && forall t | t in turns :: Calm(t, MAX_LINE)
    ensures var line := Response(id, "false", error);
            && CallOutcome(true, Sent(stale + [line], rest), Request(id, m, args), id, takes, turns)
               == Got(line, rest, stale)
            && ParseBoolResult(line) == Some(false)
  {
    var line := Response(id, "false", error);
    HeadIsRead(id, Key("result", "false" + ([','] + Key("error", error + ['}']))));
    AwaitFindsTheAnswer(id, stale, line, rest, turns, []);
    assert [] + stale == stale;
    Answers.TruthIsHeard(id, false, error);
  }

  // ----- whole sessions -----

  datatype Asking = Asking(id: nat, m: Method, args: seq<string>)

  predicate Proper(a: Asking) { a.args != [] && a.id <= MAX_NUMBER }

  function RequestText(a: Asking): string
    requires Proper(a)
  {
    Request(a.id, a.m, a.args)
  }

  function RequestTexts(all: seq<Asking>): seq<string>
    requires forall i | 0 <= i < |all| :: Proper(all[i])
    decreases |all|
  {
    if all == [] then [] else [RequestText(all[0])] + RequestTexts(all[1..])
  }

  function AllReplies(p: Answers.Pool, all: seq<Asking>): seq<Answers.Line>
    decreases |all|
  {
    if all == [] then [] else Replies(p, all[0].id, all[0].m) + AllReplies(After(p, all[0].m), all[1..])
  }

  function AfterAll(p: Answers.Pool, all: seq<Asking>): Answers.Pool
    decreases |all|
  {
    if all == [] then p else AfterAll(After(p, all[0].m), all[1..])
  }

  lemma {:induction false} SentAppend(a: seq<string>, b: seq<string>, rest: string)
    ensures Sent(a + b, rest) == Sent(a, Sent(b, rest))
  {
    if a == [] {
      assert a + b == b;
    } else {
      assert (a + b)[1..] == a[1..] + b;
      SentAppend(a[1..], b, rest);
    }
  }

  lemma {:induction false} TextsAppend(a: seq<Answers.Line>, b: seq<Answers.Line>)
    ensures Texts(a + b) == Texts(a) + Texts(b)
  {
    if a == [] {
      assert a + b == b && [] + Texts(b) == Texts(b);
    } else {
      var first := [Answers.TextOf(a[0])];
      assert (a + b)[0] == a[0] && (a + b)[1..] == a[1..] + b;
      TextsAppend(a[1..], b);
      assert first + (Texts(a[1..]) + Texts(b)) == (first + Texts(a[1..])) + Texts(b);
    }
  }

  /** Whatever requests come one after the other, with whatever strings in them: the bytes
      that go back are the replies to each of them, in order, and nothing else. */
  lemma {:induction false} SessionIsServed(p: Answers.Pool, all: seq<Asking>)
    requires forall i | 0 <= i < |all| :: Proper(all[i])
    ensures ServeStream(p, Sent(RequestTexts(all), [])) == (Sent(Texts(AllReplies(p, all)), []), AfterAll(p, all))
    decreases |all|
  {
    if all != [] {
      var a, rest := all[0], all[1..];
      assert Proper(a);
      var request, more := RequestText(a), Sent(RequestTexts(rest), []);
      RequestIsOneLine(a.id, a.m, a.args);
      TakeLineOfLine(request, more);
      PoolServesTheRequest(p, a.id, a.m, a.args);
      SessionIsServed(After(p, a.m), rest);
      var now, later := Replies(p, a.id, a.m), AllReplies(After(p, a.m), rest);
      TextsAppend(now, later);
      SentAppend(Texts(now), Texts(later), []);
      assert RequestTexts(all) == [request] + RequestTexts(rest);
    }
  }

  function JobOf(l: Answers.Line): seq<nat> { if l.Announcement? then [l.k] else [] }

  /** The jobs announced, in order. */
  function Announced(lines: seq<Answers.Line>): seq<nat> {
    if lines == [] then [] else JobOf(lines[0]) + Announced(lines[1..])
  }

  lemma {:induction false} AnnouncedAppend(a: seq<Answers.Line>, b: seq<Answers.Line>)
    ensures Announced(a + b) == Announced(a) + Announced(b)
  {
    if a == [] {
      assert a + b == b && [] + Announced(b) == Announced(b);
    } else {
      var first := JobOf(a[0]);
      assert (a + b)[0] == a[0] && (a + b)[1..] == a[1..] + b;
      AnnouncedAppend(a[1..], b);
      assert first + (Announced(a[1..]) + Announced(b)) == (first + Announced(a[1..])) + Announced(b);
    }
  }

  lemma {:induction false} AnnouncedReplies(p: Answers.Pool, id: nat, m: Method)
    requires p.notified
    ensures Announced(Replies(p, id, m)) == if m.Submit? then [p.jobSeq + 1] else []
  {
    var now := Replies(p, id, m);
    assert JobOf(now[0]) == [];
    if m.Submit? {
      assert now[1..] == [Answers.Announcement(p.jobSeq + 1)] && now[1..][1..] == [];
      assert Announced(now[1..]) == [p.jobSeq + 1];
    } else {
      assert now[1..] == [];
    }
  }

  /** Once a job has been announced, every submit announces the next one: in order, without
      gaps, and nothing else announces any. */
  lemma {:induction false} JobsAreAnnouncedInOrder(p: Answers.Pool, all: seq<Asking>)
    requires p.notified
    ensures var jobs := Announced(AllReplies(p, all));
            && AfterAll(p, all) == p.(jobSeq := p.jobSeq + |jobs|)
            && forall i | 0 <= i < |jobs| :: jobs[i] == p.jobSeq + 1 + i
    decreases |all|
  {
    if all != [] {
      var a, rest := all[0], all[1..];
      var p' := After(p, a.m);
      AnnouncedReplies(p, a.id, a.m);
      AnnouncedAppend(Replies(p, a.id, a.m), AllReplies(p', rest));
      JobsAreAnnouncedInOrder(p', rest);
      var now, later := Announced(Replies(p, a.id, a.m)), Announced(AllReplies(p', rest));
      assert Announced(AllReplies(p, all)) == now + later;
    }
  }
}
