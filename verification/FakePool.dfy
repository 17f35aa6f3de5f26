/**
 The fake pool: it receives one line after the other, answers each, and announces a job
 after the first authorization and after every submit.
 */
module FakePool {
  import opened JsonGrammar
  import opened Matchers
  import opened Messages
  import opened Wire
  import Answers

  // ----- the pool receives -----

  /** The bytes before the first newline, without carriage returns, and what follows it. */
  function TakeLine(stream: string): (r: Option<(string, string)>)
    ensures r.Some? ==> |r.value.1| < |stream|
  {
    if stream == [] then None
    else if stream[0] == '\n' then Some(([], stream[1..]))
    else match TakeLine(stream[1..])
      case None => None
      case Some((line, rest)) => Some((if stream[0] == '\r' then line else [stream[0]] + line, rest))
  }

  lemma {:induction false} TakeLineOfLine(line: string, rest: string)
    requires OneLine(line)
    ensures TakeLine(line + (['\n'] + rest)) == Some((line, rest))
  {
    var s := line + (['\n'] + rest);
    if line == [] {
      assert s[0] == '\n' && s[1..] == rest;
    } else {
      TakeLineOfLine(line[1..], rest);
      assert s[0] == line[0] && s[1..] == line[1..] + (['\n'] + rest);
      assert [line[0]] + line[1..] == line;
    }
  }

  /** A carriage return before the newline is no part of the line. */
  lemma {:induction false} TakeLineDropsReturn(line: string, rest: string)
    requires OneLine(line)
    ensures TakeLine(line + (['\r', '\n'] + rest)) == Some((line, rest))
  {
    var s := line + (['\r', '\n'] + rest);
    if line == [] {
      assert s[0] == '\r' && s[1..] == [] + (['\n'] + rest);
      TakeLineOfLine([], rest);
    } else {
      TakeLineDropsReturn(line[1..], rest);
      assert s[0] == line[0] && s[1..] == line[1..] + (['\r', '\n'] + rest);
      assert [line[0]] + line[1..] == line;
    }
  }

  function Before(line: string, r: Option<(string, string)>): Option<(string, string)> {
    if r.None? then None else Some((line + r.value.0, r.value.1))
  }

  lemma BeforeMore(line: string, c: char, r: Option<(string, string)>)
    ensures Before(line, Before([c], r)) == Before(line + [c], r)
    ensures Before([], r) == r
  {
    if r.Some? {
      assert line + ([c] + r.value.0) == (line + [c]) + r.value.0;
      assert [] + r.value.0 == r.value.0;
    }
  }

  /** The pool's `receive_line`: no bound, no deadline; it fails only at the end of the stream. */
  method ReceiveLine(stream: string) returns (ok: bool, out: string, rest: string)
    ensures TakeLine(stream) == if ok then Some((out, rest)) else None
  {
    out := [];
    var pos := 0;
    assert stream[0..] == stream;
    BeforeMore([], '\n', TakeLine(stream));
    while pos < |stream|
      invariant 0 <= pos <= |stream|
      invariant TakeLine(stream) == Before(out, TakeLine(stream[pos..]))
    {
      var ch := stream[pos];
      assert stream[pos..][0] == ch && stream[pos..][1..] == stream[pos + 1..];
      pos := pos + 1;
      if ch == '\n' {
        assert out + [] == out;
        return true, out, stream[pos..];
      }
      if ch != '\r' {
        BeforeMore(out, ch, TakeLine(stream[pos..]));
        out := out + [ch];
      }
    }
    return false, out, [];
  }

  // ----- the pool's loop -----

  /** What the pool sends for a stream of bytes, and what becomes of it. */
  function ServeStream(p: Answers.Pool, stream: string): (string, Answers.Pool)
    decreases |stream|
  {
    match TakeLine(stream)
    case None => ([], p)
    case Some((line, rest)) =>
      var (lines, p') := Answers.Serve(p, line);
      var (out, p'') := ServeStream(p', rest);
      (Sent(lines, out), p'')
  }

  lemma {:induction false} SentThen(lines: seq<string>, rest: string)
    ensures Sent(lines, rest) == Sent(lines, []) + rest
  {
    if lines != [] {
      SentThen(lines[1..], rest);
      var l := lines[0];
      assert l + (['\n'] + (Sent(lines[1..], []) + rest)) == (l + (['\n'] + Sent(lines[1..], []))) + rest;
    }
  }

  class Server {
    var notified: bool
    var jobSeq: nat
    /** Every byte the client will have sent and that has not been received yet. */
    var incoming: string
    var outgoing: string

    function State(): Answers.Pool reads this { Answers.Pool(notified, jobSeq) }

    constructor (incoming: string)
      ensures State() == Answers.Pool(false, 1) && this.incoming == incoming && outgoing == []
    {
      notified, jobSeq, this.incoming, outgoing := false, 1, incoming, [];
    }

    /** What `send_line` adds when the connection holds. */
    method SendLine(line: string)
      modifies this`outgoing
      ensures outgoing == old(outgoing) + Sent([line], [])
    {
      outgoing := outgoing + (line + ['\n']);
      assert ['\n'] + [] == ['\n'];
    }

    /** One turn of the loop. */
    method Answer(line: string)
      modifies this`notified, this`jobSeq, this`outgoing
      ensures (outgoing, State()) == (old(outgoing) + Sent(Answers.Serve(old(State()), line).0, []),
                                      Answers.Serve(old(State()), line).1)
    {
      var id := ParseId(line);
      if Contains(line, Mark(Subscribe)) {
        SendLine(Response(id, SUBSCRIPTION, "null"));
        return;
      }
      if Contains(line, Mark(Authorize)) {
        SendLine(Response(id, TRUE, "null"));
        if !notified {
          Two(outgoing, old(outgoing), Response(id, TRUE, "null"), Notify(jobSeq));
          SendLine(Notify(jobSeq));
          notified := true;
        }
        return;
      }
      if Contains(line, Mark(Submit)) {
        SendLine(Response(id, TRUE, "null"));
        jobSeq := jobSeq + 1;
        Two(outgoing, old(outgoing), Response(id, TRUE, "null"), Notify(jobSeq));
        SendLine(Notify(jobSeq));
        return;
      }
      SendLine(Response(id, "false", Answers.UNKNOWN_METHOD));
    }

    /** The loop: until the client is gone, every line is received and answered. */
    method Run()
      modifies this
      ensures (outgoing, State()) == (old(outgoing) + ServeStream(old(State()), old(incoming)).0,
                                      ServeStream(old(State()), old(incoming)).1)
      ensures TakeLine(incoming) == None
    {
      ghost var start, whole := outgoing, ServeStream(State(), incoming);
      ghost var left := whole;
      while true
        invariant left == ServeStream(State(), incoming)
        invariant start + whole.0 == outgoing + left.0 && whole.1 == left.1
        decreases |incoming|
      {
        var ok, line, rest := ReceiveLine(incoming);
        if !ok {
          assert outgoing + [] == outgoing;
          break;
        }
        ServeStep(State(), incoming, line, rest);
        ghost var sent, lines := outgoing, Answers.Serve(State(), line).0;
        incoming := rest;
        Answer(line);
        left := ServeStream(State(), incoming);
        Reassociate(sent, Sent(lines, []), left.0);
      }
    }
  }

  lemma Reassociate(a: string, b: string, c: string)
    ensures (a + b) + c == a + (b + c)
  {
  }

  lemma {:induction false} ServeStep(p: Answers.Pool, stream: string, line: string, rest: string)
    requires TakeLine(stream) == Some((line, rest))
    ensures var (lines, p') := Answers.Serve(p, line);
            var left := ServeStream(p', rest);
            ServeStream(p, stream) == (Sent(lines, []) + left.0, left.1)
  {
    var (lines, p') := Answers.Serve(p, line);
    SentThen(lines, ServeStream(p', rest).0);
  }

  lemma Two(now: string, before: string, first: string, second: string)
    ensures now == before + Sent([first], []) ==> now + Sent([second], []) == before + Sent([first, second], [])
  {
    assert [first, second][1..] == [second];
    SentThen([first], Sent([second], []));
    assert Sent([first, second], []) == Sent([first], Sent([second], []));
    assert (before + Sent([first], [])) + Sent([second], []) == before + (Sent([first], []) + Sent([second], []));
  }
}
