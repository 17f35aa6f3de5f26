/**
 The client's end of the connection: lines cut into pieces, received byte by byte under a
 deadline, and requests matched with their answers.

 What the kernel and the clock do is a script: how many bytes each `send` takes, what each
 `select` and `recv` finds, and when a deadline lapses, which is when its script ends.
 */
module Wire {
  import opened JsonGrammar
  import opened Matchers
  import opened Messages

  const MAX_LINE: nat := 0x1_0000

  /** A byte is ready (or the end of the stream), nothing is, or the connection is broken. */
  datatype Poll = Byte | Quiet | Broken

  datatype Received = Line(line: string, rest: string) | Lapsed(rest: string) | Lost(rest: string)

  /** `receive_line` after `line` has been collected. */
  function Receive(line: string, stream: string, polls: seq<Poll>): Received
    decreases polls
  {
    if polls == [] then Lapsed(stream)
    else match polls[0]
      case Quiet => Receive(line, stream, polls[1..])
      case Broken => Lost(stream)
      case Byte =>
        if stream == [] then Lost(stream)
        else if stream[0] == '\n' then Line(line, stream[1..])
        else if stream[0] == '\r' then Receive(line, stream[1..], polls[1..])
        else if |line| >= MAX_LINE then Lost(stream[1..])
        else Receive(line + [stream[0]], stream[1..], polls[1..])
  }

  function Bytes(polls: seq<Poll>): nat {
    if polls == [] then 0 else (if polls[0].Byte? then 1 else 0) + Bytes(polls[1..])
  }

  /** The connection holds and more than `n` bytes are ready before the deadline. */
  predicate Calm(polls: seq<Poll>, n: nat) { Broken !in polls && Bytes(polls) > n }

  /** A line whose last byte is ready before the deadline arrives unchanged. */
  lemma {:induction false} LineArrives(line: string, s: string, rest: string, polls: seq<Poll>)
    requires OneLine(s) && |line| + |s| <= MAX_LINE && Calm(polls, |s|)
    ensures Receive(line, s + (['\n'] + rest), polls) == Line(line + s, rest)
    decreases polls
  {
    var stream := s + (['\n'] + rest);
    assert polls != [] && polls[0] in polls;
    assert Broken !in polls[1..];
    if polls[0].Quiet? {
      LineArrives(line, s, rest, polls[1..]);
    } else if s == [] {
      assert stream == ['\n'] + rest && stream[1..] == rest && line + s == line;
    } else {
      assert stream[0] == s[0] && stream[1..] == s[1..] + (['\n'] + rest);
      LineArrives(line + [s[0]], s[1..], rest, polls[1..]);
      assert (line + [s[0]]) + s[1..] == line + s;
    }
  }

  /** A carriage return before the newline is dropped. */
  lemma {:induction false} CarriageReturnIsDropped(line: string, s: string, rest: string, polls: seq<Poll>)
    requires OneLine(s) && |line| + |s| <= MAX_LINE && Calm(polls, |s| + 1)
    ensures Receive(line, s + (['\r', '\n'] + rest), polls) == Line(line + s, rest)
    decreases polls
  {
    var stream := s + (['\r', '\n'] + rest);
    assert polls != [] && polls[0] in polls;
    assert Broken !in polls[1..];
    if polls[0].Quiet? {
      CarriageReturnIsDropped(line, s, rest, polls[1..]);
    } else if s == [] {
      assert stream == ['\r', '\n'] + rest && stream[1..] == [] + (['\n'] + rest);
      LineArrives(line, [], rest, polls[1..]);
      assert line + [] == line + s;
    } else {
      assert stream[0] == s[0] && stream[1..] == s[1..] + (['\r', '\n'] + rest);
      CarriageReturnIsDropped(line + [s[0]], s[1..], rest, polls[1..]);
      assert (line + [s[0]]) + s[1..] == line + s;
    }
  }

  /** The connection is given up at the first character beyond the limit. */
  lemma {:induction false} LongLineIsLost(line: string, s: string, c: char, rest: string, polls: seq<Poll>)
    requires OneLine(s) && |line| + |s| == 65536 && c != '\n' && c != '\r' && Calm(polls, |s|)
    ensures Receive(line, s + ([c] + rest), polls) == Lost(rest)
    decreases polls
  {
    var stream := s + ([c] + rest);
    assert polls != [] && polls[0] in polls;
    assert Broken !in polls[1..];
    if polls[0].Quiet? {
      LongLineIsLost(line, s, c, rest, polls[1..]);
    } else if s == [] {
      assert stream == [c] + rest && stream[1..] == rest;
    } else {
      assert stream[0] == s[0] && stream[1..] == s[1..] + ([c] + rest);
      LongLineIsLost(line + [s[0]], s[1..], c, rest, polls[1..]);
    }
  }

  /** What a lapsed deadline costs: the bytes read so far, none of which ends a line. */
  lemma {:induction false} LapseLosesTheFront(line: string, stream: string, polls: seq<Poll>)
    requires Receive(line, stream, polls).Lapsed?
    ensures var rest := Receive(line, stream, polls).rest;
            && |rest| <= |stream| && rest == stream[|stream| - |rest|..]
            && forall i | 0 <= i < |stream| - |rest| :: stream[i] != '\n'
    decreases polls
  {
    if polls != [] {
      if polls[0].Quiet? {
        LapseLosesTheFront(line, stream, polls[1..]);
      } else if polls[0].Byte? && stream != [] {
        var more := if stream[0] == '\r' then line else line + [stream[0]];
        LapseLosesTheFront(more, stream[1..], polls[1..]);
        var rest := Receive(line, stream, polls).rest;
        forall i | 0 <= i < |stream| - |rest| ensures stream[i] != '\n' {
          assert i > 0 ==> stream[i] == stream[1..][i - 1];
        }
      }
    }
  }

  // ----- waiting -----

  /** What `request_response` ends with: the answer, or nothing; and the lines it dropped. */
  datatype Outcome =
    | Got(line: string, rest: string, dropped: seq<string>)
    | Nothing(connected: bool, rest: string, dropped: seq<string>)

  /** `turns` are the calls of `receive_line`, until the deadline of ten seconds. */
  function Await(id: nat, stream: string, turns: seq<seq<Poll>>, dropped: seq<string>): Outcome
    decreases turns
  {
    if turns == [] then Nothing(true, stream, dropped)
    else match Receive([], stream, turns[0])
      case Lost(rest) => Nothing(false, rest, dropped)
      case Lapsed(rest) => Await(id, rest, turns[1..], dropped)
      case Line(line, rest) =>
        if ParseMessageId(line) == Some(id) then Got(line, rest, dropped)
        else Await(id, rest, turns[1..], dropped + [line])
  }

  /** A turn of `wait_for_job`: the load of the stop flag, and a call of `receive_line`. */
  datatype Turn = Turn(stop: bool, polls: seq<Poll>)

  datatype Wait = Found(job: Job, rest: string) | NoJob(connected: bool, rest: string)

  function WaitForJob(stream: string, turns: seq<Turn>): Wait
    decreases turns
  {
    if turns == [] || turns[0].stop then NoJob(true, stream)
    else match Receive([], stream, turns[0].polls)
      case Lost(rest) => NoJob(false, rest)
      case Lapsed(rest) => WaitForJob(rest, turns[1..])
      case Line(line, rest) =>
        match ParseNotify(line)
        case Some(job) => Found(job, rest)
        case None => WaitForJob(rest, turns[1..])
  }

  // ----- lines in a row -----

  /** Lines as they stand on the wire, before what follows them. */
  function Sent(lines: seq<string>, rest: string): string {
    if lines == [] then rest else lines[0] + (['\n'] + Sent(lines[1..], rest))
  }

  predicate Sendable(line: string) { OneLine(line) && |line| <= MAX_LINE }

  lemma {:induction false} LineIsHeard(line: string, rest: string, polls: seq<Poll>)
    requires Sendable(line) && Calm(polls, MAX_LINE)
    ensures Receive([], line + (['\n'] + rest), polls) == Line(line, rest)
  {
    LineArrives([], line, rest, polls);
    assert [] + line == line;
  }

  /** As long as every line is there in time, `request_response` finds the first line with the
      identifier it waits for, and drops exactly the lines before it, notifies included. */
  lemma {:induction false} AwaitFindsTheAnswer(id: nat, before: seq<string>, answer: string, rest: string,
                                               turns: seq<seq<Poll>>, dropped: seq<string>)
    requires Sendable(answer) && ParseMessageId(answer) == Some(id)
    requires forall b | b in before :: Sendable(b) && ParseMessageId(b) != Some(id)
    requires |turns| > |before| && forall t | t in turns :: Calm(t, MAX_LINE)
    ensures Await(id, Sent(before + [answer], rest), turns, dropped) == Got(answer, rest, dropped + before)
    decreases before
  {
    assert turns[0] in turns;
    if before == [] {
      assert Sent(before + [answer], rest) == answer + (['\n'] + rest) by {
        assert before + [answer] == [answer];
        assert Sent([], rest) == rest;
      }
      assert dropped + before == dropped;
      LineIsHeard(answer, rest, turns[0]);
    } else {
      assert before[0] in before;
      assert (before + [answer])[1..] == before[1..] + [answer];
      LineIsHeard(before[0], Sent(before[1..] + [answer], rest), turns[0]);
      AwaitFindsTheAnswer(id, before[1..], answer, rest, turns[1..], dropped + [before[0]]);
      assert (dropped + [before[0]]) + before[1..] == dropped + before;
    }
  }

  /** Likewise `wait_for_job` finds the first notify. */
  lemma {:induction false} WaitFindsTheJob(before: seq<string>, notify: string, rest: string, turns: seq<Turn>)
    requires Sendable(notify) && ParseNotify(notify).Some?
    requires forall b | b in before :: Sendable(b) && ParseNotify(b) == None
    requires |turns| > |before| && forall t | t in turns :: !t.stop && Calm(t.polls, MAX_LINE)
    ensures WaitForJob(Sent(before + [notify], rest), turns) == Found(ParseNotify(notify).value, rest)
    decreases before
  {
    assert turns[0] in turns;
    if before == [] {
      assert Sent(before + [notify], rest) == notify + (['\n'] + rest) by {
        assert before + [notify] == [notify];
        assert Sent([], rest) == rest;
      }
      LineIsHeard(notify, rest, turns[0].polls);
    } else {
      assert before[0] in before;
      assert (before + [notify])[1..] == before[1..] + [notify];
      LineIsHeard(before[0], Sent(before[1..] + [notify], rest), turns[0].polls);
      WaitFindsTheJob(before[1..], notify, rest, turns[1..]);
    }
  }
}
