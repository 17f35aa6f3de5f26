/**
 `StratumClient`: the object that numbers requests, sends them and waits for their answers;
 and its exchange with the pool, byte for byte.
 */
module Client {
  import opened JsonGrammar
  import opened JsonPrinting
  import opened Matchers
  import opened Messages
  import opened Wire
  import Answers

  // ----- nonces -----

  function HexDigit(d: nat): char
    requires d < 16
  {
    if d < 10 then (d + '0' as nat) as char else (d - 10 + 'a' as nat) as char
  }

  /** The last `width` digits of a number in base 16, with zeros in front. */
  function Hex(n: nat, width: nat): (s: string)
    ensures |s| == width
  {
    if width == 0 then [] else Hex(n / 16, width - 1) + [HexDigit(n % 16)]
  }

  function HexValue(s: string): nat {
    if s == [] then 0
    else
      var c := s[|s| - 1];
      16 * HexValue(s[..|s| - 1])
        + if '0' <= c <= '9' then c as nat - '0' as nat else if 'a' <= c <= 'f' then c as nat - 'a' as nat + 10 else 0
  }

  function Power16(width: nat): nat { if width == 0 then 1 else 16 * Power16(width - 1) }

  lemma {:induction false} HexRoundTrip(n: nat, width: nat)
    requires n < Power16(width)
    ensures HexValue(Hex(n, width)) == n
  {
    if width > 0 {
      HexRoundTrip(n / 16, width - 1);
      assert Hex(n, width)[..width - 1] == Hex(n / 16, width - 1);
    }
  }

  /** `nonce_to_hex`. */
  function NonceHex(nonce: nat): string { Hex(nonce, 8) }

  /** No two nonces are submitted under one name. */
  lemma {:induction false} NonceHexRoundTrip(nonce: nat)
    requires nonce < 0x1_0000_0000
    ensures |NonceHex(nonce)| == 8 && HexValue(NonceHex(nonce)) == nonce
  {
    assert Power16(8) == 0x1_0000_0000;
    HexRoundTrip(nonce, 8);
  }

  /** The digits are `0` to `9` and, in lower case, `a` to `f`. */
  lemma HexDigitCodes(d: nat)
    requires d < 16
    ensures HexDigit(d) as int == if d < 10 then 48 + d else 97 + (d - 10)
  {
  }

  // ----- sending -----

  /** Whether the kernel takes `left` bytes when the calls of `send` return `takes`. */
  predicate Accepts(takes: seq<int>, left: nat)
    decreases takes
  {
    left == 0 || (takes != [] && takes[0] > 0 && (takes[0] >= left || Accepts(takes[1..], left - takes[0])))
  }

  function Total(takes: seq<int>): int { if takes == [] then 0 else takes[0] + Total(takes[1..]) }

  /** The first `k` calls each take some bytes, and together all of them. */
  predicate Suffices(takes: seq<int>, left: nat, k: nat) {
    k <= |takes| && Total(takes[..k]) >= left && forall i | 0 <= i < k :: takes[i] > 0
  }

  /** A line is sent when some number of calls suffices. */
  lemma {:induction false} AcceptsMeans(takes: seq<int>, left: nat)
    ensures Accepts(takes, left) <==> exists k :: Suffices(takes, left, k)
    decreases takes
  {
    assert takes[..0] == [];
    if left == 0 {
      assert Suffices(takes, left, 0);
    } else if takes != [] && takes[0] > 0 {
      OneMoreCall(takes, left, 0);
      if takes[0] >= left {
        assert Suffices(takes, left, 1);
      } else {
        AcceptsMeans(takes[1..], left - takes[0]);
        if Accepts(takes, left) {
          var k :| Suffices(takes[1..], left - takes[0], k);
          OneMoreCall(takes, left, k);
        }
        assert Total(takes[..0]) == 0;
        if k: nat :| Suffices(takes, left, k) {
          assert k > 0;
          OneMoreCall(takes, left, k - 1);
          assert Suffices(takes[1..], left - takes[0], k - 1);
        }
      }
    }
  }

  lemma {:induction false} OneMoreCall(takes: seq<int>, left: nat, k: nat)
    requires takes != [] && takes[0] > 0
    ensures Suffices(takes, left, k + 1) <==>
              k < |takes| && Total(takes[1..][..k]) >= left - takes[0] && forall i | 0 <= i < k :: takes[1..][i] > 0
  {
    if k < |takes| {
      assert takes[..k + 1][1..] == takes[1..][..k];
      assert forall i | 0 < i < |takes| :: takes[i] == takes[1..][i - 1];
    }
  }

  /** The response a request ends with, if it ends with one. */
  function CallOutcome(connected: bool, incoming: string, request: string, id: nat,
                takes: seq<int>, turns: seq<seq<Poll>>): Outcome
  {
    if connected && |request| <= MAX_LINE && Accepts(takes, |request| + 1) then Await(id, incoming, turns, [])
    else Nothing(false, incoming, [])
  }

  datatype Link = Link(connected: bool, nextId: nat, incoming: string, outgoing: string)

  /** The client has used up one identifier for a request that ended with `o`. */
  predicate Asked(before: Link, after: Link, m: Method, args: seq<string>, o: Outcome)
    requires args != []
  {
    var line := Request(before.nextId, m, args) + ['\n'];
    && after.nextId == (before.nextId + 1) % (MAX_NUMBER + 1)
    && after.connected == (o.Got? || o.connected) && after.incoming == o.rest
    && before.outgoing <= after.outgoing <= before.outgoing + line
    && (o.Got? ==> after.outgoing == before.outgoing + line)
  }

  function Ending(before: Link, m: Method, args: seq<string>, takes: seq<int>, turns: seq<seq<Poll>>): Outcome
    requires args != []
  {
    CallOutcome(before.connected, before.incoming, Request(before.nextId, m, args), before.nextId, takes, turns)
  }

  class StratumClient {
    var connected: bool
    var nextId: nat
    /** Every byte the pool will have sent and that has not been received yet. */
    var incoming: string
    /** Every byte that the kernel has taken. */
    var outgoing: string

    predicate Valid() reads this { nextId <= MAX_NUMBER }

    function State(): Link reads this { Link(connected, nextId, incoming, outgoing) }

    /** A connection that has just been made. */
    constructor (incoming: string)
      ensures Valid() && connected && nextId == 1 && this.incoming == incoming && outgoing == []
    {
      connected, nextId, this.incoming, outgoing := true, 1, incoming, [];
    }

    method SendLine(line: string, takes: seq<int>) returns (ok: bool)
      modifies this`connected, this`outgoing
      ensures ok <==> old(connected) && |line| <= MAX_LINE && Accepts(takes, |line| + 1)
      ensures connected == ok
      ensures ok ==> outgoing == old(outgoing) + (line + ['\n'])
      ensures old(outgoing) <= outgoing <= old(outgoing) + (line + ['\n'])
    {
      if !connected { return false; }
      if |line| > MAX_LINE {
        connected := false;
        return false;
      }
      var out := line + ['\n'];
      var ptr, left, call := 0, |out|, 0;
      while left > 0
        invariant 0 <= ptr <= |out| && left == |out| - ptr && call <= |takes| && connected
        invariant outgoing == old(outgoing) + out[..ptr]
        invariant Accepts(takes, |out|) <==> Accepts(takes[call..], left)
        decreases left
      {
        if call == |takes| || takes[call] <= 0 {
          connected := false;
          return false;
        }
        assert takes[call..][0] == takes[call] && takes[call..][1..] == takes[call + 1..];
        var sent := if takes[call] > left then left else takes[call];
        assert out[..ptr + sent] == out[..ptr] + out[ptr..ptr + sent];
        outgoing := outgoing + out[ptr..ptr + sent];
        left := left - sent;
        ptr := ptr + sent;
        call := call + 1;
      }
      assert out[..ptr] == out;
      return true;
    }

    method ReceiveLine(polls: seq<Poll>) returns (ok: bool, line: string)
      modifies this`connected, this`incoming
      ensures !old(connected) ==> !ok && !connected && incoming == old(incoming)
      ensures old(connected) ==>
                match Receive([], old(incoming), polls)
                case Line(l, rest) => ok && line == l && connected && incoming == rest
                case Lapsed(rest) => !ok && connected && incoming == rest
                case Lost(rest) => !ok && !connected && incoming == rest
    {
      line := [];
      if !connected { return false, line; }
      var now := 0;
      while now < |polls|
        invariant now <= |polls| && connected
        invariant Receive(line, incoming, polls[now..]) == Receive([], old(incoming), polls)
      {
        assert polls[now..][0] == polls[now] && polls[now..][1..] == polls[now + 1..];
        var poll := polls[now];
        now := now + 1;
        if poll == Broken {
          connected := false;
          return false, line;
        }
        if poll == Byte {
          if incoming == [] {
            connected := false;
            return false, line;
          }
          var ch := incoming[0];
          incoming := incoming[1..];
          if ch == '\n' { return true, line; }
          if ch != '\r' {
            if |line| >= MAX_LINE {
              connected := false;
              return false, line;
            }
            line := line + [ch];
          }
        }
      }
      ok := false;
    }

    /** `request_response`: a request without an identifier is not even sent. */
    method RequestResponse(request: string, takes: seq<int>, turns: seq<seq<Poll>>)
      returns (ok: bool, response: string)
      modifies this`connected, this`incoming, this`outgoing
      ensures match ParseMessageId(request)
              case None => !ok && connected == old(connected) && incoming == old(incoming) && outgoing == old(outgoing)
              case Some(id) =>
                var o := CallOutcome(old(connected), old(incoming), request, id, takes, turns);
                && ok == o.Got? && (ok ==> response == o.line)
                && connected == (o.Got? || o.connected) && incoming == o.rest
      ensures ok ==> outgoing == old(outgoing) + (request + ['\n'])
      ensures old(outgoing) <= outgoing <= old(outgoing) + (request + ['\n'])
    {
      response := [];
      var parsed := ParseMessageId(request);
      if parsed.None? { return false, response; }
      var id := parsed.value;
      ok := SendLine(request, takes);
      if !ok { return; }
      var now := 0;
      ghost var dropped := [];
      while now < |turns|
        invariant now <= |turns| && connected && outgoing == old(outgoing) + (request + ['\n'])
        invariant Await(id, incoming, turns[now..], dropped) == Await(id, old(incoming), turns, [])
      {
        assert turns[now..][0] == turns[now] && turns[now..][1..] == turns[now + 1..];
        var received, line := ReceiveLine(turns[now]);
        now := now + 1;
        if !received {
          if !connected { return false, []; }
        } else {
          if ParseMessageId(line) == Some(id) { return true, line; }
          dropped := dropped + [line];
        }
      }
      ok := false;
    }

    /** `next_id_++`. */
    method NextId() returns (id: nat)
      requires Valid()
      modifies this`nextId
      ensures Valid() && id == old(nextId) && nextId == (id + 1) % (MAX_NUMBER + 1)
    {
      id := nextId;
      nextId := if id == MAX_NUMBER then 0 else id + 1;
    }

    method Subscribe(userAgent: string, takes: seq<int>, turns: seq<seq<Poll>>) returns (ok: bool)
      requires Valid()
      modifies this
      ensures Valid()
      ensures var o := Ending(old(State()), Messages.Subscribe, [userAgent], takes, turns);
              && Asked(old(State()), State(), Messages.Subscribe, [userAgent], o)
              && (ok <==> o.Got? && ParseErrorIsNull(o.line))
              && (o.Got? && Answers.IsVerdict(o.line, Answers.Subscribed) ==> ok)
              && (o.Got? && Answers.IsVerdict(o.line, Answers.Refused) ==> !ok)
    {
      var id := NextId();
      var agent := JsonEscape(userAgent);
      var params := ",\"params\":[" + ((['"'] + (agent + ['"'])) + "]}");
      var request := Head(id) + (Mark(Messages.Subscribe) + params);
      HeadIsRead(id, Mark(Messages.Subscribe) + params);
      assert request == Request(id, Messages.Subscribe, [userAgent]);
      var response;
      ok, response := RequestResponse(request, takes, turns);
      if ok {
        ok := ParseErrorIsNull(response);
        Heard(response);
      }
    }

    method Authorize(username: string, password: string, takes: seq<int>, turns: seq<seq<Poll>>) returns (ok: bool)
      requires Valid()
      modifies this
      ensures Valid()
      ensures var o := Ending(old(State()), Messages.Authorize, [username, password], takes, turns);
              && Asked(old(State()), State(), Messages.Authorize, [username, password], o)
              && (ok <==> o.Got? && ParseBoolResult(o.line) == Some(true))
              && (o.Got? && Answers.HasResult(o.line, "true") ==> ok)
              && (o.Got? && Answers.HasResult(o.line, "false") ==> !ok)
    {
      var id := NextId();
      var user := JsonEscape(username);
      var pass := JsonEscape(password);
      var list := (['"'] + (user + ['"'])) + ([','] + ((['"'] + (pass + ['"'])) + "]}"));
      ListOfTwo(username, password);
      var request := Head(id) + (Mark(Messages.Authorize) + (",\"params\":[" + list));
      HeadIsRead(id, Mark(Messages.Authorize) + (",\"params\":[" + list));
      var response;
      ok, response := RequestResponse(request, takes, turns);
      if ok {
        ok := ParseBoolResult(response) == Some(true);
        Answers.VerdictIsHeard(response);
      }
    }

    method SubmitShare(username: string, jobId: string, nonce: nat, takes: seq<int>, turns: seq<seq<Poll>>)
      returns (accepted: bool)
      requires Valid()
      modifies this
      ensures Valid()
      ensures var args := [username, jobId, NonceHex(nonce)];
              var o := Ending(old(State()), Messages.Submit, args, takes, turns);
              && Asked(old(State()), State(), Messages.Submit, args, o)
              && (accepted <==> o.Got? && ParseBoolResult(o.line) == Some(true))
              && (o.Got? && Answers.HasResult(o.line, "true") ==> accepted)
              && (o.Got? && Answers.HasResult(o.line, "false") ==> !accepted)
    {
      var id := NextId();
      var user := JsonEscape(username);
      var job := JsonEscape(jobId);
      var list := (['"'] + (user + ['"']))
                  + ([','] + ((['"'] + (job + ['"'])) + ([','] + ((['"'] + (NonceHex(nonce) + ['"'])) + "]}"))));
      ListOfThree(username, jobId, NonceHex(nonce));
      HexNeedsNoEscape(nonce, 8);
      var request := Head(id) + (Mark(Messages.Submit) + (",\"params\":[" + list));
      HeadIsRead(id, Mark(Messages.Submit) + (",\"params\":[" + list));
      var response;
      accepted, response := RequestResponse(request, takes, turns);
      if accepted {
        accepted := ParseBoolResult(response) == Some(true);
        Answers.VerdictIsHeard(response);
      }
    }

    method WaitForJob(turns: seq<Turn>) returns (ok: bool, job: Job)
      modifies this`connected, this`incoming
      ensures nextId == old(nextId) && outgoing == old(outgoing)
      ensures old(connected) ==>
                match Wire.WaitForJob(old(incoming), turns)
                case Found(j, rest) => ok && job == j && connected && incoming == rest
                case NoJob(c, rest) => !ok && connected == c && incoming == rest
      ensures !old(connected) ==> !ok && !connected && incoming == old(incoming)
    {
      ok, job := false, Job([], [], 20, true);
      var now := 0;
      while now < |turns|
        invariant now <= |turns| && connected == old(connected)
        invariant connected ==> Wire.WaitForJob(incoming, turns[now..]) == Wire.WaitForJob(old(incoming), turns)
        invariant !connected ==> incoming == old(incoming)
      {
        assert turns[now..][0] == turns[now] && turns[now..][1..] == turns[now + 1..];
        if turns[now].stop { return; }
        var received, line := ReceiveLine(turns[now].polls);
        now := now + 1;
        if !received {
          if !connected { return; }
        } else {
          var found := ParseNotify(line);
          if found.Some? { return true, found.value; }
        }
      }
    }
  }

  lemma {:induction false} Heard(line: string)
    ensures Answers.IsVerdict(line, Answers.Subscribed) ==> ParseErrorIsNull(line)
    ensures Answers.IsVerdict(line, Answers.Refused) ==> !ParseErrorIsNull(line)
  {
    if Answers.IsVerdict(line, Answers.Subscribed) { Answers.RefusalIsHeard(line, Answers.Subscribed); }
    if Answers.IsVerdict(line, Answers.Refused) { Answers.RefusalIsHeard(line, Answers.Refused); }
  }

  // ----- the texts of requests -----

  lemma ListOfOne(a: string)
    ensures List([a]) == Quoted(a) + "]}"
  {
  }

  lemma ListOfTwo(a: string, b: string)
    ensures List([a, b]) == Quoted(a) + ([','] + (Quoted(b) + "]}"))
  {
    assert [a, b][1..] == [b];
    ListOfOne(b);
  }

  lemma ListOfThree(a: string, b: string, c: string)
    ensures List([a, b, c]) == Quoted(a) + ([','] + (Quoted(b) + ([','] + (Quoted(c) + "]}"))))
  {
    assert [a, b, c][1..] == [b, c];
    ListOfTwo(b, c);
  }

  lemma {:induction false} HexNeedsNoEscape(n: nat, width: nat)
    ensures Escaped(Hex(n, width)) == Hex(n, width)
  {
    if width > 0 {
      HexNeedsNoEscape(n / 16, width - 1);
      EscapedAppend(Hex(n / 16, width - 1), HexDigit(n % 16));
    }
  }

  lemma {:induction false} EscapedAppend(s: string, c: char)
    requires EscapeItem(c) == Raw(c)
    ensures Escaped(s + [c]) == Escaped(s) + [c]
  {
    if s == [] {
      assert [] + [c] == [c] && [c][1..] == [];
    } else {
      assert (s + [c])[0] == s[0] && (s + [c])[1..] == s[1..] + [c];
      EscapedAppend(s[1..], c);
    }
  }
}
