/**
 A whole session on bytes: subscribe, authorize, and round after round of a submit and the
 next job.  Every request is written, received by the pool, answered, and read back.
 */
module ByteSession {
  import opened JsonGrammar
  import opened Matchers
  import opened Messages
  import opened Wire
  import opened Client
  import opened FakePool
  import opened Exchange
  import Answers

  /** What the kernel and the clock do to one request and the wait for a job after it. */
  datatype Luck = Luck(takes: seq<int>, turns: seq<seq<Poll>>, jobTurns: seq<Turn>)

  datatype Step = Done(line: string, rest: string, pool: Answers.Pool) | Failed

  /** One request: what the client reads and leaves unread, and the pool afterwards. */
  function Ask(id: nat, m: Method, args: seq<string>, p: Answers.Pool, incoming: string, luck: Luck): Step
    requires args != []
  {
    var request := Request(id, m, args);
    var (out, p') := ServeStream(p, request + ['\n']);
    match CallOutcome(true, incoming + out, request, id, luck.takes, luck.turns)
    case Got(line, rest, _) => Done(line, rest, p')
    case Nothing(_, _, _) => Failed
  }

  datatype Round = Round(nonce: nat, luck: Luck)

  /** Between two rounds: the pool, what the client has not read, its next identifier, what
      will happen to its next wait, and the jobs whose shares have been accepted. */
  datatype State =
    | Open(pool: Answers.Pool, incoming: string, id: nat, luck: Luck, accepted: seq<string>)
    | Over(accepted: seq<string>)

  /** Subscribe and authorize, from the first byte on. */
  function Start(agent: string, user: string, password: string, luck: Luck, luck': Luck): State {
    match Ask(1, Subscribe, [agent], Answers.Pool(false, 1), [], luck)
    case Failed => Over([])
    case Done(line, rest, p) =>
      if !ParseErrorIsNull(line) then Over([])
      else match Ask(2, Authorize, [user, password], p, rest, luck')
        case Failed => Over([])
        case Done(line', rest', p') =>
          if ParseBoolResult(line') == Some(true) then Open(p', rest', 3, luck', []) else Over([])
  }

  /** Wait for a job and submit a share for it. */
  function Next(user: string, s: State, r: Round): State {
    if s.Over? then s
    else match WaitForJob(s.incoming, s.luck.jobTurns)
      case NoJob(_, _) => Over(s.accepted)
      case Found(job, rest) =>
        match Ask(s.id, Submit, [user, job.id, NonceHex(r.nonce)], s.pool, rest, r.luck)
        case Failed => Over(s.accepted)
        case Done(line, rest', p') =>
          if ParseBoolResult(line) == Some(true) then Open(p', rest', s.id + 1, r.luck, s.accepted + [job.id])
          else Over(s.accepted)
  }

  /** The states that a session goes through, one round after the other. */
  ghost predicate IsRun(user: string, trace: seq<State>, rounds: seq<Round>) {
    |trace| == |rounds| + 1 && forall i | 0 <= i < |rounds| :: trace[i + 1] == Next(user, trace[i], rounds[i])
  }

  /** A share that is refused ends the session, and is not counted. */
  lemma {:induction false} RefusedShareEnds(user: string, s: State, r: Round, job: Job, rest: string,
                                            line: string, rest': string, p: Answers.Pool)
    requires s.Open? && WaitForJob(s.incoming, s.luck.jobTurns) == Found(job, rest)
    requires Ask(s.id, Submit, [user, job.id, NonceHex(r.nonce)], s.pool, rest, r.luck) == Done(line, rest', p)
    requires Answers.HasResult(line, "false")
    ensures Next(user, s, r) == Over(s.accepted)
  {
    Answers.VerdictIsHeard(line);
  }

  // ----- when all lines come in time -----

  /** The next job is there in time, and nobody stops the wait. */
  predicate Waits(luck: Luck) {
    luck.jobTurns != [] && forall t | t in luck.jobTurns :: !t.stop && Calm(t.polls, MAX_LINE)
  }

  /** The request fits into a line, and nothing is cut, broken or stopped. */
  predicate Smooth(request: string, luck: Luck) {
    && |request| <= MAX_LINE && Accepts(luck.takes, |request| + 1)
    && luck.turns != [] && (forall t | t in luck.turns :: Calm(t, MAX_LINE))
    && Waits(luck)
  }

  lemma {:induction false} OneLineIsServed(p: Answers.Pool, request: string)
    requires OneLine(request)
    ensures ServeStream(p, request + ['\n']) == (Sent(Answers.Serve(p, request).0, []), Answers.Serve(p, request).1)
  {
    TakeLineOfLine(request, []);
    assert request + (['\n'] + []) == request + ['\n'];
    ServeStep(p, request + ['\n'], request, []);
    assert Sent(Answers.Serve(p, request).0, []) + [] == Sent(Answers.Serve(p, request).0, []);
  }

  lemma {:induction false} AskSucceeds(id: nat, m: Method, args: seq<string>, p: Answers.Pool, luck: Luck)
    requires args != [] && id <= MAX_NUMBER && Smooth(Request(id, m, args), luck)
    ensures Ask(id, m, args, p, [], luck)
         == Done(Answers.TextOf(Answers.Answer(id, VerdictOf(m))), Sent(Texts(Replies(p, id, m))[1..], []), After(p, m))
  {
    var request := Request(id, m, args);
    RequestIsOneLine(id, m, args);
    OneLineIsServed(p, request);
    RequestIsAnswered(id, m, args, p, [], luck.takes, luck.turns);
    var lines := Answers.Serve(p, request).0;
    assert [] + lines == lines && [] + Sent(lines, []) == Sent(lines, []);
  }

  lemma {:induction false} SubmitSucceeds(user: string, id: nat, p: Answers.Pool, r: Round)
    requires id <= MAX_NUMBER && Smooth(Request(id, Submit, [user, JobId(p.jobSeq), NonceHex(r.nonce)]), r.luck)
    ensures var answer := Answers.TextOf(Answers.Answer(id, Answers.Accepted));
            && Ask(id, Submit, [user, JobId(p.jobSeq), NonceHex(r.nonce)], p, [], r.luck)
               == Done(answer, Sent([Notify(p.jobSeq + 1)], []), After(p, Submit))
            && ParseBoolResult(answer) == Some(true)
  {
    AskSucceeds(id, Submit, [user, JobId(p.jobSeq), NonceHex(r.nonce)], p, r.luck);
    ResponseIsHeard(id, Answers.Accepted);
    TextsOfReplies(p, id, Submit);
    assert Texts(Replies(p, id, Submit))[1..] == [Notify(p.jobSeq + 1)];
  }

  /** The state after `k` shares: the job announced last is job number `k + 1`. */
  predicate At(s: State, k: nat) {
    && s.Open? && s.pool == Answers.Pool(true, k + 1) && s.incoming == Sent([Notify(k + 1)], [])
    && s.id == k + 3 && Waits(s.luck) && s.accepted == Jobs(k)
  }

  /** The names of the first `n` jobs. */
  function Jobs(n: nat): (names: seq<string>)
    ensures |names| == n && forall i | 0 <= i < n :: names[i] == JobId(i + 1)
  {
    if n == 0 then [] else Jobs(n - 1) + [JobId(n)]
  }

  lemma {:induction false} RoundSucceeds(user: string, s: State, k: nat, r: Round)
    requires At(s, k) && k < 0xFFFF_FFFF
    requires Smooth(Request(k + 3, Submit, [user, JobId(k + 1), NonceHex(r.nonce)]), r.luck)
    ensures At(Next(user, s, r), k + 1)
  {
    JobIsFound(k + 1, s.luck.jobTurns);
    SubmitSucceeds(user, k + 3, s.pool, r);
  }

  /** Every request of the session fits into a line, and nothing happens to it. */
  predicate SmoothRounds(user: string, rounds: seq<Round>) {
    forall k | 0 <= k < |rounds| ::
      Smooth(Request(k + 3, Submit, [user, JobId(k + 1), NonceHex(rounds[k].nonce)]), rounds[k].luck)
  }

  lemma {:induction false} RoundsSucceed(user: string, trace: seq<State>, rounds: seq<Round>, k: nat)
    requires IsRun(user, trace, rounds) && SmoothRounds(user, rounds) && At(trace[0], 0)
    requires k <= |rounds| < 0xFFFF_FFFF
    ensures At(trace[k], k)
  {
    if k > 0 {
      RoundsSucceed(user, trace, rounds, k - 1);
      RoundSucceeds(user, trace[k - 1], k - 1, rounds[k - 1]);
      assert trace[k - 1 + 1] == Next(user, trace[k - 1], rounds[k - 1]);
    }
  }

  lemma {:induction false} StartSucceeds(agent: string, user: string, password: string, luck: Luck, luck': Luck)
    requires Smooth(Request(1, Subscribe, [agent]), luck) && Smooth(Request(2, Authorize, [user, password]), luck')
    ensures At(Start(agent, user, password, luck, luck'), 0)
  {
    var p := Answers.Pool(false, 1);
    AskSucceeds(1, Subscribe, [agent], p, luck);
    ResponseIsHeard(1, Answers.Subscribed);
    TextsOfReplies(p, 1, Subscribe);
    assert Texts(Replies(p, 1, Subscribe))[1..] == [] && Sent([], []) == [];
    AskSucceeds(2, Authorize, [user, password], p, luck');
    ResponseIsHeard(2, Answers.Accepted);
    TextsOfReplies(p, 2, Authorize);
    assert Texts(Replies(p, 2, Authorize))[1..] == [Notify(1)];
  }

  /** For any agent, user and password, and any number of rounds: without faults the session
      stays open, and after each round the i-th accepted share is for job-i, on bytes. */
  lemma {:induction false} SessionSucceeds(agent: string, user: string, password: string, luck: Luck, luck': Luck,
                                           trace: seq<State>, rounds: seq<Round>)
    requires |rounds| < 0xFFFF_FFFF && IsRun(user, trace, rounds)
    requires trace[0] == Start(agent, user, password, luck, luck')
    requires Smooth(Request(1, Subscribe, [agent]), luck) && Smooth(Request(2, Authorize, [user, password]), luck')
    requires SmoothRounds(user, rounds)
    ensures forall k | 0 <= k <= |rounds| ::
              && trace[k].Open? && |trace[k].accepted| == k
              && forall i | 0 <= i < k :: trace[k].accepted[i] == JobId(i + 1)
  {
    StartSucceeds(agent, user, password, luck, luck');
    forall k | 0 <= k <= |rounds|
      ensures trace[k].Open? && trace[k].accepted == Jobs(k)
    {
      RoundsSucceed(user, trace, rounds, k);
    }
  }
}
