/**
 The client of `stratum.cpp` and the pool of `fake_pool.cpp` over two FIFO channels of
 lines, as a transition system.  Every step sends, receives or handles one line; faults
 may happen at any step.  The pool serves one connection for its whole life, so a later
 session of the client finds nobody answering.
 */
module Protocol {

  datatype Request = Subscribe(id: nat) | Authorize(id: nat) | Submit(id: nat, job: nat)

  /** `Notify(k)` is the announcement of "job-k". */
  datatype Message = Response(id: nat) | Notify(job: nat)

  datatype Phase =
    | Idle | SendSubscribe | AwaitSubscribe(id: nat) | SendAuthorize | AwaitAuthorize(id: nat)
    | CycleTest | WaitJob | Mining(job: nat) | SendSubmit(job: nat) | AwaitSubmit(id: nat, job: nat)
    | Ended(rc: nat)

  /** Between two lines the pool is about to read; after some responses it owes a notify. */
  datatype PoolPc = Reading | Announcing | SubmitAnswered

  /** From `handled` on these are history variables: submits answered by the pool, lines lost
      to a deadline in the middle of a line, jobs searched without a share, notifies dropped
      by `request_response`, and whether the response now waited for has been lost. */
  datatype State = State(
    maxCycles: nat,
    phase: Phase,
    nextId: nat,
    served: bool,
    toPool: seq<Request>,
    toClient: seq<Message>,
    taken: bool,
    alive: bool,
    pool: PoolPc,
    notified: bool,
    jobSeq: nat,
    accepted: seq<nat>,
    handled: nat,
    lost: nat,
    skipped: nat,
    discarded: nat,
    answerLost: bool)

  function Init(maxCycles: nat): State {
    State(maxCycles, Idle, 1, false, [], [], false, true, Reading, false, 1, [], 0, 0, 0, 0, false)
  }

  /** The second line: refused connection, timeout or broken connection, lost line, search
      without a share, stop request, death of the pool, and the start of a new session. */
  datatype Action =
    | Connect | Send | Receive | Test | FindShare | Serve | Announce
    | Refuse | Fail | LoseLine | NoShare | Stop | PoolDies | Reconnect

  predicate IsFault(a: Action) {
    a.Refuse? || a.Fail? || a.LoseLine? || a.NoShare? || a.Stop? || a.PoolDies? || a.Reconnect?
  }

  predicate Faultless(acts: seq<Action>) { forall a | a in acts :: !IsFault(a) }

  predicate Sending(p: Phase) { p.SendSubscribe? || p.SendAuthorize? || p.SendSubmit? }

  predicate Awaiting(p: Phase) { p.AwaitSubscribe? || p.AwaitAuthorize? || p.AwaitSubmit? }

  /** The exit code of a session that fails in a phase. */
  function FailureCode(p: Phase): nat
    requires Sending(p) || Awaiting(p) || p.WaitJob?
  {
    match p
    case WaitJob => 6
    case SendSubmit(_) => 8
    case AwaitSubmit(_, _) => 8
    case _ => 4
  }

  predicate Enabled(s: State, a: Action) {
    match a
    case Connect => s.phase.Idle?
    case Send => Sending(s.phase)
    case Receive => s.served && s.toClient != [] && (Awaiting(s.phase) || s.phase.WaitJob?)
    case Test => s.phase.CycleTest?
    case FindShare => s.phase.Mining?
    case Serve => s.taken && s.alive && s.pool.Reading? && s.toPool != []
    case Announce => s.alive && !s.pool.Reading?
    case Refuse => s.phase.Idle?
    case Fail => Sending(s.phase) || Awaiting(s.phase) || s.phase.WaitJob?
    case LoseLine => s.served && s.toClient != [] && (Awaiting(s.phase) || s.phase.WaitJob?)
    case NoShare => s.phase.Mining?
    case Stop => s.phase.CycleTest? || s.phase.WaitJob? || s.phase.Mining?
    case PoolDies => s.alive
    case Reconnect => s.phase.Ended? && s.phase.rc != 0
  }

  function Apply(s: State, a: Action): State
    requires Enabled(s, a)
  {
    match a
    case Connect => s.(phase := SendSubscribe, served := !s.taken, taken := true)
    case Send => SendStep(s)
    case Receive => ReceiveStep(s.(toClient := s.toClient[1..]), s.toClient[0])
    case Test => s.(phase := if s.maxCycles == 0 || |s.accepted| < s.maxCycles then WaitJob else Ended(0))
    case FindShare => s.(phase := SendSubmit(s.phase.job))
    case Serve => ServeStep(s.(toPool := s.toPool[1..]), s.toPool[0])
    case Announce =>
      if s.pool.Announcing? then s.(pool := Reading, notified := true, toClient := s.toClient + [Notify(s.jobSeq)])
      else s.(pool := Reading, jobSeq := s.jobSeq + 1, toClient := s.toClient + [Notify(s.jobSeq + 1)])
    case Refuse => s.(phase := Ended(4))
    case Fail => s.(phase := Ended(FailureCode(s.phase)))
    case LoseLine =>
      s.(toClient := s.toClient[1..], lost := s.lost + 1,
         answerLost := s.answerLost || (Awaiting(s.phase) && s.toClient[0] == Response(s.phase.id)))
    case NoShare => s.(phase := CycleTest, skipped := s.skipped + 1)
    case Stop => s.(phase := Ended(0))
    case PoolDies => s.(alive := false)
    case Reconnect => s.(phase := Idle, nextId := 1, served := false)
  }

  /** The client writes a request; on a connection nobody serves it goes nowhere. */
  function SendStep(s: State): State
    requires Sending(s.phase)
  {
    var id := s.nextId;
    var (request, phase) := match s.phase
      case SendSubscribe => (Subscribe(id), AwaitSubscribe(id))
      case SendAuthorize => (Authorize(id), AwaitAuthorize(id))
      case SendSubmit(j) => (Submit(id, j), AwaitSubmit(id, j));
    s.(phase := phase, nextId := id + 1, answerLost := false, toPool := if s.served then s.toPool + [request] else s.toPool)
  }

  /** `request_response` drops everything but the response it waits for; `wait_for_job`
      drops everything but a notify. */
  function ReceiveStep(s: State, m: Message): State
    requires Awaiting(s.phase) || s.phase.WaitJob?
  {
    match s.phase
    case WaitJob => if m.Notify? then s.(phase := Mining(m.job)) else s
    case AwaitSubscribe(id) => if m == Response(id) then s.(phase := SendAuthorize) else Drop(s, m)
    case AwaitAuthorize(id) => if m == Response(id) then s.(phase := CycleTest) else Drop(s, m)
    case AwaitSubmit(id, j) =>
      if m == Response(id) then s.(phase := CycleTest, accepted := s.accepted + [j]) else Drop(s, m)
  }

  function Drop(s: State, m: Message): State {
    if m.Notify? then s.(discarded := s.discarded + 1) else s
  }

  /** The pool answers first, and only then announces a job. */
  function ServeStep(s: State, r: Request): State {
    var s' := s.(toClient := s.toClient + [Response(r.id)]);
    match r
    case Subscribe(_) => s'
    case Authorize(_) => if s.notified then s' else s'.(pool := Announcing)
    case Submit(_, _) => s'.(pool := SubmitAnswered, handled := s.handled + 1)
  }

  predicate Legal(s: State, acts: seq<Action>)
    decreases acts
  {
    acts == [] || (Enabled(s, acts[0]) && Legal(Apply(s, acts[0]), acts[1..]))
  }

  function Exec(s: State, acts: seq<Action>): State
    requires Legal(s, acts)
    decreases acts
  {
    if acts == [] then s else Exec(Apply(s, acts[0]), acts[1..])
  }

  // ----- the invariant -----

  /** What the pool still owes the client for the lines it has read. */
  function Owed(s: State): seq<Message> {
    match s.pool
    case Reading => []
    case Announcing => [Notify(s.jobSeq)]
    case SubmitAnswered => [Notify(s.jobSeq + 1)]
  }

  /** What the client has yet to receive for the requests the pool has read. */
  function Pending(s: State): seq<Message> { s.toClient + Owed(s) }

  /** The i-th accepted share is for job-i. */
  ghost predicate AcceptedInOrder(s: State) {
    forall i | 0 <= i < |s.accepted| :: s.accepted[i] == i + 1
  }

  /** Exactly `m` is still to come; with `gaps` it may have gone missing. */
  predicate Coming(p: seq<Message>, m: Message, gaps: bool) {
    p == [m] || (gaps && p == [])
  }

  /** `m` and then `n` are still to come; with `gaps`, a front part may have gone missing. */
  predicate ComingBoth(p: seq<Message>, m: Message, n: Message, gaps: bool) {
    p == [m, n] || (gaps && (p == [n] || p == []))
  }

  /** The pool has not been asked for a job yet. */
  predicate Fresh(s: State) {
    s.pool.Reading? && !s.notified && s.jobSeq == 1 && s.accepted == [] && s.handled == 0
  }

  predicate Started(s: State) { s.notified || s.pool.Announcing? }

  /** A request is under way and nothing else; or it has been read. */
  ghost predicate InFlight(s: State, r: Request) {
    s.toPool == [r] && s.toClient == [] && s.pool.Reading?
  }

  /** The session that the pool serves, phase by phase. */
  ghost predicate SessionInv(s: State) {
    var p, n := Pending(s), |s.accepted|;
    match s.phase
    case SendSubscribe => s.toPool == [] && p == [] && Fresh(s)
    case AwaitSubscribe(id) =>
      Fresh(s) && (InFlight(s, Subscribe(id)) || (s.toPool == [] && Coming(p, Response(id), s.lost > 0)))
    case SendAuthorize => s.toPool == [] && p == [] && Fresh(s)
    case AwaitAuthorize(id) =>
      || (InFlight(s, Authorize(id)) && Fresh(s))
      || (s.toPool == [] && ComingBoth(p, Response(id), Notify(1), s.lost > 0) && n == s.handled == 0 && Started(s))
    case CycleTest => s.toPool == [] && Coming(p, Notify(n + 1), s.lost + s.skipped > 0) && s.handled == n && Started(s)
    case WaitJob => s.toPool == [] && Coming(p, Notify(n + 1), s.lost + s.skipped > 0) && s.handled == n && Started(s)
    case Mining(j) => j == n + 1 && s.toPool == [] && p == [] && s.handled == n && Started(s)
    case SendSubmit(j) => j == n + 1 && s.toPool == [] && p == [] && s.handled == n && Started(s)
    case AwaitSubmit(id, j) =>
      && j == n + 1 && Started(s)
      && (|| (InFlight(s, Submit(id, j)) && s.handled == n)
          || (s.toPool == [] && ComingBoth(p, Response(id), Notify(n + 2), s.lost > 0) && s.handled == n + 1))
    case _ => false
  }

  /** Once that session is over: at most one request of it is still under way. */
  ghost predicate AfterInv(s: State) {
    if s.toPool != [] then |s.toPool| == 1 && s.handled == |s.accepted|
    else |s.accepted| <= s.handled <= |s.accepted| + 1
  }

  /** `cycles_done` never passes the configured number. */
  ghost predicate WithinCycles(s: State) {
    s.maxCycles > 0 ==>
      && |s.accepted| <= s.maxCycles
      && (s.phase.WaitJob? || s.phase.Mining? || s.phase.SendSubmit? || s.phase.AwaitSubmit? ==> |s.accepted| < s.maxCycles)
  }

  ghost predicate Inv(s: State) {
    && AcceptedInOrder(s) && WithinCycles(s)
    && s.handled == s.jobSeq - 1 + (if s.pool.SubmitAnswered? then 1 else 0)
    && (s.discarded > 0 ==> s.lost > 0)
    && (s.served ==> s.taken)
    && (if s.served && !s.phase.Ended? then SessionInv(s) else AfterInv(s))
    && (!s.served ==> s.phase.Idle? || s.phase.SendSubscribe? || s.phase.AwaitSubscribe? || s.phase.Ended?)
    && (!s.taken ==> Fresh(s) && s.toPool == [] && s.toClient == [] && (s.phase.Idle? || s.phase.Ended?))
  }

  lemma InitInv(maxCycles: nat)
    ensures Inv(Init(maxCycles))
  {
  }

  lemma {:induction false} SendInv(s: State)
    requires Inv(s) && Enabled(s, Send)
    ensures Inv(Apply(s, Send))
  {
    if s.served { assert s.toPool == [] && s.toClient == [] && s.pool.Reading?; }
  }

  /** Receiving takes the first message that is still to come. */
  lemma {:induction false} ReceiveShrinks(s: State)
    requires Inv(s) && Enabled(s, Receive)
    ensures s.toPool == [] && Pending(s) != [] && Pending(s)[0] == s.toClient[0]
    ensures Pending(Apply(s, Receive)) == Pending(s)[1..]
  {
    assert s.toPool == [];
    TailOfBoth(s.toClient, Owed(s));
  }

  lemma TailOfBoth(p: seq<Message>, q: seq<Message>)
    requires p != []
    ensures (p + q)[0] == p[0] && (p + q)[1..] == p[1..] + q
  {
  }

  lemma FirstOfBoth(p: seq<Message>, m: Message, n: Message, gaps: bool)
    requires ComingBoth(p, m, n, gaps) && p != [] && m != n
    ensures if p[0] == m then p[1..] == [n] else gaps && p[0] == n && p[1..] == []
  {
  }

  lemma OnlyOne(p: seq<Message>, m: Message, gaps: bool)
    requires Coming(p, m, gaps) && p != []
    ensures p[0] == m && p[1..] == []
  {
  }

  lemma FrontIsLost(p: seq<Message>, q: seq<Message>, m: Message, n: Message, gaps: bool)
    requires ComingBoth(p, m, n, gaps) && p != [] && q == p[1..]
    ensures ComingBoth(q, m, n, true)
  {
  }

  lemma {:induction false} ReceiveStartInv(s: State)
    requires Inv(s) && Enabled(s, Receive) && (s.phase.AwaitSubscribe? || s.phase.AwaitAuthorize?)
    ensures Inv(Apply(s, Receive))
  {
    ReceiveShrinks(s);
    if s.phase.AwaitSubscribe? {
      OnlyOne(Pending(s), Response(s.phase.id), s.lost > 0);
    } else {
      FirstOfBoth(Pending(s), Response(s.phase.id), Notify(1), s.lost > 0);
    }
  }

  lemma {:induction false} ReceiveJobInv(s: State)
    requires Inv(s) && Enabled(s, Receive) && s.phase.WaitJob?
    ensures Inv(Apply(s, Receive))
  {
    ReceiveShrinks(s);
    OnlyOne(Pending(s), Notify(|s.accepted| + 1), s.lost + s.skipped > 0);
  }

  lemma {:induction false} ReceiveAcceptedInv(s: State)
    requires Inv(s) && Enabled(s, Receive) && s.phase.AwaitSubmit? && s.toClient[0] == Response(s.phase.id)
    ensures Inv(Apply(s, Receive))
  {
    ReceiveShrinks(s);
    FirstOfBoth(Pending(s), Response(s.phase.id), Notify(|s.accepted| + 2), s.lost > 0);
  }

  lemma {:induction false} ReceiveStrayInv(s: State)
    requires Inv(s) && Enabled(s, Receive) && s.phase.AwaitSubmit? && s.toClient[0] != Response(s.phase.id)
    ensures Inv(Apply(s, Receive))
  {
    ReceiveShrinks(s);
    FirstOfBoth(Pending(s), Response(s.phase.id), Notify(|s.accepted| + 2), s.lost > 0);
  }

  /** A lost line is the first that is still to come. */
  lemma {:induction false} LoseShrinks(s: State)
    requires Inv(s) && Enabled(s, LoseLine)
    ensures s.toPool == [] && Pending(s) != [] && Pending(Apply(s, LoseLine)) == Pending(s)[1..]
  {
    ReceiveShrinks(s);
    TailOfBoth(s.toClient, Owed(s));
  }

  lemma {:induction false} LoseOneInv(s: State)
    requires Inv(s) && Enabled(s, LoseLine) && (s.phase.AwaitSubscribe? || s.phase.WaitJob?)
    ensures Inv(Apply(s, LoseLine))
  {
    LoseShrinks(s);
    OnlyOne(Pending(s), if s.phase.WaitJob? then Notify(|s.accepted| + 1) else Response(s.phase.id), s.lost + s.skipped > 0);
  }

  lemma {:induction false} LoseAuthorizeInv(s: State)
    requires Inv(s) && Enabled(s, LoseLine) && s.phase.AwaitAuthorize?
    ensures Inv(Apply(s, LoseLine))
  {
    LoseShrinks(s);
    FrontIsLost(Pending(s), Pending(Apply(s, LoseLine)), Response(s.phase.id), Notify(1), s.lost > 0);
  }

  lemma {:induction false} LoseSubmitSession(s: State)
    requires Inv(s) && Enabled(s, LoseLine) && s.phase.AwaitSubmit?
    ensures var s', n := Apply(s, LoseLine), |s.accepted|;
            && s'.toPool == [] && s'.handled == n + 1 && s'.phase.job == n + 1 && Started(s')
            && ComingBoth(Pending(s'), Response(s'.phase.id), Notify(n + 2), true)
  {
    LoseShrinks(s);
    FrontIsLost(Pending(s), Pending(Apply(s, LoseLine)), Response(s.phase.id), Notify(|s.accepted| + 2), s.lost > 0);
  }

  lemma {:induction false} LoseSubmitInv(s: State)
    requires Inv(s) && Enabled(s, LoseLine) && s.phase.AwaitSubmit?
    ensures Inv(Apply(s, LoseLine))
  {
    LoseSubmitSession(s);
    var s' := Apply(s, LoseLine);
    assert s' == s.(toClient := s.toClient[1..], lost := s.lost + 1, answerLost := s'.answerLost);
  }

  lemma {:induction false} LoseInv(s: State)
    requires Inv(s) && Enabled(s, LoseLine)
    ensures Inv(Apply(s, LoseLine))
  {
    if s.phase.AwaitAuthorize? {
      LoseAuthorizeInv(s);
    } else if s.phase.AwaitSubmit? {
      LoseSubmitInv(s);
    } else {
      LoseOneInv(s);
    }
  }

  lemma {:induction false} ServeInv(s: State)
    requires Inv(s) && Enabled(s, Serve)
    ensures Inv(Apply(s, Serve))
  {
    if s.served && !s.phase.Ended? {
      assert s.toClient == [] && s.toPool[1..] == [];
    }
  }

  lemma {:induction false} AnnounceInv(s: State)
    requires Inv(s) && Enabled(s, Announce)
    ensures Inv(Apply(s, Announce))
  {
    assert Pending(Apply(s, Announce)) == Pending(s);
  }

  /** However a session ends, at most one submit is unaccounted for. */
  lemma {:induction false} EndInv(s: State, a: Action)
    requires Inv(s) && Enabled(s, a) && (a.Refuse? || a.Fail? || a.Stop?)
    ensures Inv(Apply(s, a))
  {
  }

  lemma {:induction false} ConnectInv(s: State, a: Action)
    requires Inv(s) && Enabled(s, a) && (a.Connect? || a.Reconnect?)
    ensures Inv(Apply(s, a))
  {
  }

  /** Steps that leave the channels alone. */
  lemma {:induction false} LocalInv(s: State, a: Action)
    requires Inv(s) && Enabled(s, a) && (a.Test? || a.FindShare? || a.NoShare? || a.PoolDies?)
    ensures Inv(Apply(s, a))
  {
    assert Pending(Apply(s, a)) == Pending(s);
  }

  lemma {:induction false} InvStep(s: State, a: Action)
    requires Inv(s) && Enabled(s, a)
    ensures Inv(Apply(s, a))
  {
    match a
    case Send => SendInv(s);
    case Receive =>
      if s.phase.WaitJob? {
        ReceiveJobInv(s);
      } else if s.phase.AwaitSubmit? {
        if s.toClient[0] == Response(s.phase.id) { ReceiveAcceptedInv(s); } else { ReceiveStrayInv(s); }
      } else {
        ReceiveStartInv(s);
      }
    case LoseLine => LoseInv(s);
    case Serve => ServeInv(s);
    case Announce => AnnounceInv(s);
    case Refuse => EndInv(s, a);
    case Fail => EndInv(s, a);
    case Stop => EndInv(s, a);
    case Connect => ConnectInv(s, a);
    case Reconnect => ConnectInv(s, a);
    case _ => LocalInv(s, a);
  }

  lemma {:induction false} InvRun(s: State, acts: seq<Action>)
    requires Inv(s) && Legal(s, acts)
    ensures Inv(Exec(s, acts))
    decreases acts
  {
    if acts != [] {
      InvStep(s, acts[0]);
      InvRun(Apply(s, acts[0]), acts[1..]);
    }
  }

  // ----- safety, faults included -----

  /** In every reachable state, whatever faults have happened: shares are accepted in job
      order, client and pool agree up to one share in flight and exactly while the client
      waits for a job, and a notify is discarded only after a line has been lost. */
  lemma {:induction false} ProtocolIsSafe(maxCycles: nat, acts: seq<Action>)
    requires Legal(Init(maxCycles), acts)
    ensures var s := Exec(Init(maxCycles), acts);
            && (forall i | 0 <= i < |s.accepted| :: s.accepted[i] == i + 1)
            && (maxCycles > 0 ==> |s.accepted| <= maxCycles)
            && |s.accepted| <= s.handled <= |s.accepted| + 1
            && (s.phase.WaitJob? ==> s.handled == |s.accepted|)
            && s.handled == s.jobSeq - 1 + (if s.pool.SubmitAnswered? then 1 else 0)
            && (s.lost == 0 ==> s.discarded == 0)
  {
    InitInv(maxCycles);
    ConfigIsConstant(Init(maxCycles), acts);
    InvRun(Init(maxCycles), acts);
  }

  lemma ConfigIsKept(s: State, a: Action)
    requires Enabled(s, a)
    ensures Apply(s, a).maxCycles == s.maxCycles
  {
  }

  lemma {:induction false} ConfigIsConstant(s: State, acts: seq<Action>)
    requires Legal(s, acts)
    ensures Exec(s, acts).maxCycles == s.maxCycles
    decreases acts
  {
    if acts != [] {
      ConfigIsKept(s, acts[0]);
      ConfigIsConstant(Apply(s, acts[0]), acts[1..]);
    }
  }

  /** The pool's job number follows the accepted shares by 0 or 1, except in one window: it has
      answered a submit, the client has the answer, and the number is not yet increased.
      While the client waits for a job, the two agree exactly outside that window. */
  lemma {:induction false} JobNumberAgreement(maxCycles: nat, acts: seq<Action>)
    requires Legal(Init(maxCycles), acts)
    ensures var s := Exec(Init(maxCycles), acts);
            var ahead := s.jobSeq - 1 - |s.accepted|;
            && -1 <= ahead <= 1
            && (0 <= ahead <==> !(s.pool.SubmitAnswered? && s.handled == |s.accepted|))
            && (s.phase.WaitJob? ==> (ahead == 0 <==> !s.pool.SubmitAnswered?))
  {
    ProtocolIsSafe(maxCycles, acts);
  }

  // ----- the exceptions are reachable -----

  lemma {:induction false} Then(s: State, acts: seq<Action>, a: Action)
    requires Legal(s, acts) && Enabled(Exec(s, acts), a)
    ensures Legal(s, acts + [a]) && Exec(s, acts + [a]) == Apply(Exec(s, acts), a)
    decreases acts
  {
    if acts == [] {
      assert acts + [a] == [a] && [a][1..] == [];
    } else {
      assert (acts + [a])[0] == acts[0] && (acts + [a])[1..] == acts[1..] + [a];
      Then(Apply(s, acts[0]), acts[1..], a);
    }
  }

  /** The start of a session, up to the pool's answer to the authorization. */
  lemma {:induction false} Authorized(maxCycles: nat) returns (acts: seq<Action>)
    ensures Legal(Init(maxCycles), acts) && Faultless(acts)
    ensures Exec(Init(maxCycles), acts) == Init(maxCycles).(phase := AwaitAuthorize(2), nextId := 3, served := true, taken := true,
                                             pool := Announcing, toClient := [Response(2)])
  {
    acts := [];
    for i := 0 to 6
      invariant |acts| == i && acts == [Connect, Send, Serve, Receive, Send, Serve][..i]
      invariant Legal(Init(maxCycles), acts) && Exec(Init(maxCycles), acts) == Opening(maxCycles, i)
    {
      var a := [Connect, Send, Serve, Receive, Send, Serve][i];
      Then(Init(maxCycles), acts, a);
      acts := acts + [a];
    }
  }

  function Opening(maxCycles: nat, i: nat): State
    requires i <= 6
  {
    var s := Init(maxCycles).(served := true, taken := true);
    match i
    case 0 => Init(maxCycles)
    case 1 => s.(phase := SendSubscribe)
    case 2 => s.(phase := AwaitSubscribe(1), nextId := 2, toPool := [Subscribe(1)])
    case 3 => s.(phase := AwaitSubscribe(1), nextId := 2, toClient := [Response(1)])
    case 4 => s.(phase := SendAuthorize, nextId := 2)
    case 5 => s.(phase := AwaitAuthorize(2), nextId := 3, toPool := [Authorize(2)])
    case _ => s.(phase := AwaitAuthorize(2), nextId := 3, pool := Announcing, toClient := [Response(2)])
  }

  /** One lost response is enough for a notify to be discarded. */
  lemma {:induction false} LostResponseDiscardsNotify(maxCycles: nat) returns (acts: seq<Action>)
    ensures Legal(Init(maxCycles), acts) && forall a | a in acts && IsFault(a) :: a == LoseLine
    ensures var s := Exec(Init(maxCycles), acts); s.lost == 1 && s.discarded == 1 && s.phase.AwaitAuthorize?
  {
    acts := Authorized(maxCycles);
    Then(Init(maxCycles), acts, Announce);
    acts := acts + [Announce];
    Then(Init(maxCycles), acts, LoseLine);
    acts := acts + [LoseLine];
    Then(Init(maxCycles), acts, Receive);
    acts := acts + [Receive];
  }

  lemma {:induction false} MiningFirst(maxCycles: nat) returns (acts: seq<Action>)
    ensures Legal(Init(maxCycles), acts) && Faultless(acts)
    ensures Exec(Init(maxCycles), acts)
         == Init(maxCycles).(phase := Mining(1), nextId := 3, served := true, taken := true, notified := true)
  {
    acts := Authorized(maxCycles);
    Then(Init(maxCycles), acts, Announce);
    acts := acts + [Announce];
    Then(Init(maxCycles), acts, Receive);
    acts := acts + [Receive];
    Then(Init(maxCycles), acts, Test);
    acts := acts + [Test];
    Then(Init(maxCycles), acts, Receive);
    acts := acts + [Receive];
  }

  lemma {:induction false} Submitting(maxCycles: nat) returns (acts: seq<Action>)
    ensures Legal(Init(maxCycles), acts) && Faultless(acts)
    ensures Exec(Init(maxCycles), acts)
         == Init(maxCycles).(phase := AwaitSubmit(3, 1), nextId := 4, served := true, taken := true, notified := true,
                     toPool := [Submit(3, 1)])
  {
    acts := MiningFirst(maxCycles);
    Then(Init(maxCycles), acts, FindShare);
    acts := acts + [FindShare];
    Then(Init(maxCycles), acts, Send);
    acts := acts + [Send];
  }

  /** Without any fault, the client can be one share ahead of the pool's job number. */
  lemma {:induction false} JobNumberCanLag(maxCycles: nat) returns (acts: seq<Action>)
    ensures Legal(Init(maxCycles), acts) && Faultless(acts)
    ensures var s := Exec(Init(maxCycles), acts); s.jobSeq - 1 == |s.accepted| - 1
  {
    acts := Submitting(maxCycles);
    Then(Init(maxCycles), acts, Serve);
    acts := acts + [Serve];
    Then(Init(maxCycles), acts, Receive);
    acts := acts + [Receive];
  }

  // ----- progress without faults -----

  /** What holds as long as no fault has happened. */
  ghost predicate Clean(s: State) {
    && s.alive && s.lost == 0 && s.skipped == 0
    && (s.served <==> s.taken) && (s.taken <==> !s.phase.Idle?)
    && (s.phase.Ended? ==> s.phase.rc == 0 && s.maxCycles > 0 && |s.accepted| == s.maxCycles)
  }

  lemma {:induction false} CleanTest(s: State)
    requires Inv(s) && Clean(s) && Enabled(s, Test)
    ensures Clean(Apply(s, Test))
  {
  }

  lemma {:induction false} CleanReceive(s: State)
    requires Inv(s) && Clean(s) && Enabled(s, Receive)
    ensures Clean(Apply(s, Receive))
  {
  }

  lemma {:induction false} CleanStep(s: State, a: Action)
    requires Inv(s) && Clean(s) && Enabled(s, a) && !IsFault(a)
    ensures Clean(Apply(s, a))
  {
    match a
    case Test => CleanTest(s);
    case Receive => CleanReceive(s);
    case _ =>
  }

  lemma {:induction false} CanMove(s: State) returns (a: Action)
    requires Inv(s) && Clean(s) && !s.phase.Ended?
    ensures !IsFault(a) && Enabled(s, a)
  {
    match s.phase
    case Idle => a := Connect;
    case CycleTest => a := Test;
    case Mining(_) => a := FindShare;
    case WaitJob =>
      a := if s.toClient != [] then Receive else Announce;
    case _ =>
      if Sending(s.phase) {
        a := Send;
      } else if s.toPool != [] {
        a := Serve;
      } else {
        a := Receive;
      }
  }

  lemma FaultlessTail(acts: seq<Action>)
    requires acts != [] && Faultless(acts)
    ensures !IsFault(acts[0]) && Faultless(acts[1..])
  {
    assert acts[0] in acts && forall a | a in acts[1..] :: a in acts;
  }

  lemma {:induction false} CleanRun(s: State, acts: seq<Action>)
    requires Inv(s) && Clean(s) && Legal(s, acts) && Faultless(acts)
    ensures Inv(Exec(s, acts)) && Clean(Exec(s, acts))
    decreases acts
  {
    if acts != [] {
      FaultlessTail(acts);
      InvStep(s, acts[0]);
      CleanStep(s, acts[0]);
      CleanRun(Apply(s, acts[0]), acts[1..]);
    }
  }

  /** In every state reached without faults, with or without a cycle limit, a step other than
      a fault is possible until the session is over. */
  lemma {:induction false} NeverStuck(maxCycles: nat, acts: seq<Action>) returns (a: Action)
    requires Legal(Init(maxCycles), acts) && Faultless(acts) && !Exec(Init(maxCycles), acts).phase.Ended?
    ensures !IsFault(a) && Enabled(Exec(Init(maxCycles), acts), a)
  {
    InitInv(maxCycles);
    CleanRun(Init(maxCycles), acts);
    a := CanMove(Exec(Init(maxCycles), acts));
  }

  function PhaseWeight(p: Phase): nat {
    match p
    case Idle => 21
    case SendSubscribe => 20
    case AwaitSubscribe(_) => 16
    case SendAuthorize => 15
    case AwaitAuthorize(_) => 11
    case CycleTest => 10
    case WaitJob => 9
    case Mining(_) => 8
    case SendSubmit(_) => 7
    case AwaitSubmit(_, _) => 3
    case Ended(_) => 0
  }

  /** How many steps are left at most. */
  function Measure(s: State): int {
    8 * (s.maxCycles - |s.accepted|) + PhaseWeight(s.phase) + 3 * |s.toPool| + (if s.pool.Reading? then 0 else 1)
  }

  lemma {:induction false} ReceiveDecreases(s: State)
    requires Inv(s) && Clean(s) && s.maxCycles > 0 && Enabled(s, Receive)
    ensures 0 <= Measure(Apply(s, Receive)) < Measure(s)
  {
    ReceiveShrinks(s);
    if s.phase.AwaitSubmit? {
      FirstOfBoth(Pending(s), Response(s.phase.id), Notify(|s.accepted| + 2), s.lost > 0);
    } else if s.phase.AwaitAuthorize? {
      FirstOfBoth(Pending(s), Response(s.phase.id), Notify(1), s.lost > 0);
    }
  }

  lemma {:induction false} ServeDecreases(s: State)
    requires Inv(s) && Clean(s) && s.maxCycles > 0 && Enabled(s, Serve)
    ensures 0 <= Measure(Apply(s, Serve)) < Measure(s)
  {
  }

  lemma {:induction false} MeasureDecreases(s: State, a: Action)
    requires Inv(s) && Clean(s) && s.maxCycles > 0 && Enabled(s, a) && !IsFault(a)
    ensures 0 <= Measure(Apply(s, a)) < Measure(s)
  {
    if a.Receive? {
      ReceiveDecreases(s);
    } else if a.Serve? {
      ServeDecreases(s);
    }
  }

  lemma {:induction false} CleanProgress(s: State, a: Action)
    requires Inv(s) && Clean(s) && s.maxCycles > 0 && Enabled(s, a) && !IsFault(a)
    ensures var s' := Apply(s, a);
            Inv(s') && Clean(s') && s'.maxCycles > 0 && 0 <= Measure(s') < Measure(s)
  {
    InvStep(s, a);
    CleanStep(s, a);
    MeasureDecreases(s, a);
    ConfigIsKept(s, a);
  }

  lemma {:induction false} MeasuredRun(s: State, acts: seq<Action>)
    requires Inv(s) && Clean(s) && Legal(s, acts) && Faultless(acts) && s.maxCycles > 0
    ensures |acts| + Measure(Exec(s, acts)) <= Measure(s) && 0 <= Measure(Exec(s, acts))
    decreases acts
  {
    if acts != [] {
      FaultlessTail(acts);
      CleanProgress(s, acts[0]);
      MeasuredRun(Apply(s, acts[0]), acts[1..]);
    }
  }

  /** Without faults a session with a cycle limit always finishes: no schedule is longer than
      the bound, and one that cannot be continued has ended with code 0 and all its shares
      accepted, in order. */
  lemma {:induction false} FaultlessSessionSucceeds(maxCycles: nat, acts: seq<Action>)
    requires maxCycles > 0 && Legal(Init(maxCycles), acts) && Faultless(acts)
    ensures |acts| <= 8 * maxCycles + 21
    ensures var s := Exec(Init(maxCycles), acts);
            && s.discarded == 0
            && ((forall a :: Enabled(s, a) ==> IsFault(a)) ==> s.phase == Ended(0) && |s.accepted| == maxCycles)
  {
    InitInv(maxCycles);
    CleanRun(Init(maxCycles), acts);
    MeasuredRun(Init(maxCycles), acts);
    ConfigIsConstant(Init(maxCycles), acts);
    if !Exec(Init(maxCycles), acts).phase.Ended? { var a := NeverStuck(maxCycles, acts); }
  }
}
