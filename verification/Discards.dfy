/**
 When `request_response` drops a notify, and what that costs.

 While the client waits for a response, the next line is a notify exactly if the response
 has been lost.  A session that has dropped one gets no further, and since the pool serves
 no other, no share is ever accepted again.
 */
module Discards {
  import opened Protocol

  /** What is still to come while the client of the served session waits for a response. */
  ghost predicate WaitInv(s: State) {
    s.served && Awaiting(s.phase) ==>
      if s.answerLost then s.toPool == [] && |Pending(s)| <= 1 && forall m | m in Pending(s) :: m.Notify?
      else s.toPool != [] || (Pending(s) != [] && Pending(s)[0] == Response(s.phase.id))
  }

  /** The session is over, or its client waits for a response that will not come. */
  ghost predicate Doomed(s: State) {
    s.phase.Ended? || !s.served || (Awaiting(s.phase) && s.answerLost && Pending(s) == [])
  }

  ghost predicate DiscardInv(s: State) {
    Inv(s) && WaitInv(s) && s.discarded <= 1 && (s.discarded == 1 ==> s.taken && Doomed(s))
  }

  /** What follows the response that a client waits for is one notify at most. */
  lemma {:induction false} AfterTheResponse(s: State)
    requires Inv(s) && s.served && Awaiting(s.phase) && s.toPool == []
    requires Pending(s) != [] && Pending(s)[0] == Response(s.phase.id)
    ensures |Pending(s)[1..]| <= 1 && forall m | m in Pending(s)[1..] :: m.Notify?
  {
    if s.phase.AwaitSubscribe? {
      OnlyOne(Pending(s), Response(s.phase.id), s.lost > 0);
    } else {
      var n := if s.phase.AwaitAuthorize? then Notify(1) else Notify(|s.accepted| + 2);
      FirstOfBoth(Pending(s), Response(s.phase.id), n, s.lost > 0);
    }
  }

  lemma {:induction false} SendKeeps(s: State)
    requires DiscardInv(s) && Enabled(s, Send)
    ensures DiscardInv(Apply(s, Send))
  {
    InvStep(s, Send);
  }

  lemma {:induction false} ReceiveKeeps(s: State)
    requires DiscardInv(s) && Enabled(s, Receive)
    ensures DiscardInv(Apply(s, Receive))
  {
    InvStep(s, Receive);
    ReceiveShrinks(s);
    var s', m := Apply(s, Receive), s.toClient[0];
    assert s'.phase == s.phase || !Awaiting(s'.phase);
    if s.served && Awaiting(s.phase) {
      if s.answerLost {
        assert m in Pending(s) && m.Notify? && s'.phase == s.phase && Pending(s') == [];
      } else {
        assert m == Response(s.phase.id) && !Awaiting(s'.phase);
      }
    }
  }

  lemma {:induction false} LoseKeeps(s: State)
    requires DiscardInv(s) && Enabled(s, LoseLine)
    ensures DiscardInv(Apply(s, LoseLine))
  {
    InvStep(s, LoseLine);
    LoseShrinks(s);
    ReceiveShrinks(s);
    if Awaiting(s.phase) && !s.answerLost { AfterTheResponse(s); }
  }

  lemma {:induction false} ServeKeeps(s: State)
    requires DiscardInv(s) && Enabled(s, Serve)
    ensures DiscardInv(Apply(s, Serve))
  {
    InvStep(s, Serve);
    if s.served && Awaiting(s.phase) {
      assert s.toClient == [] && s.toPool == [s.toPool[0]] && s.toPool[0].id == s.phase.id;
      assert Apply(s, Serve).toClient == [Response(s.phase.id)];
    }
  }

  lemma {:induction false} AnnounceKeeps(s: State)
    requires DiscardInv(s) && Enabled(s, Announce)
    ensures DiscardInv(Apply(s, Announce))
  {
    InvStep(s, Announce);
    assert Pending(Apply(s, Announce)) == Pending(s);
  }

  lemma {:induction false} OtherKeeps(s: State, a: Action)
    requires DiscardInv(s) && Enabled(s, a)
    requires !a.Send? && !a.Receive? && !a.LoseLine? && !a.Serve? && !a.Announce?
    ensures DiscardInv(Apply(s, a))
  {
    InvStep(s, a);
  }

  lemma {:induction false} DiscardStep(s: State, a: Action)
    requires DiscardInv(s) && Enabled(s, a)
    ensures DiscardInv(Apply(s, a))
  {
    match a
    case Send => SendKeeps(s);
    case Receive => ReceiveKeeps(s);
    case LoseLine => LoseKeeps(s);
    case Serve => ServeKeeps(s);
    case Announce => AnnounceKeeps(s);
    case _ => OtherKeeps(s, a);
  }

  lemma {:induction false} DiscardRun(s: State, acts: seq<Action>)
    requires DiscardInv(s) && Legal(s, acts)
    ensures DiscardInv(Exec(s, acts))
    decreases acts
  {
    if acts != [] {
      DiscardStep(s, acts[0]);
      DiscardRun(Apply(s, acts[0]), acts[1..]);
    }
  }

  lemma {:induction false} Reachable(maxCycles: nat, acts: seq<Action>)
    requires Legal(Init(maxCycles), acts)
    ensures DiscardInv(Exec(Init(maxCycles), acts))
  {
    InitInv(maxCycles);
    DiscardRun(Init(maxCycles), acts);
  }

  // ----- when -----

  /** In every reachable state, faults included, a step discards a notify if and only if it
      receives a line while the client waits for a response that has been lost. */
  lemma {:induction false} DiscardsIffAnswerLost(maxCycles: nat, acts: seq<Action>, a: Action)
    requires Legal(Init(maxCycles), acts) && Enabled(Exec(Init(maxCycles), acts), a)
    ensures var s := Exec(Init(maxCycles), acts);
            Apply(s, a).discarded != s.discarded <==> a == Receive && Awaiting(s.phase) && s.answerLost
  {
    Reachable(maxCycles, acts);
    StepDiscards(Exec(Init(maxCycles), acts), a);
  }

  lemma {:induction false} StepDiscards(s: State, a: Action)
    requires DiscardInv(s) && Enabled(s, a)
    ensures Apply(s, a).discarded != s.discarded <==> a == Receive && Awaiting(s.phase) && s.answerLost
  {
    match a
    case Receive =>
      ReceiveShrinks(s);
      assert s.toClient[0] == Pending(s)[0] && Pending(s)[0] in Pending(s);
    case Send =>
    case Serve =>
    case _ =>
  }

  /** The faults of a schedule are among those of an environment. */
  predicate Within(acts: seq<Action>, faults: set<Action>) { forall a | a in acts && IsFault(a) :: a in faults }

  ghost predicate NeverDiscards(maxCycles: nat, faults: set<Action>) {
    forall acts | Legal(Init(maxCycles), acts) && Within(acts, faults) :: Exec(Init(maxCycles), acts).discarded == 0
  }

  lemma {:induction false} NothingLost(s: State, acts: seq<Action>)
    requires Legal(s, acts) && LoseLine !in acts
    ensures Exec(s, acts).lost == s.lost
    decreases acts
  {
    if acts != [] {
      assert acts[0] in acts;
      LossOnly(s, acts[0]);
      NothingLost(Apply(s, acts[0]), acts[1..]);
    }
  }

  lemma LossOnly(s: State, a: Action)
    requires Enabled(s, a) && a != LoseLine
    ensures Apply(s, a).lost == s.lost
  {
  }

  /** No schedule of an environment discards a notify if and only if the environment never
      cuts a line; refused, broken and stopped sessions, dead pools and reconnects do no harm. */
  lemma {:induction false} NeverDiscardsIffNothingIsCut(maxCycles: nat, faults: set<Action>)
    ensures NeverDiscards(maxCycles, faults) <==> LoseLine !in faults
  {
    if LoseLine in faults {
      var acts := LostResponseDiscardsNotify(maxCycles);
      assert Legal(Init(maxCycles), acts) && Within(acts, faults);
    } else {
      forall acts | Legal(Init(maxCycles), acts) && Within(acts, faults)
        ensures Exec(Init(maxCycles), acts).discarded == 0
      {
        NothingLost(Init(maxCycles), acts);
        ProtocolIsSafe(maxCycles, acts);
      }
    }
  }

  // ----- at what cost -----

  /** The only way on for the client that has dropped a notify is to give up: by itself, since
      nothing is left to receive. */
  lemma {:induction false} OnlyFailureIsLeft(s: State, a: Action)
    requires DiscardInv(s) && s.discarded == 1 && s.served && !s.phase.Ended? && Enabled(s, a)
    ensures a == Fail || a == PoolDies
    ensures a == Fail ==> Apply(s, a).phase == Ended(4) || Apply(s, a).phase == Ended(8)
  {
    assert s.toClient == [] && s.pool.Reading? by { assert Pending(s) == s.toClient + Owed(s); }
  }

  lemma {:induction false} NoMoreShares(s: State, acts: seq<Action>)
    requires DiscardInv(s) && s.discarded == 1 && Legal(s, acts)
    ensures Exec(s, acts).accepted == s.accepted && Exec(s, acts).discarded == 1
    decreases acts
  {
    if acts != [] {
      DiscardStep(s, acts[0]);
      if s.served && !s.phase.Ended? { OnlyFailureIsLeft(s, acts[0]); }
      DiscardedStays(s, acts[0]);
      NoMoreShares(Apply(s, acts[0]), acts[1..]);
    }
  }

  lemma {:induction false} DiscardedStays(s: State, a: Action)
    requires DiscardInv(s) && s.discarded == 1 && Enabled(s, a)
    requires s.served && !s.phase.Ended? ==> a == Fail || a == PoolDies
    ensures Apply(s, a).accepted == s.accepted && Apply(s, a).discarded >= 1
  {
  }

  /** At most one notify is ever discarded, and after it no share is accepted again, in this
      session or a later one. */
  lemma {:induction false} OneDiscardEndsIt(maxCycles: nat, before: seq<Action>, after: seq<Action>)
    requires Legal(Init(maxCycles), before) && Legal(Exec(Init(maxCycles), before), after)
    ensures var s := Exec(Init(maxCycles), before);
            && s.discarded <= 1
            && (s.discarded == 1 ==> Exec(s, after).accepted == s.accepted && Exec(s, after).discarded == 1)
  {
    Reachable(maxCycles, before);
    var s := Exec(Init(maxCycles), before);
    if s.discarded == 1 { NoMoreShares(s, after); }
  }
}
