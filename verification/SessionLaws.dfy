/**
 What `SessionRules` amounts to, said of the script and the events themselves: which answers
 open a session, which make which event, when a session and a run end, and what the
 counters count.
 */
module SessionLaws {
  import opened Backoff
  import opened SessionRules

  /** The answer carries the stop request. */
  predicate Stops(a: Answer) { a.stop || a.mined == Aborted }

  predicate StopsIn(script: seq<Answer>, n: nat)
    requires n <= |script|
  {
    exists i | 0 <= i < n :: Stops(script[i])
  }

  // ----- the opening -----

  /** Connect, subscribe and authorize all succeed. */
  predicate Opens(script: seq<Answer>) { |script| >= 3 && script[0].ok && script[1].ok && script[2].ok }

  /** Answer number `n` is the first refusal of the three. */
  predicate RefusedAt(script: seq<Answer>, n: nat) {
    n < 3 && n < |script| && !script[n].ok && forall i | 0 <= i < n :: script[i].ok
  }

  /** A session opens exactly when the three answers are all favourable, and takes exactly the
      answers up to the first that is not. */
  lemma OpeningLaw(script: seq<Answer>, stopped: bool)
    ensures var o := OpeningOf(script, stopped);
            && (o.ok <==> Opens(script))
            && (o.ok ==> o.script == script[3..] && (o.stopped <==> stopped || StopsIn(script, 3)))
            && forall n: nat | RefusedAt(script, n) ::
                 o.script == script[n + 1..] && (o.stopped <==> stopped || StopsIn(script, n + 1))
  {
  }

  // ----- one job -----

  /** What three answers at hand mean for one job. */
  predicate IsCycle(script: seq<Answer>, stopped: bool, c: Cycle)
    requires |script| >= 3
  {
    var job := script[0];
    && (!job.ok ==> c.script == script[2..]
                    && c.event == if stopped || StopsIn(script, 2) then StoppedWaiting else Lost)
    && (job.ok && script[1].mined == Aborted ==> c.script == script[2..] && c.event == SearchAborted)
    && (job.ok && script[1].mined == NoShare ==> c.script == script[2..] && c.event == NoShareFound)
    && (job.ok && script[1].mined == Share ==>
          c.script == script[3..] && c.event == if script[2].ok then Accepted(job.jobId) else Rejected)
    && |c.script| <= |script| && (c.stopped <==> stopped || StopsIn(script, |script| - |c.script|))
  }

  lemma CycleLaw(script: seq<Answer>, stopped: bool)
    requires |script| >= 3
    ensures IsCycle(script, stopped, CycleOf(script, stopped))
  {
  }

  // ----- the session -----

  /** The job leaves the session running. */
  predicate Goes(e: Event) { e == NoShareFound || e.Accepted? }

  /** It ends with 6 when the last job was lost, with 8 when the last share was rejected, and
      with 0 when a stop was requested or the bound on accepted shares was reached. */
  predicate EndsRight(maxCycles: nat, accepted: nat, r: Ending) {
    && (forall i | 0 <= i < |r.events| - 1 :: Goes(r.events[i]))
    && (forall i | 0 <= i < |r.events| :: !r.events[i].SessionFailed?)
    && (r.rc == 0 || r.rc == 6 || r.rc == 8)
    && (r.rc == 6 <==> r.events != [] && r.events[|r.events| - 1] == Lost)
    && (r.rc == 8 <==> r.events != [] && r.events[|r.events| - 1] == Rejected)
    && (r.rc == 0 ==> r.stopped || (maxCycles > 0 && (accepted + Accepts(r.events)) % TWO_TO_THE_32 >= maxCycles))
  }

  /** A session goes on after every share accepted and every search without a share. */
  lemma {:induction false} SessionEnds(maxCycles: nat, script: seq<Answer>, stopped: bool, accepted: nat)
    ensures EndsRight(maxCycles, accepted, CyclesOf(maxCycles, script, stopped, accepted))
    ensures stopped ==> CyclesOf(maxCycles, script, stopped, accepted).events == []
    decreases |script|
  {
    var load := AskOf(script, stopped);
    if !load.stopped && (maxCycles == 0 || accepted % TWO_TO_THE_32 < maxCycles) {
      var c := CycleOf(load.script, load.stopped);
      if !Ends(c.event) {
        var after := accepted + if c.event.Accepted? then 1 else 0;
        SessionEnds(maxCycles, c.script, c.stopped, after);
        EndsLater(maxCycles, accepted, c.event, CyclesOf(maxCycles, c.script, c.stopped, after));
      }
    }
  }

  lemma {:induction false} EndsLater(maxCycles: nat, accepted: nat, e: Event, r: Ending)
    requires Goes(e) && EndsRight(maxCycles, accepted + if e.Accepted? then 1 else 0, r)
    ensures EndsRight(maxCycles, accepted, Prepend([e], r))
  {
    AcceptsMore(e, r.events);
    var events := [e] + r.events;
    assert r.events != [] ==> events[|events| - 1] == r.events[|r.events| - 1];
  }

  lemma {:induction false} AcceptsMore(e: Event, events: seq<Event>)
    ensures Accepts([e] + events) == (if e.Accepted? then 1 else 0) + Accepts(events)
  {
    if events == [] {
      assert [e] + events == [e] && [e][..0] == [];
    } else {
      assert ([e] + events)[..|events|] == [e] + events[..|events| - 1];
      AcceptsMore(e, events[..|events| - 1]);
    }
  }

  /** The answers that one turn of the session's loop takes, and its event: the test, the job,
      and the search and the submit, or the test that tells a stop from a loss. */
  predicate Amounts(turn: seq<Answer>, e: Event) {
    && |turn| == (if e == Rejected || e.Accepted? then 4 else 3) && !Stops(turn[0])
    && match e
       case StoppedWaiting => !turn[1].ok && StopsIn(turn, 3)
       case Lost => !turn[1].ok && !StopsIn(turn, 3)
       case SearchAborted => turn[1].ok && turn[2].mined == Aborted
       case NoShareFound => turn[1].ok && turn[2].mined == NoShare
       case Rejected => turn[1].ok && turn[2].mined == Share && !turn[3].ok
       case Accepted(jobId) => turn[1].ok && turn[1].jobId == jobId && turn[2].mined == Share && turn[3].ok
       case SessionFailed(_) => false
  }

  function Flat(turns: seq<seq<Answer>>): seq<Answer> {
    if turns == [] then [] else turns[0] + Flat(turns[1..])
  }

  /** The events of turns that follow each other, none of which stops the next. */
  predicate Reads(turns: seq<seq<Answer>>, events: seq<Event>) {
    && |turns| == |events|
    && (forall i | 0 <= i < |turns| :: Amounts(turns[i], events[i]))
    && (forall i | 0 <= i < |turns| - 1 :: !StopsIn(turns[i], |turns[i]|))
  }

  /** The script of a session: its turns, the last test where one was needed, and what is left. */
  predicate IsRead(script: seq<Answer>, r: Ending, turns: seq<seq<Answer>>, last: seq<Answer>) {
    && Reads(turns, r.events) && script == Flat(turns) + last + r.script
    && |last| == if r.events != [] && Ends(r.events[|r.events| - 1]) then 0 else 1
  }

  lemma {:induction false} TurnIsRead(script: seq<Answer>)
    requires script != [] && !Stops(script[0]) && CycleOf(script[1..], false).script != []
    ensures var c := CycleOf(script[1..], false);
            var turn := script[..|script| - |c.script|];
            Amounts(turn, c.event) && script == turn + c.script && (c.stopped <==> StopsIn(turn, |turn|))
  {
    var c := CycleOf(script[1..], false);
    CycleLaw(script[1..], false);
    var turn := script[..|script| - |c.script|];
    assert forall i | 0 < i < |turn| :: turn[i] == script[1..][i - 1];
    assert StopsIn(script[1..], |turn| - 1) ==> StopsIn(turn, |turn|) by {
      if StopsIn(script[1..], |turn| - 1) {
        var i :| 0 <= i < |turn| - 1 && Stops(script[1..][i]);
        assert Stops(turn[i + 1]);
      }
    }
  }

  lemma {:induction false} ReadsMore(turn: seq<Answer>, e: Event, script: seq<Answer>, r: Ending,
                                     turns: seq<seq<Answer>>, last: seq<Answer>)
    requires Amounts(turn, e) && Goes(e) && IsRead(script, r, turns, last)
    requires StopsIn(turn, |turn|) ==> turns == []
    ensures IsRead(turn + script, Prepend([e], r), [turn] + turns, last)
  {
    var all, events := [turn] + turns, [e] + r.events;
    assert Reads(all, events);
    assert turn + script == Flat(all) + last + r.script by {
      assert all[1..] == turns && Flat(all) == turn + Flat(turns);
      assert turn + (Flat(turns) + last + r.script) == turn + Flat(turns) + last + r.script;
    }
    assert r.events != [] ==> events[|events| - 1] == r.events[|r.events| - 1];
  }

  /** A session that does not use up the script takes it turn by turn: every event is what its
      own answers amount to, in order, and every answer is used once. */
  lemma {:induction false} SessionReads(maxCycles: nat, script: seq<Answer>, stopped: bool, accepted: nat)
      returns (turns: seq<seq<Answer>>, last: seq<Answer>)
    requires CyclesOf(maxCycles, script, stopped, accepted).script != []
    ensures IsRead(script, CyclesOf(maxCycles, script, stopped, accepted), turns, last)
    ensures stopped ==> turns == []
    decreases |script|
  {
    if stopped || Stops(script[0]) || !(maxCycles == 0 || accepted % TWO_TO_THE_32 < maxCycles) {
      turns, last := NoTurn(script, stopped || Stops(script[0]));
    } else {
      var c := CycleOf(script[1..], false);
      var turn := script[..|script| - |c.script|];
      if Ends(c.event) {
        TurnIsRead(script);
        turns, last := OneTurn(turn, c);
      } else {
        var after := accepted + if c.event.Accepted? then 1 else 0;
        var r := CyclesOf(maxCycles, c.script, c.stopped, after);
        assert CyclesOf(maxCycles, script, stopped, accepted) == Prepend([c.event], r);
        TurnIsRead(script);
        turns, last := SessionReads(maxCycles, c.script, c.stopped, after);
        ReadsMore(turn, c.event, c.script, r, turns, last);
        turns := [turn] + turns;
      }
    }
  }

  lemma NoTurn(script: seq<Answer>, stopped: bool) returns (turns: seq<seq<Answer>>, last: seq<Answer>)
    requires script != []
    ensures turns == [] && IsRead(script, Ending(0, [], script[1..], stopped), turns, last)
  {
    turns, last := [], [script[0]];
    assert [] + [script[0]] + script[1..] == script;
  }

  lemma OneTurn(turn: seq<Answer>, c: Cycle) returns (turns: seq<seq<Answer>>, last: seq<Answer>)
    requires Ends(c.event) && Amounts(turn, c.event)
    ensures IsRead(turn + c.script, Ending(CodeOf(c.event), [c.event], c.script, c.stopped), turns, last)
  {
    turns, last := [turn], [];
    assert [turn][1..] == [] && Flat([turn]) == turn + Flat([]) == turn;
    assert turn + [] + c.script == turn + c.script;
  }

  // ----- the run -----

  /** A stop, or the bound on accepted shares, keeps the next session from being started. */
  lemma RunEnds(cfg: Settings, w: Whole, accepted: nat, failures: nat, delay: nat)
    requires w.script != []
    requires w.stopped || Stops(w.script[0]) || (cfg.maxCycles > 0 && accepted % TWO_TO_THE_32 >= cfg.maxCycles)
    ensures RunOf(cfg, w, accepted, failures, delay)
         == w.(script := w.script[1..], stopped := w.stopped || Stops(w.script[0]))
  {
  }

  /** A failed session is the last one when the cap is reached, or, without a delay, when a stop
      is requested; otherwise one delay is slept before the next test. */
  lemma FailureLaw(cfg: Settings, rc: nat, w: Whole, accepted: nat, failures: nat, delay: nat)
    requires rc != 0 && |w.script| >= 2
    ensures var r, events := FromEnding(cfg, rc, w, accepted, failures, delay), w.events + [SessionFailed(rc)];
            var capped := cfg.maxReconnectAttempts > 0 && failures + 1 >= cfg.maxReconnectAttempts;
            && (capped ==> r == w.(rc := rc, events := events))
            && (!capped && (w.stopped || Stops(w.script[0])) ==>
                  r == w.(events := events, script := w.script[1..], stopped := true))
            && (!capped && !w.stopped && !Stops(w.script[0]) && Stops(w.script[1]) ==>
                  r == w.(events := events, sleeps := w.sleeps + [delay], script := w.script[2..], stopped := true))
  {
  }

  function Begin(script: seq<Answer>): Whole { Whole(0, [], [], 0, script, false) }

  /** Otherwise one is started. */
  lemma RunGoesOn(cfg: Settings, w: Whole, accepted: nat, failures: nat, delay: nat)
    requires w.script != [] && !w.stopped && !Stops(w.script[0])
    requires cfg.maxCycles == 0 || accepted % TWO_TO_THE_32 < cfg.maxCycles
    ensures RunOf(cfg, w, accepted, failures, delay)
         == FromSession(cfg, w.(script := w.script[1..]), accepted, failures, delay)
  {
  }

  /** A session that ends adds its events, and its shares to those accepted. */
  lemma SessionAdds(cfg: Settings, w: Whole, accepted: nat, failures: nat, delay: nat, e: Ending)
    requires e == SessionOf(cfg.maxCycles, w.script, w.stopped, accepted)
    ensures var w' := w.(events := w.events + e.events, sessions := w.sessions + 1,
                         script := e.script, stopped := e.stopped);
            FromSession(cfg, w, accepted, failures, delay)
            == FromEnding(cfg, e.rc, w', accepted + Accepts(e.events), failures, delay)
  {
  }

  /** With a cap of one, a refusal in the opening of the first session ends the run with 4. */
  lemma {:induction false} FirstRefusalEnds(cfg: Settings, script: seq<Answer>)
    requires cfg.maxReconnectAttempts == 1
    requires script != [] && !Stops(script[0]) && !Opens(script[1..])
    ensures var r := RunOf(cfg, Begin(script), 0, 0, cfg.First());
            r.rc == 4 && r.events == [SessionFailed(4)] && r.sleeps == [] && r.sessions == 1
  {
    var w := Begin(script).(script := script[1..]);
    OpeningLaw(script[1..], false);
    RunGoesOn(cfg, Begin(script), 0, 0, cfg.First());
    SessionAdds(cfg, w, 0, 0, cfg.First(), SessionOf(cfg.maxCycles, script[1..], false, 0));
    assert [] + [SessionFailed(4)] == [SessionFailed(4)];
  }

  /** `n` sessions in a row are refused at once, and nothing stops the program. */
  predicate Refuses(script: seq<Answer>, n: nat) {
    && |script| >= 3 * n
    && (forall i | 0 <= i < 3 * n :: !Stops(script[i]))
    && (forall k | 0 <= k < n :: !script[3 * k + 1].ok)
  }

  function Refusals(n: nat): (events: seq<Event>)
    ensures |events| == n && forall i | 0 <= i < n :: events[i] == SessionFailed(4)
  {
    if n == 0 then [] else [SessionFailed(4)] + Refusals(n - 1)
  }

  lemma {:induction false} OneRefusal(cfg: Settings, w: Whole, failures: nat, delay: nat)
    requires Refuses(w.script, 1) && !w.stopped
    ensures var w' := w.(events := w.events + [SessionFailed(4)], sessions := w.sessions + 1);
            RunOf(cfg, w, 0, failures, delay) ==
              if cfg.maxReconnectAttempts > 0 && failures + 1 >= cfg.maxReconnectAttempts then
                w'.(rc := 4, script := w.script[2..])
              else
                RunOf(cfg, w'.(script := w.script[3..], sleeps := w.sleeps + [delay]), 0, failures + 1,
                      NextDelay(delay, cfg.Cap()))
  {
    var script := w.script[1..];
    assert !w.script[3 * 0 + 1].ok;
    OpeningLaw(script, false);
    assert RefusedAt(script, 0);
    assert script[1..] == w.script[2..] && w.script[2..][1..] == w.script[3..];
    RunGoesOn(cfg, w, 0, failures, delay);
    SessionAdds(cfg, w.(script := script), 0, failures, delay, Ending(4, [], w.script[2..], false));
    assert w.events + [] == w.events && Accepts([]) == 0;
  }

  lemma RefusesLater(script: seq<Answer>, n: nat)
    requires n > 1 && Refuses(script, n)
    ensures Refuses(script[3..], n - 1) && Refuses(script, 1)
  {
    forall k | 0 <= k < n - 1 ensures !script[3..][3 * k + 1].ok {
      assert script[3..][3 * k + 1] == script[3 * (k + 1) + 1];
    }
  }

  /** A pool that refuses every connection is tried as often as the cap says, with a delay
      between any two sessions, and the code is 4. */
  lemma {:induction false} RefusalsEnd(cfg: Settings, w: Whole, failures: nat, delay: nat, n: nat)
    requires n >= 1 && cfg.maxReconnectAttempts == failures + n
    requires Refuses(w.script, n) && !w.stopped
    ensures var r := RunOf(cfg, w, 0, failures, delay);
            && r.rc == 4 && r.events == w.events + Refusals(n)
            && r.sessions == w.sessions + n && |r.sleeps| == |w.sleeps| + n - 1
    decreases n
  {
    if n > 1 { RefusesLater(w.script, n); }
    OneRefusal(cfg, w, failures, delay);
    if n == 1 {
      assert Refusals(1) == [SessionFailed(4)];
    } else {
      var w' := w.(events := w.events + [SessionFailed(4)], sessions := w.sessions + 1,
                   script := w.script[3..], sleeps := w.sleeps + [delay]);
      RefusesLater(w.script, n);
      RefusalsEnd(cfg, w', failures + 1, NextDelay(delay, cfg.Cap()), n - 1);
      assert (w.events + [SessionFailed(4)]) + Refusals(n - 1) == w.events + Refusals(n);
    }
  }

  // ----- a run without faults -----

  /** The test, the job, the search and the submit of a round that goes well. */
  predicate GoodRound(script: seq<Answer>)
    requires |script| >= 4
  {
    && script[1].ok && script[2].mined == Share && script[3].ok && !StopsIn(script, 4)
  }

  predicate GoodRounds(script: seq<Answer>, n: nat)
    decreases n
  {
    |script| >= 4 * n && (n > 0 ==> GoodRound(script) && GoodRounds(script[4..], n - 1))
  }

  function Shares(script: seq<Answer>, n: nat): (events: seq<Event>)
    requires |script| >= 4 * n
    ensures |events| == n && forall i | 0 <= i < n :: events[i] == Accepted(script[4 * i + 1].jobId)
    decreases n
  {
    if n == 0 then []
    else
      assert forall i | 0 <= i < n - 1 :: script[4..][4 * i + 1] == script[4 * (i + 1) + 1];
      [Accepted(script[1].jobId)] + Shares(script[4..], n - 1)
  }

  function AfterRounds(script: seq<Answer>, n: nat): seq<Answer>
    requires |script| >= 4 * n
    decreases n
  {
    if n == 0 then script else AfterRounds(script[4..], n - 1)
  }

  lemma {:induction false} AfterRoundsIsLater(script: seq<Answer>, n: nat)
    requires |script| >= 4 * n
    ensures AfterRounds(script, n) == script[4 * n..]
    decreases n
  {
    if n > 0 {
      AfterRoundsIsLater(script[4..], n - 1);
      assert script[4..][4 * (n - 1)..] == script[4 * n..];
    }
  }

  lemma {:induction false} RoundsSucceed(maxCycles: nat, script: seq<Answer>, accepted: nat, n: nat)
    requires accepted + n == maxCycles < TWO_TO_THE_32 && maxCycles > 0
    requires GoodRounds(script, n) && AfterRounds(script, n) != []
    ensures var rest := AfterRounds(script, n);
            CyclesOf(maxCycles, script, false, accepted) == Ending(0, Shares(script, n), rest[1..], Stops(rest[0]))
    decreases n
  {
    if n > 0 {
      var r, rest := CyclesOf(maxCycles, script[4..], false, accepted + 1), AfterRounds(script[4..], n - 1);
      assert r == Ending(0, Shares(script[4..], n - 1), rest[1..], Stops(rest[0])) by {
        RoundsSucceed(maxCycles, script[4..], accepted + 1, n - 1);
      }
      assert CyclesOf(maxCycles, script, false, accepted) == Prepend([Accepted(script[1].jobId)], r) by {
        OneRound(maxCycles, script, accepted);
      }
    }
  }

  lemma {:induction false} OneRound(maxCycles: nat, script: seq<Answer>, accepted: nat)
    requires accepted < maxCycles < TWO_TO_THE_32 && |script| >= 4 && GoodRound(script)
    ensures CyclesOf(maxCycles, script, false, accepted)
         == Prepend([Accepted(script[1].jobId)], CyclesOf(maxCycles, script[4..], false, accepted + 1))
  {
    RoundIsAccepted(script);
    assert CyclesOf(maxCycles, script, false, accepted) == TurnOf(maxCycles, script[1..], false, accepted);
  }

  lemma {:induction false} RoundIsAccepted(script: seq<Answer>)
    requires |script| >= 4 && GoodRound(script)
    ensures !Stops(script[0]) && CycleOf(script[1..], false) == Cycle(Accepted(script[1].jobId), script[4..], false)
  {
    CycleLaw(script[1..], false);
    RoundIsCalm(script);
    assert script[1..][3..] == script[4..];
  }

  lemma RoundIsCalm(script: seq<Answer>)
    requires |script| >= 4 && !StopsIn(script, 4)
    ensures !Stops(script[0]) && !StopsIn(script[1..], 2) && !StopsIn(script[1..], 3)
  {
    assert forall i | 0 <= i < 3 :: script[1..][i] == script[i + 1];
  }

  /** The test of the run, the opening of a session, `n` good rounds, and two more tests. */
  predicate Faultless(script: seq<Answer>, n: nat) {
    |script| >= 4 * n + 6 && !StopsIn(script, 4) && Opens(script[1..]) && GoodRounds(script[4..], n)
  }

  lemma {:induction false} FaultlessSession(script: seq<Answer>, n: nat)
    requires 0 < n < TWO_TO_THE_32 && Faultless(script, n)
    ensures SessionOf(n, script[1..], false, 0)
         == Ending(0, Shares(script[4..], n), script[4 * n + 5..], Stops(script[4 * n + 4]))
  {
    OpeningLaw(script[1..], false);
    RoundIsCalm(script);
    assert script[1..][3..] == script[4..];
    AfterRoundsIsLater(script[4..], n);
    assert script[4..][4 * n..] == script[4 * n + 4..];
    RoundsSucceed(n, script[4..], 0, n);
  }

  /** A session that does all cycles is the last one. */
  lemma LastSession(cfg: Settings, w: Whole, delay: nat, e: Ending, accepted: nat)
    requires w.script != [] && !w.stopped && !Stops(w.script[0]) && cfg.maxCycles > 0
    requires e == SessionOf(cfg.maxCycles, w.script[1..], false, 0) && e.rc == 0 && e.script != []
    requires accepted == Accepts(e.events) && accepted % TWO_TO_THE_32 >= cfg.maxCycles
    ensures RunOf(cfg, w, 0, 0, delay)
         == w.(events := w.events + e.events, sessions := w.sessions + 1, script := e.script[1..],
               stopped := e.stopped || Stops(e.script[0]))
  {
    RunGoesOn(cfg, w, 0, 0, delay);
    SessionAdds(cfg, w.(script := w.script[1..]), 0, 0, delay, e);
    var w' := w.(events := w.events + e.events, sessions := w.sessions + 1, script := e.script, stopped := e.stopped);
    RunEnds(cfg, w', accepted, 0, cfg.First());
  }

  /** For every number of cycles: when everything goes well, one session does them all, and
      the shares accepted are those for the jobs received, in order. */
  lemma {:induction false} FaultlessRun(cfg: Settings, script: seq<Answer>, n: nat)
    requires 0 < n == cfg.maxCycles < TWO_TO_THE_32 && Faultless(script, n)
    ensures var r := RunOf(cfg, Begin(script), 0, 0, cfg.First());
            r.rc == 0 && r.sleeps == [] && r.sessions == 1 && r.events == Shares(script[4..], n)
  {
    var e, events := SessionOf(n, script[1..], false, 0), Shares(script[4..], n);
    assert e.rc == 0 && e.events == events && e.script != [] by { FaultlessSession(script, n); }
    assert Accepts(e.events) == n by { AllAccepted(events); }
    assert !Stops(script[0]);
    LastSession(cfg, Begin(script), cfg.First(), e, n);
    assert [] + events == events;
  }

  lemma {:induction false} AllAccepted(events: seq<Event>)
    requires forall i | 0 <= i < |events| :: events[i].Accepted?
    ensures Accepts(events) == |events|
  {
    if events != [] { AllAccepted(events[..|events| - 1]); }
  }

  // ----- what the counters count -----

  function Count(log: seq<Event>, counts: Event -> bool): (n: nat)
    ensures n <= |log|
  {
    if log == [] then 0 else Count(log[..|log| - 1], counts) + if counts(log[|log| - 1]) then 1 else 0
  }

  /** Every counter is the number of the events of its kind. */
  lemma {:induction false} CountersCount(log: seq<Event>)
    ensures var st := Tally(log);
            && st.acceptedCount == Count(log, (e: Event) => e.Accepted?)
            && st.submitFailures == Count(log, (e: Event) => e == Rejected)
            && st.submitsAttempted == Count(log, (e: Event) => e == Rejected || e.Accepted?)
            && st.jobsReceived == Count(log, (e: Event) => e != StoppedWaiting && e != Lost && !e.SessionFailed?)
            && st.sessionFailures == Count(log, (e: Event) => e.SessionFailed?)
  {
    if log != [] { CountersCount(log[..|log| - 1]); }
  }

  lemma {:induction false} CountNone(log: seq<Event>, counts: Event -> bool)
    ensures Count(log, counts) == 0 <==> forall e | e in log :: !counts(e)
  {
    if log != [] {
      CountNone(log[..|log| - 1], counts);
      assert log == log[..|log| - 1] + [log[|log| - 1]];
    }
  }

  /** Ready after three accepted shares and no failure at all, not ready before the first
      accepted share, degraded otherwise. */
  lemma {:induction false} ReadinessMeans(log: seq<Event>)
    ensures Tally(log).Status() == Ready <==>
              && Count(log, (e: Event) => e.Accepted?) >= 3
              && forall e: Event | e in log :: e != Rejected && !e.SessionFailed?
    ensures Tally(log).Status() == NotReady <==> forall e: Event | e in log :: !e.Accepted?
  {
    CountersCount(log);
    CountNone(log, (e: Event) => e.Accepted?);
    CountNone(log, (e: Event) => e == Rejected);
    CountNone(log, (e: Event) => e.SessionFailed?);
  }

  /** The code reported is that of the last failed session. */
  lemma {:induction false} LastCodeIsLastFailure(log: seq<Event>)
    ensures (forall e: Event | e in log :: !e.SessionFailed?) ==> Tally(log).lastFailureRc == 0
    ensures forall i | 0 <= i < |log| && log[i].SessionFailed? && (forall j | i < j < |log| :: !log[j].SessionFailed?) ::
              Tally(log).lastFailureRc == log[i].rc
  {
    if log != [] {
      var front := log[..|log| - 1];
      LastCodeIsLastFailure(front);
      assert forall i | 0 <= i < |front| :: front[i] == log[i];
    }
  }

  // ----- whole runs -----

  /** The counters after a run of refusals. */
  lemma {:induction false} RefusalsAreCounted(n: nat)
    ensures Tally(Refusals(n)).acceptedCount == 0 && Tally(Refusals(n)).sessionFailures == n
  {
    var events := Refusals(n);
    NoneAccepted(events);
    TallyAccepts([], events);
    assert [] + events == events;
    FailuresCounted(events);
  }

  lemma {:induction false} NoneAccepted(events: seq<Event>)
    requires forall i | 0 <= i < |events| :: !events[i].Accepted?
    ensures Accepts(events) == 0
  {
    if events != [] { NoneAccepted(events[..|events| - 1]); }
  }

  lemma {:induction false} FailuresCounted(events: seq<Event>)
    requires forall i | 0 <= i < |events| :: events[i].SessionFailed?
    ensures Tally(events).sessionFailures == |events|
  {
    if events != [] { FailuresCounted(events[..|events| - 1]); }
  }

  /** And after one without faults: ready from three cycles on. */
  lemma {:induction false} SharesAreCounted(script: seq<Answer>, n: nat)
    requires |script| >= 4 * n
    ensures var st := Tally(Shares(script, n));
            st.acceptedCount == n && st.Failures() == 0 && (st.Status() == Ready <==> n >= 3)
  {
    var events := Shares(script, n);
    AllAccepted(events);
    TallyAccepts([], events);
    assert [] + events == events;
    NoFailures(events);
  }

  lemma {:induction false} NoFailures(events: seq<Event>)
    requires forall i | 0 <= i < |events| :: events[i].Accepted?
    ensures Tally(events).Failures() == 0
  {
    if events != [] { NoFailures(events[..|events| - 1]); }
  }

  /** What the script says about a whole run, in three cases: a refusal in the first opening
      under a cap of one, refusals up to any cap, and no fault at all. */
  ghost predicate ScriptDecides(cfg: Settings, script: seq<Answer>, r: Whole) {
    && (cfg.maxReconnectAttempts == 1 && script != [] && !Stops(script[0]) && !Opens(script[1..]) ==>
          && r.rc == 4 && r.events == [SessionFailed(4)] && r.sleeps == [] && r.sessions == 1
          && Tally(r.events).acceptedCount == 0)
    && (0 < cfg.maxReconnectAttempts && Refuses(script, cfg.maxReconnectAttempts) ==>
          && r.rc == 4 && r.events == Refusals(cfg.maxReconnectAttempts)
          && r.sessions == cfg.maxReconnectAttempts == |r.sleeps| + 1
          && Tally(r.events).acceptedCount == 0 && Tally(r.events).sessionFailures == cfg.maxReconnectAttempts)
    && (0 < cfg.maxCycles && Faultless(script, cfg.maxCycles) ==>
          && r.rc == 0 && r.sleeps == [] && r.sessions == 1 && r.events == Shares(script[4..], cfg.maxCycles)
          && Tally(r.events).acceptedCount == cfg.maxCycles
          && (Tally(r.events).Status() == Ready <==> cfg.maxCycles >= 3))
  }

  lemma {:induction false} RunIsDecided(cfg: Settings, script: seq<Answer>)
    requires cfg.Valid()
    ensures ScriptDecides(cfg, script, RunOf(cfg, Begin(script), 0, 0, cfg.First()))
  {
    var cap, n := cfg.maxReconnectAttempts, cfg.maxCycles;
    if cap == 1 && script != [] && !Stops(script[0]) && !Opens(script[1..]) {
      FirstRefusalEnds(cfg, script);
      RefusalsAreCounted(1);
      assert Refusals(1) == [SessionFailed(4)];
    }
    if 0 < cap && Refuses(script, cap) {
      RefusalsEnd(cfg, Begin(script), 0, cfg.First(), cap);
      assert [] + Refusals(cap) == Refusals(cap);
      RefusalsAreCounted(cap);
    }
    if 0 < n && Faultless(script, n) {
      FaultlessRun(cfg, script, n);
      SharesAreCounted(script[4..], n);
    }
  }
}
