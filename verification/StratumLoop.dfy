/**
 One session with the pool and the reconnect loop around it, on the object whose counters
 they share; proved to do what `SessionRules` says.
 */
module StratumLoop {
  import opened Backoff
  import opened SessionLaws
  import opened SessionRules

  // ----- the loops -----

  class Runtime {
    const cfg: Settings

    // what is left of the environment's answers, and whether a stop was requested
    var script: seq<Answer>
    var stopped: bool

    var stats: SessionStats
    var cyclesDone: nat

    // history: events, sessions started, delays slept, and the counters at every health snapshot
    ghost var log: seq<Event>
    var sessions: nat
    var sleeps: seq<nat>
    var snapshots: seq<SessionStats>

    constructor (cfg: Settings, script: seq<Answer>)
      requires cfg.Valid()
      ensures this.cfg == cfg && this.script == script && !stopped && Start()
    {
      this.cfg, this.script, stopped := cfg, script, false;
      stats, cyclesDone := FRESH_STATS, 0;
      log, sessions, sleeps, snapshots := [], 0, [], [];
    }

    ghost predicate Start()
      reads this
    {
      && cfg.Valid() && stats == FRESH_STATS && cyclesDone == 0
      && log == [] && sessions == 0 && sleeps == [] && snapshots == []
    }

    ghost predicate Valid()
      reads this
    {
      && cfg.Valid()
      && stats == Tally(log) && RejectionsFail(log)
      && cyclesDone == stats.acceptedCount % TWO_TO_THE_32
      && (cfg.maxCycles > 0 ==> stats.acceptedCount <= cfg.maxCycles)
      && Ordered(snapshots, stats)
    }

    /** Between sessions, no rejected share is still unaccounted for. */
    ghost predicate Settled()
      reads this
    {
      log == [] || log[|log| - 1] != Rejected
    }

    /** One more event, with its effect on the counters already made. */
    ghost method Append(e: Event)
      requires stats == Record(Tally(log), e) && Ordered(snapshots, Tally(log))
      requires RejectionsFail(log) && (e == SessionFailed(8) <==> log != [] && log[|log| - 1] == Rejected)
      modifies this`log
      ensures log == old(log) + [e] && stats == Tally(log) && RejectionsFail(log) && Ordered(snapshots, stats)
    {
      TallyAppend(log, e);
      OrderedLater(snapshots, Tally(log), e);
      log := log + [e];
    }

    /** The bound on accepted shares has been reached, or the user stopped the program. */
    ghost predicate Over()
      reads this
    {
      stopped || (cfg.maxCycles > 0 && cyclesDone >= cfg.maxCycles)
    }

    /** The next answer of the environment. */
    method Ask() returns (a: Answer)
      modifies this`script, this`stopped
      ensures Asked(a, script, stopped) == AskOf(old(script), old(stopped))
    {
      if script == [] {
        stopped := true;
        return Answer(true, false, Aborted, "");
      }
      a := script[0];
      script := script[1..];
      stopped := stopped || a.stop || a.mined == Aborted;
    }

    /** `stop_requested.load()` */
    method LoadStop() returns (b: bool)
      modifies this`script, this`stopped
      ensures var r := AskOf(old(script), old(stopped)); b == stopped == r.stopped && script == r.script
    {
      var a := Ask();
      b := stopped;
    }

    method Snapshot()
      requires Ordered(snapshots, stats)
      modifies this`snapshots
      ensures Ordered(snapshots, stats) && snapshots == old(snapshots) + [stats]
      ensures snapshots[|snapshots| - 1] == stats
    {
      snapshots := snapshots + [stats];
    }

    /** Connect, subscribe, authorize; the first refusal ends it. */
    method StartSession() returns (ok: bool)
      modifies this`script, this`stopped
      ensures ok <==> Opens(old(script))
      ensures ok ==> script == old(script)[3..]
      ensures forall n: nat | RefusedAt(old(script), n) :: script == old(script)[n + 1..]
      ensures Opening(ok, script, stopped) == OpeningOf(old(script), old(stopped))
    {
      OpeningLaw(script, stopped);
      var a := Ask();
      if !a.ok { return false; }
      a := Ask();
      if !a.ok { return false; }
      a := Ask();
      return a.ok;
    }

    /** One job: wait for it, search, submit. */
    method RunCycle() returns (e: Event)
      requires Valid() && Settled() && (cfg.maxCycles == 0 || cyclesDone < cfg.maxCycles)
      modifies this`script, this`stopped, this`stats, this`cyclesDone, this`snapshots, this`log
      ensures Valid() && Cycle(e, script, stopped) == CycleOf(old(script), old(stopped))
      ensures log == old(log) + [e]
      ensures snapshots == old(snapshots) + (if e.Accepted? then [stats] else [])
    {
      var job := Ask();
      if !job.ok {
        var stop := LoadStop();
        e := if stop then StoppedWaiting else Lost;
        Append(e);
        return;
      }
      stats := stats.(jobsReceived := stats.jobsReceived + 1);
      e := SearchJob(job.jobId);
    }

    /** A job was received and counted. */
    method SearchJob(jobId: string) returns (e: Event)
      requires cfg.Valid() && RejectionsFail(log) && Settled() && Ordered(snapshots, Tally(log))
      requires stats == Tally(log).(jobsReceived := Tally(log).jobsReceived + 1)
      requires cyclesDone == stats.acceptedCount % TWO_TO_THE_32
      requires cfg.maxCycles > 0 ==> cyclesDone == stats.acceptedCount < cfg.maxCycles
      modifies this`script, this`stopped, this`stats, this`cyclesDone, this`snapshots, this`log
      ensures Valid() && log == old(log) + [e]
      ensures var search := AskOf(old(script), old(stopped));
              var submit := AskOf(search.script, search.stopped);
              match search.answer.mined
              case Aborted => e == SearchAborted && stopped && Asked(search.answer, script, stopped) == search
              case NoShare => e == NoShareFound && Asked(search.answer, script, stopped) == search
              case Share => e == (if submit.answer.ok then Accepted(jobId) else Rejected)
                            && Asked(submit.answer, script, stopped) == submit
      ensures snapshots == old(snapshots) + (if e.Accepted? then [stats] else [])
    {
      var search := Ask();
      if search.mined == Share {
        e := SubmitShare(jobId);
      } else {
        e := if search.mined == Aborted then SearchAborted else NoShareFound;
        Append(e);
      }
    }

    /** A share was found for the job that has just been counted. */
    method SubmitShare(jobId: string) returns (e: Event)
      requires cfg.Valid() && RejectionsFail(log) && Settled() && Ordered(snapshots, Tally(log))
      requires stats == Tally(log).(jobsReceived := Tally(log).jobsReceived + 1)
      requires cyclesDone == stats.acceptedCount % TWO_TO_THE_32
      requires cfg.maxCycles > 0 ==> cyclesDone == stats.acceptedCount < cfg.maxCycles
      modifies this`script, this`stopped, this`stats, this`cyclesDone, this`snapshots, this`log
      ensures Valid() && log == old(log) + [e]
      ensures var submit := AskOf(old(script), old(stopped));
              && e == (if submit.answer.ok then Accepted(jobId) else Rejected)
              && Asked(submit.answer, script, stopped) == submit
      ensures snapshots == old(snapshots) + (if e == Rejected then [] else [stats])
    {
      stats := stats.(sharesFound := stats.sharesFound + 1, submitsAttempted := stats.submitsAttempted + 1);
      var submit := Ask();
      if !submit.ok {
        e := Rejected;
        CountRejected();
        return;
      }
      e := Accepted(jobId);
      CountAccepted(jobId);
    }

    /** The pool did not accept the share that has just been counted as submitted. */
    method CountRejected()
      requires cfg.Valid() && RejectionsFail(log) && Settled() && Ordered(snapshots, Tally(log))
      requires stats.(submitFailures := stats.submitFailures + 1) == Record(Tally(log), Rejected)
      requires cyclesDone == stats.acceptedCount % TWO_TO_THE_32
      requires cfg.maxCycles > 0 ==> stats.acceptedCount < cfg.maxCycles
      modifies this`stats, this`log
      ensures Valid() && log == old(log) + [Rejected]
      ensures stats == old(stats).(submitFailures := old(stats).submitFailures + 1)
    {
      stats := stats.(submitFailures := stats.submitFailures + 1);
      Append(Rejected);
    }

    /** The pool accepted the share that has just been counted as submitted. */
    method CountAccepted(jobId: string)
      requires cfg.Valid() && RejectionsFail(log) && Settled() && Ordered(snapshots, Tally(log))
      requires stats.(acceptedCount := stats.acceptedCount + 1, lastJobId := jobId) == Record(Tally(log), Accepted(jobId))
      requires cyclesDone == stats.acceptedCount % TWO_TO_THE_32
      requires cfg.maxCycles > 0 ==> cyclesDone == stats.acceptedCount < cfg.maxCycles
      modifies this`stats, this`cyclesDone, this`snapshots, this`log
      ensures Valid() && log == old(log) + [Accepted(jobId)]
      ensures stats == old(stats).(acceptedCount := old(stats).acceptedCount + 1, lastJobId := jobId)
      ensures snapshots == old(snapshots) + [stats]
    {
      NextCycle(stats.acceptedCount);
      cyclesDone := (cyclesDone + 1) % TWO_TO_THE_32;
      stats := stats.(acceptedCount := stats.acceptedCount + 1, lastJobId := jobId);
      Append(Accepted(jobId));
      Snapshot();
    }

    /** The test of the session's loop; `whole` is what the session amounts to, of which
        `events` have happened. */
    method Continues(ghost events: seq<Event>, ghost whole: Ending) returns (b: bool)
      requires whole == Prepend(events, CyclesOf(cfg.maxCycles, script, stopped, stats.acceptedCount))
      requires cyclesDone == stats.acceptedCount % TWO_TO_THE_32
      modifies this`script, this`stopped
      ensures b <==> !stopped && (cfg.maxCycles == 0 || cyclesDone < cfg.maxCycles)
      ensures (old(stopped) ==> stopped) && |script| <= |old(script)| && (b ==> |script| < |old(script)|)
      ensures whole == if b then Prepend(events, TurnOf(cfg.maxCycles, script, stopped, stats.acceptedCount))
                       else Ending(0, events, script, stopped)
    {
      var stop := LoadStop();
      assert events + [] == events;
      b := !stop && (cfg.maxCycles == 0 || cyclesDone < cfg.maxCycles);
    }

    /** The body of the session's loop. */
    method Turn(ghost events: seq<Event>, ghost whole: Ending) returns (e: Event)
      requires Valid() && Settled() && (cfg.maxCycles == 0 || cyclesDone < cfg.maxCycles)
      requires whole == Prepend(events, TurnOf(cfg.maxCycles, script, stopped, stats.acceptedCount))
      modifies this`script, this`stopped, this`stats, this`cyclesDone, this`snapshots, this`log
      ensures Valid() && log == old(log) + [e] && stats.sessionFailures == old(stats).sessionFailures
      ensures Settled() <==> e != Rejected
      ensures Ends(e) && CodeOf(e) == 0 ==> Over()
      ensures |script| <= |old(script)| && (old(stopped) ==> stopped)
      ensures whole == if Ends(e) then Ending(CodeOf(e), events + [e], script, stopped)
                       else Prepend(events + [e], CyclesOf(cfg.maxCycles, script, stopped, stats.acceptedCount))
    {
      ghost var s, b, st := script, stopped, stats;
      e := RunCycle();
      TallyAppend(old(log), e);
      RecordFacts(st, e);
      TurnStep(cfg.maxCycles, s, b, st.acceptedCount, events, Cycle(e, script, stopped), stats.acceptedCount);
    }

    /** The test and the body; `added` is what has happened meanwhile. */
    method Iterate(ghost events: seq<Event>, ghost whole: Ending) returns (done: bool, rc: nat, ghost added: seq<Event>)
      requires Valid() && Settled()
      requires whole == Prepend(events, CyclesOf(cfg.maxCycles, script, stopped, stats.acceptedCount))
      modifies this`script, this`stopped, this`stats, this`cyclesDone, this`snapshots, this`log
      ensures Valid() && log == old(log) + added && stats.sessionFailures == old(stats).sessionFailures
      ensures done ==> Finished(rc) && whole == Ending(rc, events + added, script, stopped)
      ensures !done ==> Settled() && |script| < |old(script)|
                        && whole == Prepend(events + added, CyclesOf(cfg.maxCycles, script, stopped, stats.acceptedCount))
    {
      var go := Continues(events, whole);
      if !go {
        assert log == old(log) + [] && events + [] == events;
        return true, 0, [];
      }
      var e := Turn(events, whole);
      return Ends(e), CodeOf(e), [e];
    }

    /** How a session can have ended, once it has been opened. */
    ghost predicate Finished(rc: nat)
      reads this
    {
      (rc == 0 || rc == 6 || rc == 8) && (rc == 0 ==> Over()) && (rc == 8 <==> !Settled())
    }

    /** The loop of `run_stratum_session`. */
    method RunCycles() returns (rc: nat, ghost events: seq<Event>)
      requires Valid() && Settled()
      modifies this`script, this`stopped, this`stats, this`cyclesDone, this`snapshots, this`log
      ensures Valid() && log == old(log) + events && stats.sessionFailures == old(stats).sessionFailures
      ensures Finished(rc)
      ensures Ending(rc, events, script, stopped)
           == CyclesOf(cfg.maxCycles, old(script), old(stopped), old(stats).acceptedCount)
    {
      ghost var whole := CyclesOf(cfg.maxCycles, script, stopped, stats.acceptedCount);
      events := [];
      PrependMore([], Lost, whole);
      while true
        invariant Valid() && Settled()
        invariant log == old(log) + events && stats.sessionFailures == old(stats).sessionFailures
        invariant whole == Prepend(events, CyclesOf(cfg.maxCycles, script, stopped, stats.acceptedCount))
        decreases |script|
      {
        var done;
        ghost var added;
        done, rc, added := Iterate(events, whole);
        Appended(old(log), events, added);
        events := events + added;
        if done { break; }
      }
    }

    /** `run_stratum_session` */
    method RunSession() returns (rc: nat, ghost events: seq<Event>)
      requires Valid() && Settled()
      modifies this`script, this`stopped, this`stats, this`cyclesDone, this`snapshots, this`log, this`sessions
      ensures Valid() && log == old(log) + events && stats.sessionFailures == old(stats).sessionFailures
      ensures if rc == 4 then Settled() && events == [] else Finished(rc)
      ensures (old(stopped) ==> stopped) && |script| <= |old(script)|
      ensures rc == 4 <==> !Opens(old(script))
      ensures forall n: nat | RefusedAt(old(script), n) :: rc == 4 && events == [] && script == old(script)[n + 1..]
      ensures Ending(rc, events, script, stopped)
           == SessionOf(cfg.maxCycles, old(script), old(stopped), old(stats).acceptedCount)
      ensures sessions == old(sessions) + 1 && stats.acceptedCount == old(stats).acceptedCount + Accepts(events)
    {
      sessions := sessions + 1;
      var started := StartSession();
      if started {
        rc, events := RunCycles();
      } else {
        rc, events := 4, [];
        assert log == old(log) + events;
      }
      TallyAccepts(old(log), events);
    }

    /** What the outer loop keeps: failures and sleeps in step, delays from the one sequence.
        `over`: a session has returned 0. */
    ghost predicate LoopInv(over: bool)
      reads this
    {
      && Valid() && Settled()
      && |sleeps| == stats.sessionFailures && sessions == stats.sessionFailures + (if over then 1 else 0)
      && (sessions == 0 ==> stats.acceptedCount == 0)
      && Delays(sleeps, cfg.First(), cfg.Cap())
      && (cfg.maxReconnectAttempts > 0 ==> stats.sessionFailures < cfg.maxReconnectAttempts)
      && (over ==> Over())
    }

    /** How the loop can have ended. */
    ghost predicate Concluded(finalRc: nat)
      reads this
    {
      && Valid() && Settled()
      && (finalRc == 0 || finalRc == 4 || finalRc == 6 || finalRc == 8)
      && (finalRc != 0 <==> cfg.maxReconnectAttempts > 0 && stats.sessionFailures >= cfg.maxReconnectAttempts)
      && (finalRc != 0 ==> stats.sessionFailures == cfg.maxReconnectAttempts == |sleeps| + 1 && stats.lastFailureRc == finalRc)
      && |sleeps| <= stats.sessionFailures <= sessions <= stats.sessionFailures + 1
      && (finalRc != 0 ==> sessions == stats.sessionFailures)
      && (sessions == 0 ==> stats.acceptedCount == 0)
      && (finalRc == 0 ==> Over())
      && Delays(sleeps, cfg.First(), cfg.Cap())
    }

    lemma FailureConcludes(finalRc: nat)
      requires Valid() && Settled() && sessions == stats.sessionFailures == |sleeps| + 1
      requires finalRc == 0 || finalRc == 4 || finalRc == 6 || finalRc == 8
      requires finalRc != 0 <==> cfg.maxReconnectAttempts > 0 && stats.sessionFailures >= cfg.maxReconnectAttempts
      requires if finalRc == 0 then stopped else stats.sessionFailures == cfg.maxReconnectAttempts && stats.lastFailureRc == finalRc
      requires Delays(sleeps, cfg.First(), cfg.Cap())
      ensures Concluded(finalRc)
    {
    }

    /** The accounting after a failed session. */
    method CountFailure(rc: nat)
      requires Valid() && (rc == 8 <==> !Settled())
      modifies this`stats, this`snapshots, this`log
      ensures Valid() && Settled()
      ensures log == old(log) + [SessionFailed(rc)] && snapshots == old(snapshots) + [stats]
      ensures stats == old(stats).(reconnectEvents := old(stats).reconnectEvents + 1,
                                   sessionFailures := old(stats).sessionFailures + 1, lastFailureRc := rc)
    {
      stats := stats.(reconnectEvents := stats.reconnectEvents + 1,
                      sessionFailures := stats.sessionFailures + 1, lastFailureRc := rc);
      Append(SessionFailed(rc));
      Snapshot();
    }

    /** The accounting after a failed session, the cap, and the sleep. */
    method AfterFailure(rc: nat, backoffSec: nat) returns (finished: bool, finalRc: nat)
      requires Valid() && |sleeps| == stats.sessionFailures == sessions - 1 && (rc == 8 <==> !Settled())
      requires rc == 4 || rc == 6 || rc == 8
      requires backoffSec == Delay(cfg.First(), cfg.Cap(), |sleeps|)
      requires Delays(sleeps, cfg.First(), cfg.Cap())
      requires cfg.maxReconnectAttempts > 0 ==> stats.sessionFailures < cfg.maxReconnectAttempts
      modifies this`script, this`stopped, this`stats, this`snapshots, this`sleeps, this`log
      ensures Valid() && Settled() && (old(stopped) ==> stopped)
      ensures |script| <= |old(script)| && (!finished ==> |script| < |old(script)|)
      ensures log == old(log) + [SessionFailed(rc)] && snapshots == old(snapshots) + [stats]
      ensures !finished ==> finalRc == 0 && LoopInv(false) && sleeps == old(sleeps) + [backoffSec]
      ensures finished ==> sleeps == old(sleeps) && Concluded(finalRc) && (finalRc == 0 ==> stopped)
      ensures stats.sessionFailures == old(stats).sessionFailures + 1 && stats.acceptedCount == old(stats).acceptedCount
      ensures var load := AskOf(old(script), old(stopped));
              if cfg.maxReconnectAttempts > 0 && stats.sessionFailures >= cfg.maxReconnectAttempts then
                finished && finalRc == rc && script == old(script) && stopped == old(stopped)
              else
                finished == load.stopped && finalRc == 0 && script == load.script && stopped == load.stopped
    {
      CountFailure(rc);
      if cfg.maxReconnectAttempts > 0 && stats.sessionFailures >= cfg.maxReconnectAttempts {
        FailureConcludes(rc);
        return true, rc;
      }
      var stop := LoadStop();
      if stop {
        FailureConcludes(0);
        return true, 0;
      }
      OneMoreDelay(sleeps, cfg.First(), cfg.Cap(), backoffSec);
      sleeps := sleeps + [backoffSec];
      return false, 0;
    }

    lemma Concludes(over: bool)
      requires LoopInv(over) && Over()
      ensures Concluded(0)
    {
    }

    /** What has happened up to now. */
    ghost function Happened(rc: nat): Whole
      reads this
    {
      Whole(rc, log, sleeps, sessions, script, stopped)
    }

    /** A session has just failed. */
    ghost predicate Failing(rc: nat, backoffSec: nat)
      reads this
    {
      && Valid() && |sleeps| == stats.sessionFailures == sessions - 1
      && (rc == 4 || rc == 6 || rc == 8) && (rc == 8 <==> !Settled())
      && backoffSec == Delay(cfg.First(), cfg.Cap(), |sleeps|) && Delays(sleeps, cfg.First(), cfg.Cap())
      && (cfg.maxReconnectAttempts > 0 ==> stats.sessionFailures < cfg.maxReconnectAttempts)
    }

    /** What follows a failed session. */
    method Retry(rc: nat, backoffSec: nat, ghost whole: Whole) returns (done: bool, finalRc: nat, next: nat)
      requires Failing(rc, backoffSec)
      requires whole == FromEnding(cfg, rc, Happened(0), stats.acceptedCount, stats.sessionFailures, backoffSec)
      modifies this
      ensures |script| <= |old(script)|
      ensures done ==> Concluded(finalRc) && whole == Happened(finalRc)
      ensures !done ==> finalRc == 0 && LoopInv(false)
      ensures !done ==> whole == RunOf(cfg, Happened(0), stats.acceptedCount, stats.sessionFailures, next)
      ensures !done ==> next == Delay(cfg.First(), cfg.Cap(), |sleeps|)
    {
      var backoffMax := Max(Max(1, cfg.reconnectInitialSec), cfg.reconnectMaxSec);
      done, finalRc := AfterFailure(rc, backoffSec);
      next := Min(backoffMax, (backoffSec * 2) % TWO_TO_THE_32);
    }

    /** One session, and what the run amounts to after it. */
    method Account(backoffSec: nat, ghost whole: Whole) returns (rc: nat)
      requires Valid() && Settled()
      requires whole == FromSession(cfg, Happened(0), stats.acceptedCount, stats.sessionFailures, backoffSec)
      modifies this`script, this`stopped, this`stats, this`cyclesDone, this`snapshots, this`log, this`sessions
      ensures Valid() && stats.sessionFailures == old(stats).sessionFailures && sessions == old(sessions) + 1
      ensures |script| <= |old(script)|
      ensures if rc == 4 then Settled() else Finished(rc)
      ensures whole == FromEnding(cfg, rc, Happened(0), stats.acceptedCount, stats.sessionFailures, backoffSec)
    {
      ghost var events;
      rc, events := RunSession();
    }

    /** The test of the reconnect loop. */
    method Goes(backoffSec: nat, ghost over: bool, ghost whole: Whole) returns (b: bool)
      requires LoopInv(over)
      requires whole == RunOf(cfg, Happened(0), stats.acceptedCount, stats.sessionFailures, backoffSec)
      modifies this`script, this`stopped
      ensures |script| <= |old(script)| && (b ==> |script| < |old(script)|)
      ensures !b ==> Concluded(0) && whole == Happened(0)
      ensures b ==> !over && LoopInv(false)
      ensures b ==> whole == FromSession(cfg, Happened(0), stats.acceptedCount, stats.sessionFailures, backoffSec)
    {
      var stop := LoadStop();
      b := !stop && (cfg.maxCycles == 0 || cyclesDone < cfg.maxCycles);
      if !b { Concludes(over); }
    }

    /** The reconnect loop of `run_stratum_loop`. */
    method Reconnect() returns (finalRc: nat)
      requires Start()
      modifies this
      ensures Concluded(finalRc)
      ensures Happened(finalRc) == RunOf(cfg, old(Happened(0)), 0, 0, cfg.First())
    {
      finalRc := 0;
      var backoffSec := Max(1, cfg.reconnectInitialSec);
      ghost var over := false;  // a session has returned 0
      ghost var whole := RunOf(cfg, Happened(0), 0, 0, backoffSec);
      while true
        invariant LoopInv(over)
        invariant whole == RunOf(cfg, Happened(0), stats.acceptedCount, stats.sessionFailures, backoffSec)
        invariant !over ==> backoffSec == Delay(cfg.First(), cfg.Cap(), |sleeps|)
        decreases |script|
      {
        var go := Goes(backoffSec, over, whole);
        if !go { return 0; }
        var rc := Account(backoffSec, whole);
        if rc == 0 {
          backoffSec := Max(1, cfg.reconnectInitialSec);
          over := true;
          continue;
        }
        var done;
        done, finalRc, backoffSec := Retry(rc, backoffSec, whole);
        if done { return; }
      }
    }

    /** `run_stratum_loop`: the loop, the last health snapshot, the exit code. */
    method RunLoop() returns (finalRc: nat)
      requires Start()
      modifies this
      // code, events, delays and sessions are those that the answers decide
      ensures Happened(finalRc) == RunOf(cfg, old(Happened(0)), 0, 0, cfg.First())
      // so a script of refusals, and one without faults, ends with the code and counters it should
      ensures !old(stopped) ==> ScriptDecides(cfg, old(script), Happened(finalRc))
      // the counters are the tally of what happened, and balance
      ensures stats == Tally(log)
      ensures stats.submitsAttempted == stats.sharesFound == stats.acceptedCount + stats.submitFailures
      ensures stats.sharesFound <= stats.jobsReceived
      ensures stats.reconnectEvents == stats.sessionFailures >= stats.submitFailures
      ensures cyclesDone == stats.acceptedCount % TWO_TO_THE_32
      ensures cfg.maxCycles > 0 ==> stats.acceptedCount <= cfg.maxCycles
      // a nonzero code means that the cap on reconnects was reached, exactly
      ensures finalRc == 0 || finalRc == 4 || finalRc == 6 || finalRc == 8
      ensures finalRc != 0 <==> cfg.maxReconnectAttempts > 0 && stats.sessionFailures >= cfg.maxReconnectAttempts
      ensures finalRc != 0 ==> stats.sessionFailures == cfg.maxReconnectAttempts == |sleeps| + 1
                               && stats.lastFailureRc == finalRc
      ensures cfg.maxReconnectAttempts > 0 ==> |sleeps| < cfg.maxReconnectAttempts && sessions <= cfg.maxReconnectAttempts
      // otherwise the run was stopped or did all its cycles
      ensures finalRc == 0 && !stopped ==> cfg.maxCycles > 0 && stats.acceptedCount == cfg.maxCycles
      // the delays never restart
      ensures Delays(sleeps, cfg.First(), cfg.Cap())
      ensures cfg.Cap() < TWO_TO_THE_31 ==>
                forall k | 0 <= k < |sleeps| :: sleeps[k] == ExponentialDelay(cfg.First(), cfg.Cap(), k)
      // the readiness at every snapshot, and what a final "ready" implies
      ensures WellShaped(Trace(snapshots)) && snapshots != [] && snapshots[|snapshots| - 1] == stats
      ensures stats.Status() == Ready ==> finalRc == 0 && sessions == 1 && sleeps == []
    {
      RunIsDecided(cfg, script);
      finalRc := Reconnect();
      DelaysAreExponential(sleeps, cfg.First(), cfg.Cap());
      CountersBalance(log);
      Snapshot();
      OrderedTraceIsWellShaped(snapshots, stats);
    }
  }
}
