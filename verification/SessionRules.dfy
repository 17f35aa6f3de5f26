/**
 What one session with the pool and the reconnect loop around it amount to, on values: the
 counters, the readiness status, and the course of a run.

 What the pool, the network, the search and the user do is a script of answers: each
 interaction takes the next one, and any of them may carry the stop request, which then
 stays.  When the script is used up the user stops the program, so every finite part of
 every run is the run of some script.
 */
module SessionRules {
  import opened Arithmetic
  import opened Backoff

  datatype Mined = NoShare | Share | Aborted

  /** One interaction: its success, for a search its outcome, for a job its name. */
  datatype Answer = Answer(stop: bool, ok: bool, mined: Mined, jobId: string)

  datatype Settings =
    Settings(maxCycles: nat, maxReconnectAttempts: nat, reconnectInitialSec: nat, reconnectMaxSec: nat)
  {
    predicate Valid() {
      && maxCycles < TWO_TO_THE_32 && maxReconnectAttempts < TWO_TO_THE_32
      && reconnectInitialSec < TWO_TO_THE_32 && reconnectMaxSec < TWO_TO_THE_32
    }

    function First(): nat { FirstDelay(reconnectInitialSec) }

    function Cap(): nat { DelayCap(reconnectInitialSec, reconnectMaxSec) }
  }

  // ----- readiness -----

  datatype Readiness = NotReady | Degraded | Ready

  function ReadinessStatus(accepted: nat, submitFailures: nat, sessionFailures: nat): Readiness {
    if accepted >= 3 && submitFailures == 0 && sessionFailures == 0 then Ready
    else if accepted > 0 then Degraded
    else NotReady
  }

  /** The four stages a run can go through; they are never revisited. */
  function Stage(accepted: nat, failures: nat): nat {
    if accepted == 0 then 0
    else if failures > 0 then 3
    else if accepted < 3 then 1
    else 2
  }

  function StageStatus(stage: nat): Readiness {
    if stage == 0 then NotReady else if stage == 2 then Ready else Degraded
  }

  lemma StatusOfStage(accepted: nat, submitFailures: nat, sessionFailures: nat)
    ensures ReadinessStatus(accepted, submitFailures, sessionFailures)
            == StageStatus(Stage(accepted, submitFailures + sessionFailures))
  {
  }

  /** not_ready* degraded* ready* degraded* */
  ghost predicate WellShaped(trace: seq<Readiness>) {
    exists i, j, k :: ShapedAt(trace, i, j, k)
  }

  ghost predicate ShapedAt(trace: seq<Readiness>, i: nat, j: nat, k: nat) {
    && i <= j <= k <= |trace|
    && forall x | 0 <= x < |trace| ::
         trace[x] == if x < i then NotReady else if x < j then Degraded else if x < k then Ready else Degraded
  }

  ghost predicate Sorted(stages: seq<nat>) {
    forall i, j | 0 <= i < j < |stages| :: stages[i] <= stages[j]
  }

  /** The number of stages below `bound`. */
  function CountBelow(stages: seq<nat>, bound: nat): (n: nat)
    ensures n <= |stages|
  {
    if stages == [] then 0
    else CountBelow(stages[..|stages| - 1], bound) + (if stages[|stages| - 1] < bound then 1 else 0)
  }

  lemma {:induction false} SortedSplits(stages: seq<nat>, bound: nat)
    requires Sorted(stages)
    ensures forall x | 0 <= x < |stages| :: stages[x] < bound <==> x < CountBelow(stages, bound)
  {
    if stages != [] {
      var front := stages[..|stages| - 1];
      SortedSplits(front, bound);
      assert forall x | 0 <= x < |front| :: front[x] == stages[x] <= stages[|stages| - 1];
    }
  }

  lemma {:induction false} CountMonotone(stages: seq<nat>, a: nat, b: nat)
    requires a <= b
    ensures CountBelow(stages, a) <= CountBelow(stages, b)
  {
    if stages != [] { CountMonotone(stages[..|stages| - 1], a, b); }
  }

  lemma {:induction false} SortedStagesAreWellShaped(stages: seq<nat>, trace: seq<Readiness>)
    requires Sorted(stages) && |trace| == |stages|
    requires forall x | 0 <= x < |trace| :: trace[x] == StageStatus(stages[x])
    ensures WellShaped(trace)
  {
    var i, j, k := CountBelow(stages, 1), CountBelow(stages, 2), CountBelow(stages, 3);
    SortedSplits(stages, 1);
    SortedSplits(stages, 2);
    SortedSplits(stages, 3);
    CountMonotone(stages, 1, 2);
    CountMonotone(stages, 2, 3);
    assert ShapedAt(trace, i, j, k);
  }

  // ----- the counters -----

  datatype SessionStats = SessionStats(
    jobsReceived: nat,
    sharesFound: nat,
    submitsAttempted: nat,
    submitFailures: nat,
    acceptedCount: nat,
    reconnectEvents: nat,
    sessionFailures: nat,
    lastFailureRc: nat,
    lastJobId: string)
  {
    function Failures(): nat { submitFailures + sessionFailures }

    function Status(): Readiness { ReadinessStatus(acceptedCount, submitFailures, sessionFailures) }
  }

  const FRESH_STATS := SessionStats(0, 0, 0, 0, 0, 0, 0, 0, "none")

  /** What can happen to one job, and the failure of a session. */
  datatype Event =
    | StoppedWaiting | Lost | SearchAborted | NoShareFound | Rejected | Accepted(jobId: string)
    | SessionFailed(rc: nat)

  function Record(st: SessionStats, e: Event): SessionStats {
    match e
    case StoppedWaiting => st
    case Lost => st
    case SearchAborted => st.(jobsReceived := st.jobsReceived + 1)
    case NoShareFound => st.(jobsReceived := st.jobsReceived + 1)
    case Rejected => st.(jobsReceived := st.jobsReceived + 1, sharesFound := st.sharesFound + 1,
                         submitsAttempted := st.submitsAttempted + 1, submitFailures := st.submitFailures + 1)
    case Accepted(j) => st.(jobsReceived := st.jobsReceived + 1, sharesFound := st.sharesFound + 1,
                            submitsAttempted := st.submitsAttempted + 1, acceptedCount := st.acceptedCount + 1, lastJobId := j)
    case SessionFailed(rc) => st.(reconnectEvents := st.reconnectEvents + 1,
                                  sessionFailures := st.sessionFailures + 1, lastFailureRc := rc)
  }

  /** What an event means for the session: whether it ends, and with which code. */
  predicate Ends(e: Event) { e == StoppedWaiting || e == Lost || e == SearchAborted || e == Rejected }

  function CodeOf(e: Event): nat { if e == Lost then 6 else if e == Rejected then 8 else 0 }

  function Tally(log: seq<Event>): SessionStats {
    if log == [] then FRESH_STATS else Record(Tally(log[..|log| - 1]), log[|log| - 1])
  }

  lemma TallyAppend(log: seq<Event>, e: Event)
    ensures Tally(log + [e]) == Record(Tally(log), e)
  {
    assert (log + [e])[..|log|] == log;
  }

  /** The session of a rejected share fails next, and no other session fails with code 8. */
  ghost predicate RejectionsFail(log: seq<Event>) {
    forall i, j | 0 <= i < j < |log| && j == i + 1 :: log[i] == Rejected <==> log[j] == SessionFailed(8)
  }

  /** Counter conservation, for every history of events. */
  lemma {:induction false} CountersBalance(log: seq<Event>)
    ensures var st := Tally(log);
            && st.submitsAttempted == st.sharesFound == st.acceptedCount + st.submitFailures
            && st.sharesFound <= st.jobsReceived
            && st.reconnectEvents == st.sessionFailures
            && (RejectionsFail(log) ==>
                  st.submitFailures <= st.sessionFailures + (if log != [] && log[|log| - 1] == Rejected then 1 else 0))
  {
    if log != [] {
      var front := log[..|log| - 1];
      CountersBalance(front);
      assert RejectionsFail(log) ==> RejectionsFail(front);
    }
  }

  /** `jobId` is that of the last accepted share of a history. */
  ghost predicate LastAccepted(log: seq<Event>, i: nat, jobId: string) {
    i < |log| && log[i] == Accepted(jobId) && forall j | i < j < |log| :: !log[j].Accepted?
  }

  lemma LastAcceptedLater(log: seq<Event>, i: nat, jobId: string)
    requires log != [] && LastAccepted(log[..|log| - 1], i, jobId) && !log[|log| - 1].Accepted?
    ensures LastAccepted(log, i, jobId)
  {
    forall j | i < j < |log| ensures !log[j].Accepted? {
      if j < |log| - 1 { assert log[..|log| - 1][j] == log[j]; }
    }
  }

  lemma RecordKeepsJob(st: SessionStats, e: Event)
    requires !e.Accepted?
    ensures Record(st, e).lastJobId == st.lastJobId && Record(st, e).acceptedCount == st.acceptedCount
  {
  }

  /** The last accepted job is the one that is reported. */
  lemma {:induction false} LastJobIsLastAccepted(log: seq<Event>)
    ensures Tally(log).acceptedCount > 0 ==> exists i :: LastAccepted(log, i, Tally(log).lastJobId)
    ensures Tally(log).acceptedCount == 0 ==> Tally(log).lastJobId == "none"
  {
    if log != [] {
      var front, last := log[..|log| - 1], log[|log| - 1];
      LastJobIsLastAccepted(front);
      if last.Accepted? {
        assert LastAccepted(log, |log| - 1, last.jobId);
      } else {
        RecordKeepsJob(Tally(front), last);
        if Tally(front).acceptedCount > 0 {
          var i :| LastAccepted(front, i, Tally(front).lastJobId);
          LastAcceptedLater(log, i, Tally(front).lastJobId);
        }
      }
    }
  }

  /** Nothing is ever uncounted. */
  ghost predicate NoLess(x: SessionStats, y: SessionStats) {
    x.acceptedCount <= y.acceptedCount && x.Failures() <= y.Failures()
  }

  ghost predicate Ordered(snapshots: seq<SessionStats>, now: SessionStats) {
    && (forall i, j | 0 <= i < j < |snapshots| :: NoLess(snapshots[i], snapshots[j]))
    && (forall i | 0 <= i < |snapshots| :: NoLess(snapshots[i], now))
  }

  lemma OrderedLater(snapshots: seq<SessionStats>, now: SessionStats, e: Event)
    requires Ordered(snapshots, now)
    ensures Ordered(snapshots, Record(now, e))
  {
    assert NoLess(now, Record(now, e));
  }

  function Trace(snapshots: seq<SessionStats>): (t: seq<Readiness>)
    ensures |t| == |snapshots|
  {
    seq(|snapshots|, (i: nat) requires i < |snapshots| => snapshots[i].Status())
  }

  lemma OrderedTraceIsWellShaped(snapshots: seq<SessionStats>, now: SessionStats)
    requires Ordered(snapshots, now)
    ensures WellShaped(Trace(snapshots))
  {
    var stages := seq(|snapshots|, (i: nat) requires i < |snapshots| => Stage(snapshots[i].acceptedCount, snapshots[i].Failures()));
    forall x | 0 <= x < |snapshots| ensures Trace(snapshots)[x] == StageStatus(stages[x]) {
      StatusOfStage(snapshots[x].acceptedCount, snapshots[x].submitFailures, snapshots[x].sessionFailures);
    }
    forall i, j | 0 <= i < j < |stages| ensures stages[i] <= stages[j] {
      assert NoLess(snapshots[i], snapshots[j]);
    }
    SortedStagesAreWellShaped(stages, Trace(snapshots));
  }

  lemma NextCycle(n: nat)
    ensures (n % TWO_TO_THE_32 + 1) % TWO_TO_THE_32 == (n + 1) % TWO_TO_THE_32
    ensures n + 1 < TWO_TO_THE_32 ==> (n % TWO_TO_THE_32 + 1) % TWO_TO_THE_32 == n + 1
  {
    var q, r := n / TWO_TO_THE_32, n % TWO_TO_THE_32;
    if r + 1 < TWO_TO_THE_32 {
      DivModUnique(TWO_TO_THE_32, n + 1, q, r + 1);
    } else {
      DivModUnique(TWO_TO_THE_32, n + 1, q + 1, 0);
    }
  }

  // ----- what the answers decide -----

  /** What one interaction leaves: the answer, the answers to come, and the stop flag. */
  datatype Asked = Asked(answer: Answer, script: seq<Answer>, stopped: bool)

  function AskOf(script: seq<Answer>, stopped: bool): (r: Asked)
    ensures |r.script| <= |script| && (stopped ==> r.stopped) && (!r.stopped ==> |r.script| < |script|)
  {
    if script == [] then Asked(Answer(true, false, Aborted, ""), [], true)
    else Asked(script[0], script[1..], stopped || script[0].stop || script[0].mined == Aborted)
  }

  datatype Cycle = Cycle(event: Event, script: seq<Answer>, stopped: bool)

  /** The event that the answers to the wait, the search and the submit amount to. */
  function CycleOf(script: seq<Answer>, stopped: bool): (r: Cycle)
    ensures |r.script| <= |script| && (stopped ==> r.stopped)
    ensures !r.event.SessionFailed? && (r.event == StoppedWaiting || r.event == SearchAborted ==> r.stopped)
  {
    var job := AskOf(script, stopped);
    var next := AskOf(job.script, job.stopped);
    if !job.answer.ok then Cycle(if next.stopped then StoppedWaiting else Lost, next.script, next.stopped)
    else if next.answer.mined == Aborted then Cycle(SearchAborted, next.script, next.stopped)
    else if next.answer.mined == NoShare then Cycle(NoShareFound, next.script, next.stopped)
    else
      var submit := AskOf(next.script, next.stopped);
      Cycle(if submit.answer.ok then Accepted(job.answer.jobId) else Rejected, submit.script, submit.stopped)
  }

  datatype Ending = Ending(rc: nat, events: seq<Event>, script: seq<Answer>, stopped: bool)

  /** What happens from the head of the session's loop on, with `accepted` shares so far. */
  function CyclesOf(maxCycles: nat, script: seq<Answer>, stopped: bool, accepted: nat): (r: Ending)
    ensures |r.script| <= |script| && (stopped ==> r.stopped)
    decreases |script|, 1
  {
    var load := AskOf(script, stopped);
    if load.stopped || !(maxCycles == 0 || accepted % TWO_TO_THE_32 < maxCycles) then
      Ending(0, [], load.script, load.stopped)
    else
      TurnOf(maxCycles, load.script, load.stopped, accepted)
  }

  /** And from behind its test on. */
  function TurnOf(maxCycles: nat, script: seq<Answer>, stopped: bool, accepted: nat): (r: Ending)
    ensures |r.script| <= |script| && (stopped ==> r.stopped)
    decreases |script|, 2
  {
    var c := CycleOf(script, stopped);
    if Ends(c.event) then Ending(CodeOf(c.event), [c.event], c.script, c.stopped)
    else
      Prepend([c.event], CyclesOf(maxCycles, c.script, c.stopped, accepted + if c.event.Accepted? then 1 else 0))
  }

  /** Events put in front of a session's. */
  function Prepend(events: seq<Event>, r: Ending): Ending { r.(events := events + r.events) }

  datatype Opening = Opening(ok: bool, script: seq<Answer>, stopped: bool)

  /** The three interactions that open a session; the first refusal ends it. */
  function OpeningOf(script: seq<Answer>, stopped: bool): (r: Opening)
    ensures |r.script| <= |script| && (stopped ==> r.stopped)
  {
    var connect := AskOf(script, stopped);
    var subscribe := AskOf(connect.script, connect.stopped);
    var authorize := AskOf(subscribe.script, subscribe.stopped);
    if !connect.answer.ok then Opening(false, connect.script, connect.stopped)
    else if !subscribe.answer.ok then Opening(false, subscribe.script, subscribe.stopped)
    else Opening(authorize.answer.ok, authorize.script, authorize.stopped)
  }

  function SessionOf(maxCycles: nat, script: seq<Answer>, stopped: bool, accepted: nat): (r: Ending)
    ensures |r.script| <= |script| && (stopped ==> r.stopped)
  {
    var o := OpeningOf(script, stopped);
    if o.ok then CyclesOf(maxCycles, o.script, o.stopped, accepted) else Ending(4, [], o.script, o.stopped)
  }

  /** The whole run: code, events, delays slept, sessions, and what is left of the answers. */
  datatype Whole =
    Whole(rc: nat, events: seq<Event>, sleeps: seq<nat>, sessions: nat, script: seq<Answer>, stopped: bool)

  function Accepts(events: seq<Event>): nat {
    if events == [] then 0 else Accepts(events[..|events| - 1]) + (if events[|events| - 1].Accepted? then 1 else 0)
  }

  /** What the whole run amounts to, from the head of the reconnect loop on; `w` is what has
      happened, `delay` what is slept next. */
  function RunOf(cfg: Settings, w: Whole, accepted: nat, failures: nat, delay: nat): Whole
    decreases |w.script|, 1
  {
    var load := AskOf(w.script, w.stopped);
    var w' := w.(script := load.script, stopped := load.stopped);
    if load.stopped || !(cfg.maxCycles == 0 || accepted % TWO_TO_THE_32 < cfg.maxCycles) then w'
    else FromSession(cfg, w', accepted, failures, delay)
  }

  /** From the start of a session on. */
  function FromSession(cfg: Settings, w: Whole, accepted: nat, failures: nat, delay: nat): Whole
    decreases |w.script|, 3
  {
    var e := SessionOf(cfg.maxCycles, w.script, w.stopped, accepted);
    var w' := w.(events := w.events + e.events, sessions := w.sessions + 1, script := e.script, stopped := e.stopped);
    FromEnding(cfg, e.rc, w', accepted + Accepts(e.events), failures, delay)
  }

  /** From the end of a session on: another turn, the cap, a stop, or a delay and another turn. */
  function FromEnding(cfg: Settings, rc: nat, w: Whole, accepted: nat, failures: nat, delay: nat): Whole
    decreases |w.script|, 2
  {
    if rc == 0 then RunOf(cfg, w, accepted, failures, cfg.First())
    else
      var failed := w.(events := w.events + [SessionFailed(rc)]);
      var load := AskOf(w.script, w.stopped);
      if cfg.maxReconnectAttempts > 0 && failures + 1 >= cfg.maxReconnectAttempts then failed.(rc := rc)
      else
        var w' := failed.(script := load.script, stopped := load.stopped);
        if load.stopped then w'
        else RunOf(cfg, w'.(sleeps := w.sleeps + [delay]), accepted, failures + 1, NextDelay(delay, cfg.Cap()))
  }

  lemma {:induction false} TallyAccepts(log: seq<Event>, events: seq<Event>)
    ensures Tally(log + events).acceptedCount == Tally(log).acceptedCount + Accepts(events)
  {
    if events == [] {
      assert log + events == log;
    } else {
      var front, last := events[..|events| - 1], events[|events| - 1];
      TallyAccepts(log, front);
      assert log + events == (log + front) + [last];
      TallyAppend(log + front, last);
    }
  }

  lemma PrependMore(events: seq<Event>, e: Event, r: Ending)
    ensures Prepend(events, Prepend([e], r)) == Prepend(events + [e], r)
    ensures Prepend([], r) == r
  {
    assert events + ([e] + r.events) == (events + [e]) + r.events;
    assert [] + r.events == r.events;
  }

  /** One turn of the loop, on values. */
  lemma TurnStep(maxCycles: nat, script: seq<Answer>, stopped: bool, accepted: nat, events: seq<Event>, c: Cycle, after: nat)
    requires c == CycleOf(script, stopped) && after == accepted + if c.event.Accepted? then 1 else 0
    ensures Prepend(events, TurnOf(maxCycles, script, stopped, accepted)) ==
              if Ends(c.event) then Ending(CodeOf(c.event), events + [c.event], c.script, c.stopped)
              else Prepend(events + [c.event], CyclesOf(maxCycles, c.script, c.stopped, after))
  {
    PrependMore(events, c.event, CyclesOf(maxCycles, c.script, c.stopped, after));
  }

  lemma RecordFacts(st: SessionStats, e: Event)
    requires !e.SessionFailed?
    ensures Record(st, e).acceptedCount == st.acceptedCount + (if e.Accepted? then 1 else 0)
    ensures Record(st, e).sessionFailures == st.sessionFailures
  {
  }

  lemma Appended(log: seq<Event>, events: seq<Event>, added: seq<Event>)
    ensures (log + events) + added == log + (events + added)
  {
  }

  /** The delays are the first ones of the backoff sequence. */
  ghost predicate Delays(sleeps: seq<nat>, first: nat, cap: nat) {
    forall k | 0 <= k < |sleeps| :: sleeps[k] == Delay(first, cap, k)
  }

  lemma OneMoreDelay(sleeps: seq<nat>, first: nat, cap: nat, delay: nat)
    requires Delays(sleeps, first, cap) && delay == Delay(first, cap, |sleeps|)
    ensures Delays(sleeps + [delay], first, cap)
  {
  }

  lemma DelaysAreExponential(sleeps: seq<nat>, first: nat, cap: nat)
    requires Delays(sleeps, first, cap) && first <= cap
    ensures cap < TWO_TO_THE_31 ==> forall k | 0 <= k < |sleeps| :: sleeps[k] == ExponentialDelay(first, cap, k)
  {
    if cap < TWO_TO_THE_31 {
      forall k | 0 <= k < |sleeps| ensures sleeps[k] == ExponentialDelay(first, cap, k) {
        DelayIsExponential(first, cap, k);
      }
    }
  }
}
