/**
 The search gets to its end: no reachable state is stuck, the workers' steps are bounded,
 and once the workers have left the supervisor returns after a bounded number of its own.
 */
module SearchProgress {
  import opened NonceSearch

  // ----- some step is always possible -----

  /** In every reachable state before the return, a worker or the supervisor can move. */
  lemma {:induction false} SearchIsNeverStuck(task: Task, acts: seq<Action>) returns (a: Action)
    requires task.Valid() && Legal(task, Init(task), acts)
    requires Exec(task, Init(task), acts).supervisor != Returned
    ensures !a.Request? && Enabled(task, Exec(task, Init(task), acts), a)
  {
    InitInv(task);
    InvRun(task, Init(task), acts);
    var s := Exec(task, Init(task), acts);
    a := if Enabled(task, s, Supervise) then Supervise else Work(s.supervisor.next);
  }

  // ----- the workers' steps are bounded -----

  /** How far a worker is between two hashes, or behind its last one. */
  function Phase(pc: WorkerPc): nat {
    match pc
    case LoadStop => 1
    case HashNonce => 2
    case Lock => 1
    case StoreFound => 2
    case StoreNonce => 3
    case StoreHash => 4
    case Publish => 5
    case Finished => 6
    case _ => 0
  }

  function Phases(workers: seq<Worker>): (n: nat)
    ensures n <= 6 * |workers|
  {
    if workers == [] then 0 else Phases(workers[..|workers| - 1]) + Phase(workers[|workers| - 1].pc)
  }

  /** Each hash stands for three steps. */
  function Progress(s: State): nat { 3 * |s.log| + Phases(s.workers) }

  lemma {:induction false} PhasesUpdate(workers: seq<Worker>, t: nat, w: Worker)
    requires t < |workers|
    ensures Phases(workers[t := w]) == Phases(workers) - Phase(workers[t].pc) + Phase(w.pc)
  {
    var n := |workers| - 1;
    if t < n {
      PhasesUpdate(workers[..n], t, w);
      assert workers[t := w][..n] == workers[..n][t := w];
    } else {
      assert workers[t := w][..n] == workers[..n];
    }
  }

  lemma {:induction false} AdvanceProgresses(task: Task, w: Worker, stop: bool, requested: bool)
    requires w.pc != NotStarted && w.pc != Finished
    ensures Phase(Advance(task, w, stop, requested).pc) + (if w.pc == HashNonce then 3 else 0) > Phase(w.pc)
  {
  }

  lemma {:induction false} WorkProgresses(task: Task, s: State, t: nat)
    requires Enabled(task, s, Work(t))
    ensures Progress(WorkerStep(task, s, t)) > Progress(s)
  {
    var w := s.workers[t];
    WorkerStepWorkers(task, s, t);
    PhasesUpdate(s.workers, t, Advance(task, w, s.stop, s.requested));
    AdvanceProgresses(task, w, s.stop, s.requested);
  }

  lemma {:induction false} OthersKeepProgress(task: Task, s: State, a: Action)
    requires SupervisorInv(task, s) && Enabled(task, s, a) && !a.Work?
    ensures Progress(Apply(task, s, a)) >= Progress(s)
  {
    if a.Supervise? && s.supervisor.Spawn? && s.supervisor.next < |s.workers| {
      PhasesUpdate(s.workers, s.supervisor.next, LoopHead(task, s.workers[s.supervisor.next]));
    }
  }

  function WorkSteps(acts: seq<Action>): nat {
    if acts == [] then 0 else (if acts[0].Work? then 1 else 0) + WorkSteps(acts[1..])
  }

  lemma {:induction false} StepsAreProgress(task: Task, s: State, acts: seq<Action>)
    requires Inv(task, s) && Legal(task, s, acts)
    ensures Progress(s) + WorkSteps(acts) <= Progress(Exec(task, s, acts))
    decreases acts
  {
    if acts != [] {
      InvStep(task, s, acts[0]);
      if acts[0].Work? { WorkProgresses(task, s, acts[0].tid); } else { OthersKeepProgress(task, s, acts[0]); }
      StepsAreProgress(task, Apply(task, s, acts[0]), acts[1..]);
    }
  }

  lemma {:induction false} LogIsBounded(task: Task, s: State)
    requires Inv(task, s)
    ensures |s.log| <= task.space
  {
    ElementsFacts(s.log);
    BelowFacts(task.space);
    assert Elements(s.log) <= Below(task.space) by {
      forall x | x in Elements(s.log) ensures x in Below(task.space) { assert Hashed(task, s, x); }
    }
    SubsetSize(Elements(s.log), Below(task.space));
  }

  /** No schedule contains more steps of workers: three for a nonce, six for a worker. */
  lemma {:induction false} WorkIsBounded(task: Task, acts: seq<Action>)
    requires task.Valid() && Legal(task, Init(task), acts)
    ensures WorkSteps(acts) <= 3 * task.space + 6 * task.threads
  {
    InitInv(task);
    StepsAreProgress(task, Init(task), acts);
    InvRun(task, Init(task), acts);
    LogIsBounded(task, Exec(task, Init(task), acts));
  }

  // ----- the supervisor notices -----

  /** A stop request, once made, stands: the program never withdraws one. */
  predicate Standing(acts: seq<Action>) { forall a | a in acts :: a != Request(false) }

  /** Workers leave for a reason that the supervisor will see. */
  ghost predicate Reasoned(task: Task, s: State) {
    && (forall t | 0 <= t < |s.workers| :: MissedSoFar(task, t, s.workers[t]))
    && (!s.stop && !s.requested ==>
          forall t | 0 <= t < |s.workers| && Leaving(s.workers[t].pc) :: ClassSearched(task, t, s.workers[t]))
  }

  lemma {:induction false} ReasonedWork(task: Task, s: State, t: nat)
    requires Inv(task, s) && Reasoned(task, s) && Enabled(task, s, Work(t))
    ensures Reasoned(task, WorkerStep(task, s, t))
  {
    var w, s' := s.workers[t], WorkerStep(task, s, t);
    WorkerStepWorkers(task, s, t);
    AdvanceMisses(task, t, w, s.stop, s.requested);
    if !s'.stop && !s'.requested {
      assert !Winning(w.pc);
      assert Leaving(w.pc) ==> s'.workers[t] == w.(pc := Finished);
    }
  }

  lemma {:induction false} ReasonedSupervise(task: Task, s: State)
    requires Inv(task, s) && Reasoned(task, s) && Enabled(task, s, Supervise)
    ensures Reasoned(task, SupervisorStep(task, s))
  {
  }

  lemma {:induction false} ReasonedRun(task: Task, s: State, acts: seq<Action>)
    requires Inv(task, s) && Reasoned(task, s) && Legal(task, s, acts) && Standing(acts)
    ensures Inv(task, Exec(task, s, acts)) && Reasoned(task, Exec(task, s, acts))
    decreases acts
  {
    if acts != [] {
      StandingTail(acts);
      InvStep(task, s, acts[0]);
      if acts[0].Work? { ReasonedWork(task, s, acts[0].tid); } else if acts[0].Supervise? { ReasonedSupervise(task, s); }
      ReasonedRun(task, Apply(task, s, acts[0]), acts[1..]);
    }
  }

  lemma StandingTail(acts: seq<Action>)
    requires acts != [] && Standing(acts)
    ensures acts[0] != Request(false) && Standing(acts[1..])
  {
    assert acts[0] in acts && forall a | a in acts[1..] :: a in acts;
  }

  /** When all workers have left, one of the three conditions that the supervisor polls holds,
      with one-nonce classes and stop requests too. */
  lemma {:induction false} SearchDoesNotHang(task: Task, acts: seq<Action>)
    requires task.Valid() && Legal(task, Init(task), acts) && Standing(acts)
    requires AllFinished(Exec(task, Init(task), acts))
    ensures var s := Exec(task, Init(task), acts);
            s.stop || s.requested || s.total >= task.space - 1
  {
    InitInv(task);
    ReasonedRun(task, Init(task), acts);
    var s := Exec(task, Init(task), acts);
    if !s.stop && !s.requested { ExhaustedMeansNoHit(task, s); }
  }

  /** How many of its steps the supervisor needs at most. */
  function SupervisorLeft(task: Task, s: State): int {
    var n := |s.workers|;
    match s.supervisor
    case Spawn(_) => n + 8
    case ReadTotal => if s.total >= task.space - 1 then n + 4 else if s.stop then n + 4 else n + 7
    case TestStop => if s.stop then n + 3 else n + 6
    case TestRequested => n + 5
    case StoreAbort => n + 4
    case MarkAborted => n + 3
    case StoreExhausted => n + 3
    case Join(k) => n - k + 2
    case ReadResult => 1
    case Returned => 0
  }

  /** All workers have left, and the supervisor is bound to see why. */
  ghost predicate Ending(task: Task, s: State) {
    Inv(task, s) && AllFinished(s) && (s.stop || s.requested || s.total >= task.space - 1)
  }

  lemma {:induction false} EndingLeft(task: Task, s: State, a: Action)
    requires SupervisorInv(task, s) && AllFinished(s) && (s.stop || s.requested || s.total >= task.space - 1)
    requires Enabled(task, s, a) && !a.Work? && a != Request(false)
    ensures 0 <= SupervisorLeft(task, Apply(task, s, a)) <= SupervisorLeft(task, s) - (if a.Supervise? then 1 else 0)
  {
  }

  lemma {:induction false} EndingKeeps(task: Task, s: State, a: Action)
    requires Ending(task, s) && Enabled(task, s, a) && a != Request(false)
    ensures !a.Work? && Ending(task, Apply(task, s, a))
  {
    InvStep(task, s, a);
  }

  lemma {:induction false} EndingStep(task: Task, s: State, a: Action)
    requires Ending(task, s) && Enabled(task, s, a) && a != Request(false)
    ensures !a.Work? && Ending(task, Apply(task, s, a))
    ensures 0 <= SupervisorLeft(task, Apply(task, s, a)) <= SupervisorLeft(task, s) - (if a.Supervise? then 1 else 0)
  {
    EndingKeeps(task, s, a);
    EndingLeft(task, s, a);
  }

  function Supervisions(acts: seq<Action>): nat {
    if acts == [] then 0 else (if acts[0].Supervise? then 1 else 0) + Supervisions(acts[1..])
  }

  lemma {:induction false} EndingRun(task: Task, s: State, acts: seq<Action>)
    requires Ending(task, s) && Legal(task, s, acts) && Standing(acts)
    ensures 0 <= SupervisorLeft(task, s) && Supervisions(acts) <= SupervisorLeft(task, s)
    decreases acts
  {
    if acts != [] {
      StandingTail(acts);
      EndingStep(task, s, acts[0]);
      EndingRun(task, Apply(task, s, acts[0]), acts[1..]);
    }
  }

  lemma {:induction false} AllHaveLeft(task: Task, acts: seq<Action>)
    requires task.Valid() && Legal(task, Init(task), acts) && Standing(acts)
    requires AllFinished(Exec(task, Init(task), acts))
    ensures Ending(task, Exec(task, Init(task), acts))
  {
    InitInv(task);
    InvRun(task, Init(task), acts);
    SearchDoesNotHang(task, acts);
  }

  lemma EndingCanMove(task: Task, s: State)
    requires Ending(task, s) && s.supervisor != Returned
    ensures Enabled(task, s, Supervise)
  {
  }

  lemma LeftAtMost(task: Task, s: State)
    requires Ending(task, s)
    ensures SupervisorLeft(task, s) <= task.threads + 8
  {
  }

  /** From the moment all workers have left, the supervisor takes at most `threads + 8` steps,
      and as long as it has not returned it can take one. */
  lemma {:induction false} SearchReturns(task: Task, before: seq<Action>, after: seq<Action>)
    requires task.Valid() && Legal(task, Init(task), before) && Standing(before)
    requires AllFinished(Exec(task, Init(task), before))
    requires Legal(task, Exec(task, Init(task), before), after) && Standing(after)
    ensures Supervisions(after) <= task.threads + 8 && WorkSteps(after) == 0
    ensures var s := Exec(task, Exec(task, Init(task), before), after);
            s.supervisor != Returned ==> Enabled(task, s, Supervise)
  {
    AllHaveLeft(task, before);
    var s := Exec(task, Init(task), before);
    LeftAtMost(task, s);
    EndingRun(task, s, after);
    EndingStays(task, s, after);
    if Exec(task, s, after).supervisor != Returned { EndingCanMove(task, Exec(task, s, after)); }
  }

  lemma {:induction false} EndingStays(task: Task, s: State, acts: seq<Action>)
    requires Ending(task, s) && Legal(task, s, acts) && Standing(acts)
    ensures Ending(task, Exec(task, s, acts)) && WorkSteps(acts) == 0
    decreases acts
  {
    if acts != [] {
      StandingTail(acts);
      EndingStep(task, s, acts[0]);
      EndingStays(task, Apply(task, s, acts[0]), acts[1..]);
    }
  }
}
