/**
 Exactly when a "not found" can be believed.

 The supervisor stops at `total >= 2^32 - 1`, one less than the nonce space.  With `n`
 workers on a space of `N` nonces this is safe if and only if `2 n <= N` and no stop
 request can arrive: with a one-nonce class, or a worker that a request sends home one
 nonce early, the one nonce that meets the target may not have been hashed.  What tells
 in every case with `2 n <= N` is the number of hashes that the run reports.
 */
module SearchLimits {
  import opened NonceSearch

  /** The run returned, and reports neither a find nor an abort. */
  predicate SaysNone(s: State) { s.supervisor == Returned && !s.result.found && !s.result.aborted }

  ghost predicate EndsWithNone(task: Task, acts: seq<Action>) {
    task.Valid() && Legal(task, Init(task), acts) && SaysNone(Exec(task, Init(task), acts))
  }

  /** Every run that says so is right; `stopsAllowed` tells whether stop requests may arrive. */
  ghost predicate Trustworthy(threads: nat, space: nat, stopsAllowed: bool) {
    forall task: Task, acts: seq<Action> |
      EndsWithNone(task, acts) && task.threads == threads && task.space == space && (stopsAllowed || Undisturbed(acts)) ::
      forall x: nat | x < space :: !task.Hit(x)
  }

  /** Every run that says so after `tried` hashes is right, stop requests or not. */
  ghost predicate CountTells(threads: nat, space: nat, tried: nat) {
    forall task: Task, acts: seq<Action> |
      EndsWithNone(task, acts) && task.threads == threads && task.space == space
      && Exec(task, Init(task), acts).result.hashesTried == tried ::
      forall x: nat | x < space :: !task.Hit(x)
  }

  // ----- composing schedules -----

  lemma {:induction false} ExecConcat(task: Task, s: State, a: seq<Action>, b: seq<Action>)
    requires Legal(task, s, a) && Legal(task, Exec(task, s, a), b)
    ensures Legal(task, s, a + b) && Exec(task, s, a + b) == Exec(task, Exec(task, s, a), b)
    decreases a
  {
    if a == [] {
      assert a + b == b;
    } else {
      assert (a + b)[0] == a[0] && (a + b)[1..] == a[1..] + b;
      ExecConcat(task, Apply(task, s, a[0]), a[1..], b);
    }
  }

  ghost predicate Runs(task: Task, s: State, acts: seq<Action>, s': State) {
    Legal(task, s, acts) && Exec(task, s, acts) == s'
  }

  /** `acts` is an undisturbed schedule from `s` to `s'`. */
  ghost predicate Leads(task: Task, s: State, acts: seq<Action>, s': State) {
    Undisturbed(acts) && Runs(task, s, acts, s')
  }

  lemma {:induction false} LeadsThen(task: Task, s: State, a: seq<Action>, s1: State, b: seq<Action>, s2: State)
    requires Leads(task, s, a, s1) && Leads(task, s1, b, s2)
    ensures Leads(task, s, a + b, s2)
  {
    ExecConcat(task, s, a, b);
  }

  lemma {:induction false} OneStep(task: Task, s: State, a: Action)
    requires Enabled(task, s, a)
    ensures Runs(task, s, [a], Apply(task, s, a))
  {
    assert [a][0] == a && [a][1..] == [];
    assert Legal(task, Apply(task, s, a), []);
  }

  /** Extends a schedule by one action. */
  lemma {:induction false} Then(task: Task, s0: State, acts: seq<Action>, s: State, a: Action)
    returns (acts': seq<Action>, s': State)
    requires Runs(task, s0, acts, s) && Enabled(task, s, a)
    ensures Runs(task, s0, acts', s') && s' == Apply(task, s, a) && acts' == acts + [a]
    ensures Undisturbed(acts) && a != Request(true) ==> Undisturbed(acts')
  {
    OneStep(task, s, a);
    ExecConcat(task, s0, acts, [a]);
    acts', s' := acts + [a], Apply(task, s, a);
  }

  // ----- the schedule -----

  function Spawned(task: Task, i: nat): Worker { LoopHead(task, Worker(NotStarted, i, 0)) }

  /** The state after `k` workers have been spawned and none has moved. */
  function AfterSpawning(task: Task, k: nat): State {
    Init(task).(
    workers := seq(task.threads, (i: nat) => if i < k then Spawned(task, i) else Worker(NotStarted, i, 0)),
    supervisor := Spawn(k))
  }

  lemma {:induction false} SpawnWorkers(task: Task, k: nat) returns (acts: seq<Action>)
    requires k <= task.threads
    ensures Leads(task, Init(task), acts, AfterSpawning(task, k))
  {
    if k == 0 {
      acts := [];
      assert AfterSpawning(task, 0) == Init(task);
    } else {
      var before := SpawnWorkers(task, k - 1);
      var s := AfterSpawning(task, k - 1);
      assert SupervisorStep(task, s) == AfterSpawning(task, k);
      OneStep(task, s, Supervise);
      LeadsThen(task, Init(task), before, s, [Supervise], AfterSpawning(task, k));
      acts := before + [Supervise];
    }
  }

  /** What a solo run of worker `t` leaves alone. */
  ghost predicate OnlyWorker(s: State, t: nat, s': State) {
    && |s'.workers| == |s.workers|
    && (forall i | 0 <= i < |s.workers| && i != t :: s'.workers[i] == s.workers[i])
    && s'.supervisor == s.supervisor && s'.stop == s.stop && s'.requested == s.requested
    && s'.result == s.result && s'.winners == s.winners
  }

  /** Worker `t` goes through its class on its own, without a hit, and exits. */
  lemma {:induction false} DriveWorker(task: Task, s: State, t: nat) returns (acts: seq<Action>, s': State)
    requires task.Valid() && |s.workers| == task.threads && t < task.threads && !s.stop && !s.requested
    requires forall x: nat | x < task.space && Owner(task.threads, x) == t :: !task.Hit(x)
    requires s.workers[t].nonce == NonceAt(task.threads, t, s.workers[t].hashes)
    requires s.workers[t] == LoopHead(task, s.workers[t])
    ensures Leads(task, s, acts, s') && OnlyWorker(s, t, s')
    ensures s'.workers[t].pc == Finished && NonceAt(task.threads, t, s'.workers[t].hashes) >= task.space
    decreases task.space - s.workers[t].nonce
  {
    var w, a := s.workers[t], Work(t);
    acts, s' := [], s;
    if w.pc == Publish {
      acts, s' := Then(task, s, acts, s', a);
    } else {
      ClassMember(task.threads, t, w.hashes);
      assert !task.Hit(w.nonce);
      acts, s' := Then(task, s, acts, s', a);
      acts, s' := Then(task, s, acts, s', a);
      acts, s' := Then(task, s, acts, s', a);
      var rest, s1 := DriveWorker(task, s', t);
      LeadsThen(task, s, acts, s', rest, s1);
      acts, s' := acts + rest, s1;
    }
  }

  ghost predicate Driven(task: Task, s: State, k: nat, u: nat) {
    && |s.workers| == task.threads && s.supervisor == TestStop && !s.stop && !s.requested
    && s.winners == [] && !s.result.found && !s.result.aborted
    && forall t | 0 <= t < |s.workers| ::
         if t < k && t != u then
           s.workers[t].pc == Finished && NonceAt(task.threads, t, s.workers[t].hashes) >= task.space
         else s.workers[t] == Spawned(task, t)
  }

  /** All workers below `k` except `u` run to the end, one after the other. */
  lemma {:induction false} DriveWorkers(task: Task, k: nat, u: nat) returns (acts: seq<Action>, s': State)
    requires task.Valid() && k <= task.threads && u < task.threads
    requires forall x: nat | x < task.space && task.Hit(x) :: Owner(task.threads, x) == u
    ensures Leads(task, Init(task), acts, s') && Driven(task, s', k, u)
  {
    if k == 0 {
      var before := SpawnWorkers(task, task.threads);
      var s := AfterSpawning(task, task.threads);
      OneStep(task, s, Supervise);
      s' := SupervisorStep(task, s);
      LeadsThen(task, Init(task), before, s, [Supervise], s');
      acts := before + [Supervise];
    } else {
      var before, s := DriveWorkers(task, k - 1, u);
      if k - 1 == u {
        acts, s' := before, s;
      } else {
        var more;
        more, s' := DriveWorker(task, s, k - 1);
        LeadsThen(task, Init(task), before, s, more, s');
        acts := before + more;
      }
    }
  }

  lemma {:induction false} JoinWorkers(task: Task, s: State) returns (acts: seq<Action>, s': State)
    requires s.supervisor.Join? && s.supervisor.next <= |s.workers|
    requires AllFinished(s)
    ensures Leads(task, s, acts, s') && s'.supervisor == Returned && s'.log == s.log
    ensures s'.result == s.result.(hashesTried := s.total)
    decreases |s.workers| - s.supervisor.next
  {
    acts, s' := Then(task, s, [], s, Supervise);
    if s.supervisor.next < |s.workers| {
      var rest, s1 := JoinWorkers(task, s');
      LeadsThen(task, s, acts, s', rest, s1);
      acts, s' := acts + rest, s1;
    } else {
      acts, s' := Then(task, s, acts, s', Supervise);
    }
  }

  /** The only nonce that meets the target is `u`. */
  function OnlyHit(threads: nat, space: nat, u: nat): Task {
    Task(threads, space, (x: nat) => if x == u then [1] else [], (h: Digest) => h == [1])
  }

  lemma {:induction false} LoneClass(n: nat, x: nat, u: nat)
    requires n > 0 && u < n && x < u + n && Owner(n, x) == u
    ensures x == u
  {
    ClassCover(n, x);
  }

  /** All workers but `u` have published: the threshold is reached, one nonce is missing. */
  lemma {:induction false} OthersArePublished(task: Task, s: State, u: nat, x: nat)
    requires Inv(task, s) && Driven(task, s, task.threads, u) && u < task.threads && task.space <= u + task.threads
    requires x < task.space && x != u
    ensures x in Published(task, s)
  {
    var n := task.threads;
    var t, j := Owner(n, x), Rank(n, x);
    ClassCover(n, x);
    if t == u { LoneClass(n, x, u); }
    if s.workers[t].hashes <= j { NonceAtMonotone(n, t, s.workers[t].hashes, j); }
  }

  lemma {:induction false} ThresholdReached(task: Task, s: State, u: nat)
    requires Inv(task, s) && Driven(task, s, task.threads, u) && u < task.threads && task.space <= u + task.threads
    ensures s.total >= task.space - 1
  {
    BelowFacts(task.space);
    forall x: nat | x < task.space && x != u ensures x in Published(task, s) { OthersArePublished(task, s, u, x); }
    SubsetSize(Below(task.space) - {u}, Published(task, s));
  }

  /** The supervisor declares the search exhausted. */
  lemma {:induction false} DeclareExhausted(task: Task, s: State) returns (acts: seq<Action>, s': State)
    requires s.supervisor == TestStop && !s.stop && !s.requested && s.total >= task.space - 1
    ensures Leads(task, s, acts, s') && s' == s.(stop := true, supervisor := Join(0))
  {
    acts, s' := Then(task, s, [], s, Supervise);
    acts, s' := Then(task, s, acts, s', Supervise);
    acts, s' := Then(task, s, acts, s', Supervise);
    acts, s' := Then(task, s, acts, s', Supervise);
  }

  /** And then worker `u`, which is about to start, gives up. */
  lemma {:induction false} GiveUp(task: Task, s: State, u: nat) returns (acts: seq<Action>, s': State)
    requires Driven(task, s, task.threads, u) && u < task.threads && u < task.space && s.total >= task.space - 1
    ensures Leads(task, s, acts, s') && s'.supervisor == Join(0) && !s'.result.found && !s'.result.aborted
    ensures |s'.workers| == |s.workers| && forall t | 0 <= t < |s'.workers| :: s'.workers[t].pc == Finished
  {
    acts, s' := DeclareExhausted(task, s);
    acts, s' := Then(task, s, acts, s', Work(u));
    acts, s' := Then(task, s, acts, s', Work(u));
    acts, s' := Then(task, s, acts, s', Work(u));
  }

  /** A worker that owns the only nonce of its class, and the only one that meets the target. */
  function Lone(threads: nat, space: nat): nat
    requires threads >= 1 && space >= 1
  {
    (if threads <= space then threads else space) - 1
  }

  /** With a one-nonce class, an undisturbed run can return "not found" wrongly. */
  lemma {:induction false} MissedNonce(threads: nat, space: nat) returns (task: Task, acts: seq<Action>, u: nat)
    requires threads >= 1 && space >= 1 && space < 2 * threads
    ensures task.threads == threads && task.space == space && task.Valid()
    ensures EndsWithNone(task, acts) && Undisturbed(acts)
    ensures u < space && task.Hit(u)
  {
    u := Lone(threads, space);
    task := OnlyHit(threads, space, u);
    assert Owner(threads, u) == u;
    var before, s := DriveWorkers(task, threads, u);
    InitInv(task);
    InvRun(task, Init(task), before);
    ThresholdReached(task, s, u);
    var more, s1 := GiveUp(task, s, u);
    LeadsThen(task, Init(task), before, s, more, s1);
    var last, s2 := JoinWorkers(task, s1);
    LeadsThen(task, Init(task), before + more, s1, last, s2);
    acts := before + more + last;
  }

  // ----- a stop request -----

  /** A class that has not come to its nonce `x` has its next one no later. */
  lemma {:induction false} NextIsThere(n: nat, t: nat, j: nat, x: nat)
    requires n > 0 && Owner(n, x) == t && NonceAt(n, t, j) < x
    ensures NonceAt(n, t, j + 1) <= x
  {
    var last := Rank(n, x);
    ClassCover(n, x);
    if last <= j { NonceAtMonotone(n, t, last, j); }
    NonceAtMonotone(n, t, j + 1, last);
  }

  /** Worker `t` goes on alone to the head of its iteration for the last nonce of all. */
  lemma {:induction false} DriveToLast(task: Task, s: State, t: nat) returns (acts: seq<Action>, s': State)
    requires task.Valid() && |s.workers| == task.threads && t < task.threads && !s.stop && !s.requested
    requires forall x: nat | x < task.space - 1 :: !task.Hit(x)
    requires Owner(task.threads, task.space - 1) == t
    requires s.workers[t].nonce == NonceAt(task.threads, t, s.workers[t].hashes) < task.space
    requires s.workers[t] == LoopHead(task, s.workers[t])
    ensures Leads(task, s, acts, s') && OnlyWorker(s, t, s')
    ensures s'.workers[t] == Worker(LoadRequested, task.space - 1, Rank(task.threads, task.space - 1))
    decreases task.space - s.workers[t].nonce
  {
    var w, a := s.workers[t], Work(t);
    acts, s' := [], s;
    ClassMember(task.threads, t, w.hashes);
    if w.nonce < task.space - 1 {
      NextIsThere(task.threads, t, w.hashes, task.space - 1);
      acts, s' := Then(task, s, acts, s', a);
      acts, s' := Then(task, s, acts, s', a);
      acts, s' := Then(task, s, acts, s', a);
      var rest, s1 := DriveToLast(task, s', t);
      LeadsThen(task, s, acts, s', rest, s1);
      acts, s' := acts + rest, s1;
    }
  }

  /** Everything but the last nonce has been published. */
  lemma {:induction false} AllButTheLast(task: Task, s: State)
    requires Inv(task, s)
    requires var u := Owner(task.threads, task.space - 1);
             forall t | 0 <= t < |s.workers| ::
               && s.workers[t].pc == Finished
               && if t == u then s.workers[t].hashes == Rank(task.threads, task.space - 1)
                  else NonceAt(task.threads, t, s.workers[t].hashes) >= task.space
    ensures s.total == task.space - 1
  {
    var n, last := task.threads, task.space - 1;
    forall x: nat | x < task.space ensures x in Published(task, s) <==> x != last {
      var t, j := Owner(n, x), Rank(n, x);
      ClassCover(n, x);
      ClassCover(n, last);
      if s.workers[t].hashes <= j { NonceAtMonotone(n, t, s.workers[t].hashes, j); }
    }
    BelowFacts(task.space - 1);
    assert Published(task, s) == Below(task.space - 1);
  }

  /** The request arrives between the supervisor's look at it and its look at the total. */
  lemma {:induction false} SendHome(task: Task, s: State, u: nat) returns (before: seq<Action>, after: seq<Action>, s': State)
    requires s.supervisor == TestStop && !s.stop && !s.requested && u < |s.workers|
    requires s.workers[u].pc == LoadRequested
    ensures Undisturbed(before) && Undisturbed(after) && Runs(task, s, before + [Request(true)] + after, s')
    ensures s' == s.(supervisor := ReadTotal, requested := true, total := s.total + s.workers[u].hashes,
                     workers := s.workers[u := s.workers[u].(pc := Finished)])
  {
    var acts;
    before, s' := Then(task, s, [], s, Supervise);
    before, s' := Then(task, s, before, s', Supervise);
    acts, s' := Then(task, s, before, s', Request(true));
    acts, s' := Then(task, s, acts, s', Work(u));
    acts, s' := Then(task, s, acts, s', Work(u));
    after := [Work(u), Work(u)];
    assert acts == before + [Request(true)] + after;
  }

  /** The supervisor reads the total, stops, and joins. */
  lemma {:induction false} WindUp(task: Task, s: State) returns (acts: seq<Action>, s': State)
    requires s.supervisor == ReadTotal && s.total >= task.space - 1
    requires AllFinished(s)
    ensures Leads(task, s, acts, s') && s'.supervisor == Returned && s'.log == s.log
    ensures s'.result == s.result.(hashesTried := s.total)
  {
    acts, s' := Then(task, s, [], s, Supervise);
    acts, s' := Then(task, s, acts, s', Supervise);
    var rest, s1 := JoinWorkers(task, s');
    LeadsThen(task, s, acts, s', rest, s1);
    acts, s' := acts + rest, s1;
  }

  /** All workers but the owner of the last nonce have left, and it is about to look at that. */
  ghost predicate AtLast(task: Task, s: State)
    requires task.Valid()
  {
    var u := Owner(task.threads, task.space - 1);
    && |s.workers| == task.threads && s.supervisor == TestStop && !s.stop && !s.requested
    && !s.result.found && !s.result.aborted
    && s.workers[u] == Worker(LoadRequested, task.space - 1, Rank(task.threads, task.space - 1))
    && forall t | 0 <= t < |s.workers| && t != u ::
         s.workers[t].pc == Finished && NonceAt(task.threads, t, s.workers[t].hashes) >= task.space
  }

  lemma {:induction false} ReachLast(task: Task) returns (acts: seq<Action>, s: State)
    requires task.Valid() && forall x: nat | x < task.space :: task.Hit(x) ==> x == task.space - 1
    ensures Leads(task, Init(task), acts, s) && AtLast(task, s)
  {
    var u := Owner(task.threads, task.space - 1);
    var a, s0 := DriveWorkers(task, task.threads, u);
    ClassCover(task.threads, task.space - 1);
    var b;
    b, s := DriveToLast(task, s0, u);
    LeadsThen(task, Init(task), a, s0, b, s);
    acts := a + b;
  }

  /** The rest of the run: the request, the owner's exit, the supervisor's stop. */
  lemma {:induction false} GoHome(task: Task, s: State) returns (before: seq<Action>, after: seq<Action>, s': State)
    requires task.Valid() && Inv(task, s) && AtLast(task, s)
    ensures Undisturbed(before) && Undisturbed(after) && Runs(task, s, before + [Request(true)] + after, s')
    ensures SaysNone(s') && s'.result.hashesTried == task.space - 1 && s'.log == s.log
  {
    var c, d, s2 := SendHome(task, s, Owner(task.threads, task.space - 1));
    InvRun(task, s, c + [Request(true)] + d);
    AllButTheLast(task, s2);
    var e, s3 := WindUp(task, s2);
    ExecConcat(task, s, c + [Request(true)] + d, e);
    before, after, s' := c, d + e, s3;
    Regroup(c, [Request(true)], d, e);
  }

  lemma Regroup(a: seq<Action>, b: seq<Action>, c: seq<Action>, d: seq<Action>)
    ensures (a + b + c) + d == a + b + (c + d)
    ensures a + (b + c + d) == (a + b) + c + d
  {
  }

  lemma {:induction false} MisledRun(task: Task)
    returns (before: seq<Action>, after: seq<Action>, s: State)
    requires task.Valid() && task == OnlyHit(task.threads, task.space, task.space - 1)
    ensures Undisturbed(before) && Undisturbed(after) && Runs(task, Init(task), before + [Request(true)] + after, s)
    ensures SaysNone(s) && s.result.hashesTried == task.space - 1 && task.space - 1 !in s.log
  {
    var a, s1 := ReachLast(task);
    InitInv(task);
    InvRun(task, Init(task), a);
    var b;
    b, after, s := GoHome(task, s1);
    ExecConcat(task, Init(task), a, b + [Request(true)] + after);
    Regroup(a, b, [Request(true)], after);
    before := a + b;
    LastIsLeft(task, s1);
  }

  lemma {:induction false} LastIsLeft(task: Task, s: State)
    requires task.Valid() && Inv(task, s) && AtLast(task, s)
    ensures task.space - 1 !in s.log
  {
    assert !Hashed(task, s, task.space - 1);
  }

  /** For any numbers of workers and nonces, a single stop request can make the run report
      neither a find nor an abort although the last nonce meets the target. */
  lemma {:induction false} StopRequestCanMislead(threads: nat, space: nat)
    returns (task: Task, before: seq<Action>, after: seq<Action>, s: State)
    requires threads >= 1 && space >= 1
    ensures task.threads == threads && task.space == space && task.Valid()
    ensures Undisturbed(before) && Undisturbed(after) && Runs(task, Init(task), before + [Request(true)] + after, s)
    ensures SaysNone(s) && s.result.hashesTried == space - 1 && space - 1 !in s.log && task.Hit(space - 1)
  {
    task := OnlyHit(threads, space, space - 1);
    before, after, s := MisledRun(task);
  }

  // ----- the condition -----

  /** The exact condition under which "not found" can be believed. */
  lemma {:induction false} TrustworthyIffTwoNoncesPerWorker(threads: nat, space: nat, stopsAllowed: bool)
    requires threads >= 1 && space >= 1
    ensures Trustworthy(threads, space, stopsAllowed) <==> !stopsAllowed && 2 * threads <= space
  {
    if stopsAllowed {
      var task, before, after, s := StopRequestCanMislead(threads, space);
      assert EndsWithNone(task, before + [Request(true)] + after) && task.Hit(space - 1);
    } else if 2 * threads <= space {
      forall task: Task, acts: seq<Action> |
        EndsWithNone(task, acts) && task.threads == threads && task.space == space && Undisturbed(acts)
        ensures forall x: nat | x < space :: !task.Hit(x)
      {
        SearchIsExhaustive(task, acts);
      }
    } else {
      var task, acts, u := MissedNonce(threads, space);
      assert EndsWithNone(task, acts) && task.Hit(u);
    }
  }

  // ----- what the reported count tells -----

  predicate Aborting(s: State) { s.supervisor == MarkAborted || s.result.aborted }

  /** Without a winner and an abort, no worker has passed a solution by, and the search was
      only stopped when everyone had left. */
  ghost predicate Diligent(task: Task, s: State) {
    && (forall t | 0 <= t < |s.workers| :: MissedSoFar(task, t, s.workers[t]))
    && (s.winners == [] && !Aborting(s) ==>
          && (forall t | 0 <= t < |s.workers| && Leaving(s.workers[t].pc) :: Missed(task, t, s.workers[t].hashes))
          && (s.stop || s.supervisor == StoreExhausted ==> AllFinished(s) && s.total >= task.space - 1))
  }

  lemma {:induction false} AdvanceMissesAll(task: Task, t: nat, w: Worker, stop: bool, requested: bool)
    requires WorkerInv(task, t, w) && MissedSoFar(task, t, w) && !Winning(w.pc) && w.pc != CompareExchange
    requires Leaving(w.pc) ==> Missed(task, t, w.hashes)
    ensures var w' := Advance(task, w, stop, requested); Leaving(w'.pc) ==> Missed(task, t, w'.hashes)
  {
    if w.pc == HashNonce { HashQuiet(task, t, w); }
  }

  lemma {:induction false} DiligentWork(task: Task, s: State, t: nat)
    requires Inv(task, s) && Diligent(task, s) && Enabled(task, s, Work(t))
    ensures Diligent(task, WorkerStep(task, s, t))
  {
    var w, s' := s.workers[t], WorkerStep(task, s, t);
    WorkerStepWorkers(task, s, t);
    AdvanceMisses(task, t, w, s.stop, s.requested);
    if s'.winners == [] && !Aborting(s') {
      assert !s.stop && s.supervisor != StoreExhausted && !Winning(w.pc) && w.pc != CompareExchange;
      AdvanceMissesAll(task, t, w, s.stop, s.requested);
    }
  }

  lemma {:induction false} DiligentSupervise(task: Task, s: State)
    requires Inv(task, s) && Diligent(task, s) && Enabled(task, s, Supervise) && 2 * task.threads <= task.space
    ensures Diligent(task, SupervisorStep(task, s))
  {
    if s.supervisor == ReadTotal && s.total >= task.space - 1 { ThresholdMeansAllFinished(task, s); }
  }

  lemma {:induction false} DiligentRun(task: Task, s: State, acts: seq<Action>)
    requires Inv(task, s) && Diligent(task, s) && Legal(task, s, acts) && 2 * task.threads <= task.space
    ensures Inv(task, Exec(task, s, acts)) && Diligent(task, Exec(task, s, acts))
    decreases acts
  {
    if acts != [] {
      InvStep(task, s, acts[0]);
      if acts[0].Work? { DiligentWork(task, s, acts[0].tid); } else if acts[0].Supervise? { DiligentSupervise(task, s); }
      DiligentRun(task, Apply(task, s, acts[0]), acts[1..]);
    }
  }

  /** A full count without a miss is a full search. */
  lemma {:induction false} FullCount(task: Task, s: State)
    requires Inv(task, s) && AllFinished(s) && s.total == task.space
    requires forall t | 0 <= t < |s.workers| :: Missed(task, t, s.workers[t].hashes)
    ensures forall x: nat | x < task.space :: !task.Hit(x)
  {
    BelowFacts(task.space);
    assert Published(task, s) <= Below(task.space);
    SameSize(Published(task, s), Below(task.space));
    forall x: nat | x < task.space ensures !task.Hit(x) {
      assert x in Published(task, s);
      ClassCover(task.threads, x);
    }
  }

  lemma SameSize(a: set<nat>, b: set<nat>)
    requires a <= b && |a| == |b|
    ensures a == b
  {
    assert b == a + (b - a);
  }

  /** With two nonces per worker, and whatever stop requests arrive: a run that reports neither
      a find nor an abort has tried all nonces or all but one, and in the first case it is right. */
  lemma {:induction false} CountIsReliable(task: Task, acts: seq<Action>)
    requires EndsWithNone(task, acts) && 2 * task.threads <= task.space
    ensures var tried := Exec(task, Init(task), acts).result.hashesTried;
            && (tried == task.space - 1 || tried == task.space)
            && (tried == task.space ==> forall x: nat | x < task.space :: !task.Hit(x))
  {
    InitInv(task);
    DiligentRun(task, Init(task), acts);
    var s := Exec(task, Init(task), acts);
    BelowFacts(task.space);
    SubsetSize(Published(task, s), Below(task.space));
    if s.total == task.space { FullCount(task, s); }
  }

  /** Worker `u` goes up to its first hit. */
  lemma {:induction false} HitFirst(task: Task, s: State, u: nat) returns (acts: seq<Action>, s': State)
    requires task.Valid() && Driven(task, s, task.threads, u) && u < task.threads && u < task.space && task.Hit(u)
    ensures Leads(task, s, acts, s')
    ensures s' == s.(workers := s.workers[u := Worker(CompareExchange, u, 1)], log := s.log + [u])
  {
    acts, s' := Then(task, s, [], s, Work(u));
    acts, s' := Then(task, s, acts, s', Work(u));
    acts, s' := Then(task, s, acts, s', Work(u));
  }

  /** A worker with a single nonce hits, but only after the supervisor has given up. */
  lemma {:induction false} LateHit(task: Task, s: State, u: nat) returns (acts: seq<Action>, s': State)
    requires task.Valid() && Driven(task, s, task.threads, u)
    requires u < task.threads && u < task.space && task.Hit(u) && s.total >= task.space - 1
    ensures Leads(task, s, acts, s') && s'.supervisor == Join(0) && !s'.result.found && !s'.result.aborted
    ensures AllFinished(s') && s'.total == s.total + 1
  {
    var a, s1 := HitFirst(task, s, u);
    var b, s2 := DeclareExhausted(task, s1);
    LeadsThen(task, s, a, s1, b, s2);
    acts, s' := Then(task, s, a + b, s2, Work(u));
    acts, s' := Then(task, s, acts, s', Work(u));
  }

  /** With a one-nonce class even a full count can be wrong, without any stop request. */
  lemma {:induction false} FullCountMisleads(threads: nat, space: nat) returns (task: Task, acts: seq<Action>, u: nat)
    requires threads >= 1 && space >= 1 && space < 2 * threads
    ensures task.threads == threads && task.space == space && task.Valid()
    ensures EndsWithNone(task, acts) && Undisturbed(acts) && Exec(task, Init(task), acts).result.hashesTried == space
    ensures u < space && task.Hit(u)
  {
    u := Lone(threads, space);
    task := OnlyHit(threads, space, u);
    assert Owner(threads, u) == u;
    var before, s := DriveWorkers(task, threads, u);
    InitInv(task);
    InvRun(task, Init(task), before);
    ThresholdReached(task, s, u);
    var more, s1 := LateHit(task, s, u);
    LeadsThen(task, Init(task), before, s, more, s1);
    var last, s2 := JoinWorkers(task, s1);
    LeadsThen(task, Init(task), before + more, s1, last, s2);
    acts := before + more + last;
    InvRun(task, Init(task), acts);
    BelowFacts(space);
    SubsetSize(Published(task, s2), Below(space));
  }

  lemma {:induction false} CountsTell(threads: nat, space: nat, tried: nat)
    requires threads >= 1 && 2 * threads <= space && tried != space - 1
    ensures CountTells(threads, space, tried)
  {
    forall task: Task, acts: seq<Action> |
      EndsWithNone(task, acts) && task.threads == threads && task.space == space
      && Exec(task, Init(task), acts).result.hashesTried == tried
      ensures forall x: nat | x < space :: !task.Hit(x)
    {
      CountIsReliable(task, acts);
    }
  }

  /** The exact condition on the reported number, which a caller can check: with two nonces
      per worker any count but one less than the space can be believed, and a full count can
      be believed only then. */
  lemma {:induction false} CountTellsIff(threads: nat, space: nat, tried: nat)
    requires threads >= 1 && space >= 1
    ensures 2 * threads <= space ==> (CountTells(threads, space, tried) <==> tried != space - 1)
    ensures CountTells(threads, space, space) <==> 2 * threads <= space
  {
    if 2 * threads <= space {
      CountsTell(threads, space, space);
      if tried != space - 1 {
        CountsTell(threads, space, tried);
      } else {
        var task, before, after, s := StopRequestCanMislead(threads, space);
        assert EndsWithNone(task, before + [Request(true)] + after) && task.Hit(space - 1);
      }
    } else {
      var task, acts, u := FullCountMisleads(threads, space);
      assert EndsWithNone(task, acts) && task.Hit(u);
    }
  }
}
