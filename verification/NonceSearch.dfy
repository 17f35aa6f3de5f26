/**
 The multi-threaded nonce search of `mine` as a transition system.

 Every step performs at most one access to shared state: a load of the external
 stop request, a load of `stop`, one hash, the compare-and-swap on `stop`, one
 write of the result under the mutex, the `fetch_add` of the local hash count, or
 one step of the supervisor that spawns, polls and joins the workers.  A run is a
 schedule: a sequence of actions, each enabled where it is taken.

 The hash and the target test are parameters, so what is proved here holds for
 every hash function; `Mining` supplies the real ones.
 */
module NonceSearch {
  import opened Arithmetic

  type Digest = seq<bv8>

  datatype Task = Task(threads: nat, space: nat, hash: nat -> Digest, meets: Digest -> bool)
  {
    /** `thread_count` is at least 1 in every configuration that reaches `mine`. */
    ghost predicate Valid() { threads >= 1 && space >= 1 }

    predicate Hit(x: nat) { meets(hash(x)) }
  }

  // ----- state -----

  datatype WorkerPc =
    | NotStarted | LoadRequested | LoadStop | HashNonce | CompareExchange
    | Lock | StoreFound | StoreNonce | StoreHash | Publish | Finished

  datatype Worker = Worker(pc: WorkerPc, nonce: nat, hashes: nat)

  datatype SupervisorPc =
    | Spawn(next: nat) | TestStop | TestRequested | StoreAbort | MarkAborted
    | ReadTotal | StoreExhausted | Join(next: nat) | ReadResult | Returned

  datatype MiningResult =
    MiningResult(found: bool, aborted: bool, nonce: nat, hash: Digest, hashesTried: nat)

  /** `log` (nonces in the order they were hashed) and `winners` (workers whose
      compare-and-swap succeeded) are history variables: no step reads them. */
  datatype State = State(
    workers: seq<Worker>,
    supervisor: SupervisorPc,
    stop: bool,
    requested: bool,
    total: nat,
    locked: bool,
    result: MiningResult,
    log: seq<nat>,
    winners: seq<nat>)

  datatype Action = Work(tid: nat) | Supervise | Request(on: bool)

  function Init(task: Task): State {
    State(seq(task.threads, (i: nat) => Worker(NotStarted, i, 0)), Spawn(0), false, false, 0, false,
          MiningResult(false, false, 0, [], 0), [], [])
  }

  // ----- steps -----

  /** The test of the `for` loop over nonces. */
  function LoopHead(task: Task, w: Worker): Worker {
    w.(pc := if w.nonce < task.space then LoadRequested else Publish)
  }

  predicate Enabled(task: Task, s: State, a: Action) {
    match a
    case Work(t) =>
      t < |s.workers| && s.workers[t].pc != NotStarted && s.workers[t].pc != Finished
      && (s.workers[t].pc == Lock ==> !s.locked)
    case Supervise =>
      s.supervisor != Returned
      && (s.supervisor.Join? && s.supervisor.next < |s.workers| ==> s.workers[s.supervisor.next].pc == Finished)
    case Request(_) => true
  }

  function Apply(task: Task, s: State, a: Action): State
    requires Enabled(task, s, a)
  {
    match a
    case Work(t) => WorkerStep(task, s, t)
    case Supervise => SupervisorStep(task, s)
    case Request(on) => s.(requested := on)
  }

  /** The worker's own variables after its next step, given what it loads. */
  function Advance(task: Task, w: Worker, stop: bool, requested: bool): Worker {
    match w.pc
    case LoadRequested => w.(pc := if requested then Publish else LoadStop)
    case LoadStop => w.(pc := if stop then Publish else HashNonce)
    case HashNonce =>
      var w' := w.(hashes := w.hashes + 1);
      if task.Hit(w.nonce) then w'.(pc := CompareExchange)
      else LoopHead(task, w'.(nonce := w.nonce + task.threads))
    case CompareExchange => w.(pc := if stop then Publish else Lock)
    case Lock => w.(pc := StoreFound)
    case StoreFound => w.(pc := StoreNonce)
    case StoreNonce => w.(pc := StoreHash)
    case StoreHash => w.(pc := Publish)
    case Publish => w.(pc := Finished)
    case _ => w
  }

  function WorkerStep(task: Task, s: State, t: nat): State
    requires Enabled(task, s, Work(t))
  {
    var w := s.workers[t];
    var s' := s.(workers := s.workers[t := Advance(task, w, s.stop, s.requested)]);
    match w.pc
    case HashNonce => s'.(log := s.log + [w.nonce])
    case CompareExchange => if s.stop then s' else s'.(stop := true, winners := s.winners + [t])
    case Lock => s'.(locked := true)
    case StoreFound => s'.(result := s.result.(found := true))
    case StoreNonce => s'.(result := s.result.(nonce := w.nonce))
    case StoreHash => s'.(result := s.result.(hash := task.hash(w.nonce)), locked := false)
    case Publish => s'.(total := s.total + w.hashes)
    case _ => s'
  }

  function SupervisorStep(task: Task, s: State): State
    requires Enabled(task, s, Supervise)
  {
    match s.supervisor
    case Spawn(k) =>
      if k < |s.workers| then
        s.(workers := s.workers[k := LoopHead(task, s.workers[k])], supervisor := Spawn(k + 1))
      else s.(supervisor := TestStop)
    case TestStop => s.(supervisor := if s.stop then Join(0) else TestRequested)
    case TestRequested => s.(supervisor := if s.requested then StoreAbort else ReadTotal)
    case StoreAbort => s.(stop := true, supervisor := MarkAborted)
    case MarkAborted => s.(result := s.result.(aborted := true), supervisor := Join(0))
    case ReadTotal => s.(supervisor := if s.total >= task.space - 1 then StoreExhausted else TestStop)
    case StoreExhausted => s.(stop := true, supervisor := Join(0))
    case Join(k) => s.(supervisor := if k < |s.workers| then Join(k + 1) else ReadResult)
    case ReadResult => s.(result := s.result.(hashesTried := s.total), supervisor := Returned)
  }

  // ----- runs -----

  predicate Legal(task: Task, s: State, acts: seq<Action>)
    decreases acts
  {
    acts == [] || (Enabled(task, s, acts[0]) && Legal(task, Apply(task, s, acts[0]), acts[1..]))
  }

  function Exec(task: Task, s: State, acts: seq<Action>): State
    requires Legal(task, s, acts)
    decreases acts
  {
    if acts == [] then s else Exec(task, Apply(task, s, acts[0]), acts[1..])
  }

  /** No external stop request arrives during the schedule. */
  predicate Undisturbed(acts: seq<Action>) { forall a | a in acts :: a != Request(true) }

  // ----- residue classes -----

  /** The worker whose loop visits nonce `x`, and at which iteration: `x % n` and `x / n`. */
  function Owner(n: nat, x: nat): (t: nat)
    requires n > 0
    ensures t < n
  {
    if x < n then x else Owner(n, x - n)
  }

  function Rank(n: nat, x: nat): nat
    requires n > 0
  {
    if x < n then 0 else Rank(n, x - n) + 1
  }

  /** The `j`-th nonce of worker `t`: `t + n * j`. */
  function NonceAt(n: nat, t: nat, j: nat): (x: nat)
    ensures x >= t
  {
    if j == 0 then t else NonceAt(n, t, j - 1) + n
  }

  lemma {:induction false} ClassMember(n: nat, t: nat, j: nat)
    requires t < n
    ensures Owner(n, NonceAt(n, t, j)) == t && Rank(n, NonceAt(n, t, j)) == j
  {
    if j > 0 { ClassMember(n, t, j - 1); }
  }

  lemma {:induction false} ClassCover(n: nat, x: nat)
    requires n > 0
    ensures NonceAt(n, Owner(n, x), Rank(n, x)) == x
  {
    if x >= n { ClassCover(n, x - n); }
  }

  lemma {:induction false} NonceAtMonotone(n: nat, t: nat, i: nat, j: nat)
    requires i <= j
    ensures NonceAt(n, t, i) <= NonceAt(n, t, j)
  {
    if i < j { NonceAtMonotone(n, t, i, j - 1); }
  }

  /** The recursive reading of the residue classes is division with remainder. */
  lemma {:induction false} ClassesAreResidues(n: nat, x: nat)
    requires n > 0
    ensures Owner(n, x) == x % n && Rank(n, x) == x / n
  {
    if x >= n {
      ClassesAreResidues(n, x - n);
      StepClass(n, x - n);
    }
  }

  /** The first `k` nonces of class `t`. */
  ghost function ClassPrefix(n: nat, t: nat, k: nat): set<nat>
    requires t < n
  {
    if k == 0 then {} else ClassPrefix(n, t, k - 1) + {NonceAt(n, t, k - 1)}
  }

  lemma {:induction false} ClassPrefixFacts(n: nat, t: nat, k: nat)
    requires t < n
    ensures |ClassPrefix(n, t, k)| == k
    ensures forall x: nat :: x in ClassPrefix(n, t, k) <==> Owner(n, x) == t && Rank(n, x) < k
  {
    if k > 0 {
      ClassPrefixFacts(n, t, k - 1);
      ClassMember(n, t, k - 1);
      forall x: nat | Owner(n, x) == t && Rank(n, x) == k - 1 ensures x == NonceAt(n, t, k - 1) {
        ClassCover(n, x);
      }
    }
  }

  // ----- invariants -----

  predicate Deciding(pc: WorkerPc) {
    pc == CompareExchange || Winning(pc)
  }

  /** Program points only the worker that won the compare-and-swap can be at. */
  predicate Winning(pc: WorkerPc) {
    pc == Lock || pc == StoreFound || pc == StoreNonce || pc == StoreHash
  }

  predicate Leaving(pc: WorkerPc) { pc == Publish || pc == Finished }

  /** What a worker's own variables say about its residue class. */
  ghost predicate WorkerInv(task: Task, t: nat, w: Worker) {
    var n := task.threads;
    && (w.pc == NotStarted ==> w.hashes == 0)
    && (!Deciding(w.pc) && !Leaving(w.pc) ==> w.nonce == NonceAt(n, t, w.hashes))
    && (w.pc == LoadRequested || w.pc == LoadStop || w.pc == HashNonce ==> w.nonce < task.space)
    && (Deciding(w.pc) ==>
          w.hashes > 0 && w.nonce == NonceAt(n, t, w.hashes - 1) && w.nonce < task.space && task.Hit(w.nonce))
    && (w.hashes > 0 ==> NonceAt(n, t, w.hashes - 1) < task.space)
  }

  ghost predicate WorkersInv(task: Task, s: State) {
    && task.Valid()
    && |s.workers| == task.threads
    && forall t | 0 <= t < |s.workers| :: WorkerInv(task, t, s.workers[t])
  }

  ghost predicate AllFinished(s: State) { forall t | 0 <= t < |s.workers| :: s.workers[t].pc == Finished }

  ghost predicate Hashed(task: Task, s: State, x: nat)
    requires task.threads > 0 && |s.workers| == task.threads
  {
    x < task.space && Rank(task.threads, x) < s.workers[Owner(task.threads, x)].hashes
  }

  ghost predicate NoDuplicates(log: seq<nat>) {
    forall i, j | 0 <= i < j < |log| :: log[i] != log[j]
  }

  /** The nonces hashed so far, each exactly once. */
  ghost predicate LogInv(task: Task, s: State)
    requires task.threads > 0 && |s.workers| == task.threads
  {
    && NoDuplicates(s.log)
    && forall x: nat :: x in s.log <==> Hashed(task, s, x)
  }

  ghost function Published(task: Task, s: State): set<nat>
    requires task.threads > 0 && |s.workers| == task.threads
  {
    set x: nat | x < task.space && IsPublished(task, s.workers, x)
  }

  ghost predicate IsPublished(task: Task, workers: seq<Worker>, x: nat)
    requires task.threads > 0 && |workers| == task.threads
  {
    var w := workers[Owner(task.threads, x)];
    w.pc == Finished && Rank(task.threads, x) < w.hashes
  }

  /** `total_hashes` counts the nonces of the workers that have exited. */
  ghost predicate TotalInv(task: Task, s: State)
    requires task.threads > 0 && |s.workers| == task.threads
  {
    s.total == |Published(task, s)|
  }

  /** How much of the result the winner has written, by its program point. */
  ghost predicate ResultOf(task: Task, w: Worker, locked: bool, result: MiningResult) {
    && (Winning(w.pc) || Leaving(w.pc))
    && (locked <==> w.pc == StoreFound || w.pc == StoreNonce || w.pc == StoreHash)
    && (result.found <==> w.pc != Lock && w.pc != StoreFound)
    && (w.pc == StoreHash || Leaving(w.pc) ==> result.nonce == w.nonce)
    && (Leaving(w.pc) ==> result.hash == task.hash(w.nonce))
    && w.nonce < task.space && task.Hit(w.nonce)
  }

  /** At most one worker wins, and only the winner writes the result. */
  ghost predicate WinnerInv(task: Task, s: State) {
    && |s.winners| <= 1
    && (forall t | 0 <= t < |s.workers| && Winning(s.workers[t].pc) :: s.winners == [t])
    && (s.winners == [] ==> !s.result.found && !s.locked)
    && (s.winners != [] ==>
          && s.stop
          && s.winners[0] < |s.workers|
          && ResultOf(task, s.workers[s.winners[0]], s.locked, s.result))
  }

  ghost predicate SupervisorInv(task: Task, s: State) {
    && (match s.supervisor
        case Spawn(k) => k <= |s.workers| && forall t | k <= t < |s.workers| :: s.workers[t].pc == NotStarted
        case Join(k) => k <= |s.workers| && s.stop && forall t | 0 <= t < k :: s.workers[t].pc == Finished
        case ReadResult => s.stop && AllFinished(s)
        case Returned => s.stop && s.result.hashesTried == s.total && AllFinished(s)
        case _ => true)
    && (!s.supervisor.Spawn? ==> forall t | 0 <= t < |s.workers| :: s.workers[t].pc != NotStarted)
    && (s.supervisor.Spawn? ==> forall t | 0 <= t < s.supervisor.next :: s.workers[t].pc != NotStarted)
    && (s.supervisor == MarkAborted ==> s.stop)
    && (s.supervisor == StoreExhausted ==> s.total >= task.space - 1)
  }

  ghost predicate Inv(task: Task, s: State) {
    && WorkersInv(task, s)
    && LogInv(task, s)
    && TotalInv(task, s)
    && WinnerInv(task, s)
    && SupervisorInv(task, s)
  }

  lemma {:induction false} InitInv(task: Task)
    requires task.Valid()
    ensures Inv(task, Init(task))
  {
    var s := Init(task);
    assert Published(task, s) == {};
  }

  lemma {:induction false} AdvanceInv(task: Task, t: nat, w: Worker, stop: bool, requested: bool)
    requires WorkerInv(task, t, w)
    ensures WorkerInv(task, t, Advance(task, w, stop, requested))
  {
  }

  lemma WorkerStepWorkers(task: Task, s: State, t: nat)
    requires Enabled(task, s, Work(t))
    ensures WorkerStep(task, s, t).workers == s.workers[t := Advance(task, s.workers[t], s.stop, s.requested)]
  {
  }

  lemma Replaced(task: Task, s: State, t: nat, w: Worker, s': State)
    requires WorkersInv(task, s) && t < |s.workers| && WorkerInv(task, t, w) && s'.workers == s.workers[t := w]
    ensures WorkersInv(task, s')
  {
  }

  lemma {:induction false} WorkersStep(task: Task, s: State, a: Action)
    requires WorkersInv(task, s) && SupervisorInv(task, s) && Enabled(task, s, a)
    ensures WorkersInv(task, Apply(task, s, a))
  {
    match a
    case Work(t) =>
      AdvanceInv(task, t, s.workers[t], s.stop, s.requested);
      WorkerStepWorkers(task, s, t);
      Replaced(task, s, t, Advance(task, s.workers[t], s.stop, s.requested), Apply(task, s, a));
    case Supervise =>
      if s.supervisor.Spawn? && s.supervisor.next < |s.workers| {
        var k := s.supervisor.next;
        Replaced(task, s, k, LoopHead(task, s.workers[k]), Apply(task, s, a));
      }
    case Request(_) =>
  }

  /** Hashing a nonce appends it to the log, where it was not yet. */
  lemma {:induction false} LogGrows(task: Task, s: State, t: nat, s': State)
    requires task.threads > 0 && |s.workers| == task.threads && t < task.threads && LogInv(task, s)
    requires WorkerInv(task, t, s.workers[t]) && s.workers[t].pc == HashNonce
    requires s'.log == s.log + [s.workers[t].nonce] && |s'.workers| == task.threads
    requires s'.workers[t].hashes == s.workers[t].hashes + 1
    requires forall u | 0 <= u < |s.workers| && u != t :: s'.workers[u] == s.workers[u]
    ensures LogInv(task, s')
  {
    var w, n := s.workers[t], task.threads;
    ClassMember(n, t, w.hashes);
    assert !Hashed(task, s, w.nonce);
    forall x: nat ensures x in s'.log <==> Hashed(task, s', x) {
      if Owner(n, x) == t && Rank(n, x) == w.hashes { ClassCover(n, x); }
      assert x in s'.log <==> x in s.log || x == w.nonce;
    }
  }

  lemma {:induction false} LogFrame(task: Task, s: State, s': State)
    requires task.threads > 0 && |s.workers| == |s'.workers| == task.threads && LogInv(task, s)
    requires s'.log == s.log
    requires forall u | 0 <= u < |s.workers| :: s'.workers[u].hashes == s.workers[u].hashes
    ensures LogInv(task, s')
  {
    forall x: nat ensures Hashed(task, s, x) <==> Hashed(task, s', x) { }
  }

  /** A step of a worker hashes one nonce or leaves log and counts alone. */
  lemma WorkerStepLog(task: Task, s: State, t: nat)
    requires Enabled(task, s, Work(t))
    ensures var s', w := WorkerStep(task, s, t), s.workers[t];
            if w.pc == HashNonce then s'.log == s.log + [w.nonce] && s'.workers[t].hashes == w.hashes + 1
            else s'.log == s.log && s'.workers[t].hashes == w.hashes
  {
  }

  lemma SupervisorStepLog(task: Task, s: State)
    requires Enabled(task, s, Supervise)
    ensures var s' := SupervisorStep(task, s);
            && s'.log == s.log && |s'.workers| == |s.workers|
            && forall u | 0 <= u < |s.workers| :: s'.workers[u].hashes == s.workers[u].hashes
  {
  }

  lemma {:induction false} LogStep(task: Task, s: State, a: Action)
    requires WorkersInv(task, s) && LogInv(task, s) && Enabled(task, s, a)
    ensures LogInv(task, Apply(task, s, a))
  {
    match a
    case Work(t) =>
      WorkerStepLog(task, s, t);
      WorkerStepWorkers(task, s, t);
      if s.workers[t].pc == HashNonce {
        LogGrows(task, s, t, Apply(task, s, a));
      } else {
        LogFrame(task, s, Apply(task, s, a));
      }
    case Supervise =>
      SupervisorStepLog(task, s);
      LogFrame(task, s, Apply(task, s, a));
    case Request(_) =>
      LogFrame(task, s, Apply(task, s, a));
  }

  /** The workers that have exited, with their counts: all that `Published` depends on. */
  ghost predicate SameFinished(s: State, s': State) {
    && |s.workers| == |s'.workers|
    && forall t | 0 <= t < |s.workers| ::
         && (s.workers[t].pc == Finished <==> s'.workers[t].pc == Finished)
         && (s.workers[t].pc == Finished ==> s'.workers[t].hashes == s.workers[t].hashes)
  }

  lemma {:induction false} PublishedFrame(task: Task, s: State, s': State)
    requires task.threads > 0 && |s.workers| == task.threads && SameFinished(s, s')
    ensures Published(task, s') == Published(task, s)
  {
  }

  /** The nonces an exiting worker hashed are the first `hashes` of its class. */
  lemma {:induction false} WorkerNonces(task: Task, t: nat, w: Worker) returns (mine: set<nat>)
    requires t < task.threads && WorkerInv(task, t, w)
    ensures |mine| == w.hashes
    ensures forall x: nat :: x in mine <==> x < task.space && Owner(task.threads, x) == t && Rank(task.threads, x) < w.hashes
  {
    var n := task.threads;
    mine := ClassPrefix(n, t, w.hashes);
    ClassPrefixFacts(n, t, w.hashes);
    forall x: nat | x in mine ensures x < task.space {
      ClassCover(n, x);
      NonceAtMonotone(n, t, Rank(n, x), w.hashes - 1);
    }
  }

  lemma {:induction false} DisjointUnionSize(a: set<nat>, b: set<nat>, c: set<nat>)
    requires a !! b && forall x :: x in c <==> x in a || x in b
    ensures |c| == |a| + |b|
  {
    assert c == a + b;
  }

  /** A worker that publishes its count adds exactly that many nonces. */
  lemma {:induction false} PublishedGrows(task: Task, s: State, t: nat, s': State)
    requires task.threads > 0 && |s.workers| == task.threads && t < task.threads
    requires s.workers[t].pc != Finished && WorkerInv(task, t, s.workers[t])
    requires s'.workers == s.workers[t := s.workers[t].(pc := Finished)]
    ensures |Published(task, s')| == |Published(task, s)| + s.workers[t].hashes
  {
    var mine := WorkerNonces(task, t, s.workers[t]);
    forall x: nat | x < task.space
      ensures IsPublished(task, s'.workers, x) <==> IsPublished(task, s.workers, x) || x in mine
    {
      if Owner(task.threads, x) != t { assert s'.workers[Owner(task.threads, x)] == s.workers[Owner(task.threads, x)]; }
    }
    DisjointUnionSize(Published(task, s), mine, Published(task, s'));
  }

  lemma {:induction false} TotalWork(task: Task, s: State, t: nat)
    requires WorkersInv(task, s) && TotalInv(task, s) && Enabled(task, s, Work(t))
    ensures TotalInv(task, WorkerStep(task, s, t))
  {
    var s' := WorkerStep(task, s, t);
    if s.workers[t].pc == Publish {
      PublishedGrows(task, s, t, s');
    } else {
      assert s'.workers[t].pc != Finished && s'.total == s.total;
      assert SameFinished(s, s');
      PublishedFrame(task, s, s');
    }
  }

  lemma {:induction false} TotalStep(task: Task, s: State, a: Action)
    requires WorkersInv(task, s) && SupervisorInv(task, s) && TotalInv(task, s) && Enabled(task, s, a)
    ensures TotalInv(task, Apply(task, s, a))
  {
    if a.Work? {
      TotalWork(task, s, a.tid);
    } else {
      assert SameFinished(s, Apply(task, s, a));
      PublishedFrame(task, s, Apply(task, s, a));
    }
  }

  lemma {:induction false} WinnerMoves(task: Task, s: State, t: nat)
    requires WinnerInv(task, s) && Enabled(task, s, Work(t)) && s.winners == [t]
    ensures WinnerInv(task, WorkerStep(task, s, t))
  {
    var s' := WorkerStep(task, s, t);
    assert ResultOf(task, s'.workers[t], s'.locked, s'.result);
  }

  lemma {:induction false} WinnerArrives(task: Task, s: State, t: nat)
    requires WinnerInv(task, s) && Enabled(task, s, Work(t)) && WorkerInv(task, t, s.workers[t])
    requires s.workers[t].pc == CompareExchange && !s.stop
    ensures WinnerInv(task, WorkerStep(task, s, t))
  {
    var s' := WorkerStep(task, s, t);
    assert s.winners == [] && s'.winners == [t];
    assert ResultOf(task, s'.workers[t], s'.locked, s'.result);
  }

  lemma {:induction false} OtherMoves(task: Task, s: State, t: nat)
    requires WinnerInv(task, s) && Enabled(task, s, Work(t)) && s.winners != [t]
    requires s.workers[t].pc == CompareExchange ==> s.stop
    ensures WinnerInv(task, WorkerStep(task, s, t))
  {
    var s' := WorkerStep(task, s, t);
    assert !Winning(s.workers[t].pc) && !Winning(s'.workers[t].pc);
    assert s'.locked == s.locked && s'.result == s.result && s'.winners == s.winners && s'.stop == s.stop;
  }

  lemma {:induction false} WinnerStep(task: Task, s: State, a: Action)
    requires WorkersInv(task, s) && WinnerInv(task, s) && SupervisorInv(task, s) && Enabled(task, s, a)
    ensures WinnerInv(task, Apply(task, s, a))
  {
    if a.Work? {
      var t := a.tid;
      if s.winners == [t] {
        WinnerMoves(task, s, t);
      } else if s.workers[t].pc == CompareExchange && !s.stop {
        WinnerArrives(task, s, t);
      } else {
        OtherMoves(task, s, t);
      }
    }
  }

  lemma {:induction false} SupervisorStepWork(task: Task, s: State, t: nat)
    requires SupervisorInv(task, s) && Enabled(task, s, Work(t))
    ensures SupervisorInv(task, WorkerStep(task, s, t))
  {
    var s' := WorkerStep(task, s, t);
    assert s'.supervisor == s.supervisor && (s.stop ==> s'.stop);
    assert s'.workers[t].pc != NotStarted && s'.result.hashesTried == s.result.hashesTried;
  }

  lemma {:induction false} SupervisorStepInv(task: Task, s: State, a: Action)
    requires SupervisorInv(task, s) && Enabled(task, s, a)
    ensures SupervisorInv(task, Apply(task, s, a))
  {
    if a.Work? { SupervisorStepWork(task, s, a.tid); }
  }

  lemma {:induction false} InvStep(task: Task, s: State, a: Action)
    requires Inv(task, s) && Enabled(task, s, a)
    ensures Inv(task, Apply(task, s, a))
  {
    WorkersStep(task, s, a);
    LogStep(task, s, a);
    TotalStep(task, s, a);
    WinnerStep(task, s, a);
    SupervisorStepInv(task, s, a);
  }

  /** The invariant holds in every state of every run, stop requests included. */
  lemma {:induction false} InvRun(task: Task, s: State, acts: seq<Action>)
    requires Inv(task, s) && Legal(task, s, acts)
    ensures Inv(task, Exec(task, s, acts))
    decreases acts
  {
    if acts != [] {
      InvStep(task, s, acts[0]);
      InvRun(task, Apply(task, s, acts[0]), acts[1..]);
    }
  }

  // ----- counting -----

  ghost function Below(k: nat): set<nat> {
    if k == 0 then {} else Below(k - 1) + {k - 1}
  }

  lemma {:induction false} BelowFacts(k: nat)
    ensures |Below(k)| == k
    ensures forall x: nat :: x in Below(k) <==> x < k
  {
    if k > 0 { BelowFacts(k - 1); }
  }

  lemma {:induction false} SubsetSize(a: set<nat>, b: set<nat>)
    requires a <= b
    ensures |a| <= |b|
  {
    assert b == a + (b - a);
  }

  ghost function Elements(log: seq<nat>): set<nat> {
    if log == [] then {} else Elements(log[..|log| - 1]) + {log[|log| - 1]}
  }

  lemma {:induction false} ElementsFacts(log: seq<nat>)
    ensures forall x :: x in Elements(log) <==> x in log
    ensures NoDuplicates(log) ==> |Elements(log)| == |log|
  {
    if log != [] {
      var front := log[..|log| - 1];
      ElementsFacts(front);
      assert log == front + [log[|log| - 1]];
      if NoDuplicates(log) {
        assert log[|log| - 1] !in front;
      }
    }
  }

  /** A worker that has not published withholds two nonces, if its class has two. */
  lemma {:induction false} UnpublishedWithholds(task: Task, s: State, t: nat)
    requires task.Valid() && |s.workers| == task.threads && t < task.threads
    requires s.workers[t].pc != Finished && 2 * task.threads <= task.space
    ensures |Published(task, s)| <= task.space - 2
  {
    var n := task.threads;
    ClassMember(n, t, 0);
    ClassMember(n, t, 1);
    assert NonceAt(n, t, 1) == t + n;
    BelowFacts(task.space);
    var rest := Below(task.space) - {t, t + n};
    assert Published(task, s) <= rest;
    SubsetSize(Published(task, s), rest);
  }

  /** So `total >= space - 1` can only be read once every worker has published. */
  lemma {:induction false} ThresholdMeansAllFinished(task: Task, s: State)
    requires Inv(task, s) && 2 * task.threads <= task.space && s.total >= task.space - 1
    ensures AllFinished(s)
  {
    forall t | 0 <= t < |s.workers| ensures s.workers[t].pc == Finished {
      if s.workers[t].pc != Finished { UnpublishedWithholds(task, s, t); }
    }
  }

  // ----- completeness -----

  ghost predicate Missed(task: Task, t: nat, k: nat) {
    forall j: nat | j < k :: !task.Hit(NonceAt(task.threads, t, j))
  }

  /** The worker went through its whole residue class without a hit. */
  ghost predicate ClassSearched(task: Task, t: nat, w: Worker) {
    NonceAt(task.threads, t, w.hashes) >= task.space && Missed(task, t, w.hashes)
  }

  ghost predicate MissedSoFar(task: Task, t: nat, w: Worker) {
    && (Deciding(w.pc) && w.hashes > 0 ==> Missed(task, t, w.hashes - 1))
    && (!Deciding(w.pc) && !Leaving(w.pc) ==> Missed(task, t, w.hashes))
  }

  ghost predicate Exhausted(task: Task, s: State) {
    forall t | 0 <= t < |s.workers| :: s.workers[t].pc == Finished && ClassSearched(task, t, s.workers[t])
  }

  /** What holds while no stop request has arrived. */
  ghost predicate Quiet(task: Task, s: State) {
    && !s.requested && !s.result.aborted && s.supervisor != StoreAbort && s.supervisor != MarkAborted
    && (forall t | 0 <= t < |s.workers| :: MissedSoFar(task, t, s.workers[t]))
    && (s.winners == [] ==>
          && (forall t | 0 <= t < |s.workers| && Leaving(s.workers[t].pc) :: ClassSearched(task, t, s.workers[t]))
          && (s.stop || s.supervisor == StoreExhausted ==> Exhausted(task, s)))
  }

  lemma {:induction false} HashQuiet(task: Task, t: nat, w: Worker)
    requires w.pc == HashNonce && w.nonce == NonceAt(task.threads, t, w.hashes) && Missed(task, t, w.hashes)
    ensures var w' := Advance(task, w, false, false);
            && MissedSoFar(task, t, w')
            && (Leaving(w'.pc) ==> ClassSearched(task, t, w'))
  {
    if !task.Hit(w.nonce) { assert Missed(task, t, w.hashes + 1); }
  }

  lemma {:induction false} AdvanceMisses(task: Task, t: nat, w: Worker, stop: bool, requested: bool)
    requires WorkerInv(task, t, w) && MissedSoFar(task, t, w)
    ensures var w' := Advance(task, w, stop, requested);
            && MissedSoFar(task, t, w')
            && (!stop && !requested && Leaving(w'.pc) && !Leaving(w.pc) && w.pc != StoreHash ==> ClassSearched(task, t, w'))
  {
    if w.pc == HashNonce { HashQuiet(task, t, w); }
  }

  lemma {:induction false} QuietWork(task: Task, s: State, t: nat)
    requires Inv(task, s) && Quiet(task, s) && Enabled(task, s, Work(t))
    ensures Quiet(task, WorkerStep(task, s, t))
  {
    var s', w := WorkerStep(task, s, t), s.workers[t];
    AdvanceMisses(task, t, w, s.stop, s.requested);
    if s'.winners == [] {
      assert s.winners == [] && !s.stop && s.supervisor != StoreExhausted;
      assert w.pc != StoreHash;
      assert Leaving(w.pc) ==> s'.workers[t] == w.(pc := Finished);
    }
  }

  lemma {:induction false} QuietSupervise(task: Task, s: State)
    requires Inv(task, s) && Quiet(task, s) && Enabled(task, s, Supervise) && 2 * task.threads <= task.space
    ensures Quiet(task, SupervisorStep(task, s))
  {
    if s.supervisor == ReadTotal && s.total >= task.space - 1 {
      ThresholdMeansAllFinished(task, s);
    }
  }

  lemma {:induction false} QuietRun(task: Task, s: State, acts: seq<Action>)
    requires Inv(task, s) && Quiet(task, s) && Legal(task, s, acts) && Undisturbed(acts)
    requires 2 * task.threads <= task.space
    ensures Quiet(task, Exec(task, s, acts))
    decreases acts
  {
    if acts != [] {
      assert acts[0] in acts;
      InvStep(task, s, acts[0]);
      if acts[0].Work? { QuietWork(task, s, acts[0].tid); } else if acts[0].Supervise? { QuietSupervise(task, s); }
      assert Undisturbed(acts[1..]) by { assert forall a | a in acts[1..] :: a in acts; }
      QuietRun(task, Apply(task, s, acts[0]), acts[1..]);
    }
  }

  lemma {:induction false} QuietInit(task: Task)
    ensures Quiet(task, Init(task))
  {
  }

  /** If every class was searched without a hit, no nonce is a hit and all were counted. */
  lemma {:induction false} ExhaustedMeansNoHit(task: Task, s: State)
    requires Inv(task, s) && Exhausted(task, s)
    ensures forall x: nat | x < task.space :: !task.Hit(x)
    ensures s.total == task.space
  {
    forall x: nat | x < task.space ensures !task.Hit(x) && IsPublished(task, s.workers, x) {
      var t, j := Owner(task.threads, x), Rank(task.threads, x);
      ClassCover(task.threads, x);
      if s.workers[t].hashes <= j { NonceAtMonotone(task.threads, t, s.workers[t].hashes, j); }
    }
    BelowFacts(task.space);
    assert Published(task, s) == Below(task.space);
  }

  /** When all workers have exited, the published total is the number of nonces hashed. */
  lemma {:induction false} TotalCountsLog(task: Task, s: State)
    requires task.threads > 0 && |s.workers| == task.threads && LogInv(task, s) && TotalInv(task, s)
    requires AllFinished(s)
    ensures s.total == |s.log|
  {
    ElementsFacts(s.log);
    forall x: nat ensures x in Published(task, s) <==> x in Elements(s.log) {
      assert x in s.log <==> Hashed(task, s, x);
    }
    assert Published(task, s) == Elements(s.log);
  }

  // ----- theorems -----

  /** Every interleaving, stop requests included: one winner at most, the result is the
      winner's alone, and the count is the number of distinct nonces hashed. */
  lemma {:induction false} SearchIsSound(task: Task, acts: seq<Action>)
    requires task.Valid() && Legal(task, Init(task), acts)
    ensures var s := Exec(task, Init(task), acts);
            && |s.winners| <= 1
            && NoDuplicates(s.log)
            && (forall x | x in s.log :: x < task.space)
            && (s.supervisor == Returned ==>
                  && (s.result.found <==> |s.winners| == 1)
                  && (s.result.found ==>
                        && s.result.nonce < task.space
                        && s.result.hash == task.hash(s.result.nonce)
                        && task.meets(s.result.hash))
                  && s.result.hashesTried == |s.log|)
  {
    InitInv(task);
    InvRun(task, Init(task), acts);
    var s := Exec(task, Init(task), acts);
    if s.supervisor == Returned { TotalCountsLog(task, s); }
  }

  /** Without a stop request, "not found" means that no nonce meets the target. */
  lemma {:induction false} SearchIsExhaustive(task: Task, acts: seq<Action>)
    requires task.Valid() && 2 * task.threads <= task.space
    requires Legal(task, Init(task), acts) && Undisturbed(acts)
    ensures var s := Exec(task, Init(task), acts);
            s.supervisor == Returned ==>
              && !s.result.aborted
              && (!s.result.found ==>
                    && (forall x: nat | x < task.space :: !task.Hit(x))
                    && s.result.hashesTried == task.space)
  {
    InitInv(task);
    QuietInit(task);
    InvRun(task, Init(task), acts);
    QuietRun(task, Init(task), acts);
    var s := Exec(task, Init(task), acts);
    if s.supervisor == Returned && !s.result.found { ExhaustedMeansNoHit(task, s); }
  }

  /** In every state of every run the nonces hashed so far are distinct, and worker `t`
      has hashed exactly the first `hashes` nonces congruent to `t` modulo `n`. */
  lemma {:induction false} WorkIsConserved(task: Task, acts: seq<Action>)
    requires task.Valid() && Legal(task, Init(task), acts)
    ensures var s := Exec(task, Init(task), acts);
            && |s.workers| == task.threads
            && NoDuplicates(s.log)
            && forall x: nat :: x in s.log <==>
                 x < task.space && x / task.threads < s.workers[x % task.threads].hashes
  {
    InitInv(task);
    InvRun(task, Init(task), acts);
    var s := Exec(task, Init(task), acts);
    forall x: nat
      ensures x in s.log <==> x < task.space && x / task.threads < s.workers[x % task.threads].hashes
    {
      ClassesAreResidues(task.threads, x);
    }
  }
}
