/**
 Copying the defect images. A pool of threads, each with a session of its own, takes copy
 tasks from one queue until it finds the queue empty; a thread whose session cannot be
 opened returns at once. Every step is one atomic action of one thread.
 */
module CopyPool {
  import opened Sums

  datatype Task = Task(src: string, dst: string)

  datatype Thread = Connecting | Polling | Holding(task: Task) | Closed | Failed

  /** A finished attempt: copied when the remote command exited with 0. */
  datatype Attempt = Attempt(task: Task, copied: bool)

  datatype State = State(queue: seq<Task>, threads: seq<Thread>, nCopied: int, log: seq<Attempt>)

  datatype Action = Connect(i: nat, up: bool) | Poll(i: nat) | Execute(i: nat, exitZero: bool)

  function PoolSize(tasks: seq<Task>): nat {
    if |tasks| == 0 then 1 else if |tasks| < 8 then |tasks| else 8
  }

  function Init(tasks: seq<Task>): State {
    State(tasks, seq(PoolSize(tasks), _ => Connecting), 0, [])
  }

  predicate Enabled(s: State, a: Action) {
    && a.i < |s.threads|
    && match a
       case Connect(i, _) => s.threads[i].Connecting?
       case Poll(i) => s.threads[i].Polling?
       case Execute(i, _) => s.threads[i].Holding?
  }

  function ThreadAfter(s: State, a: Action): Thread
    requires Enabled(s, a)
  {
    match a
    case Connect(_, up) => if up then Polling else Failed
    case Poll(_) => if s.queue == [] then Closed else Holding(s.queue[0])
    case Execute(_, _) => Polling
  }

  function Apply(s: State, a: Action): State
    requires Enabled(s, a)
  {
    var s' := s.(threads := s.threads[a.i := ThreadAfter(s, a)]);
    match a
    case Connect(_, _) => s'
    case Poll(_) => if s.queue == [] then s' else s'.(queue := s.queue[1..])
    case Execute(i, exitZero) =>
      s'.(log := s.log + [Attempt(s.threads[i].task, exitZero)],
          nCopied := s.nCopied + if exitZero then 1 else 0)
  }

  ghost predicate Leads(s: State, acts: seq<Action>, t: State)
    decreases |acts|
  {
    if acts == [] then s == t else Enabled(s, acts[0]) && Leads(Apply(s, acts[0]), acts[1..], t)
  }

  predicate Joined(s: State) {
    forall k <- s.threads :: k.Closed? || k.Failed?
  }

  // ----- Accounts -----

  function Holds(x: Task): Thread -> int {
    (k: Thread) => if k.Holding? && k.task == x then 1 else 0
  }

  /** How many threads hold task x. */
  function Held(ks: seq<Thread>, x: Task): int { SumBy(Holds(x), ks) }

  /** How often task x was tried. */
  function Tried(log: seq<Attempt>, x: Task): nat {
    if log == [] then 0 else Tried(log[..|log| - 1], x) + if log[|log| - 1].task == x then 1 else 0
  }

  function Copied(log: seq<Attempt>): nat {
    if log == [] then 0 else Copied(log[..|log| - 1]) + if log[|log| - 1].copied then 1 else 0
  }

  predicate AllIdle(ks: seq<Thread>) {
    forall i :: 0 <= i < |ks| ==> ks[i].Connecting? || ks[i].Failed?
  }

  predicate AnyClosed(ks: seq<Thread>) {
    exists i :: 0 <= i < |ks| && ks[i].Closed?
  }

  ghost predicate Conserved(tasks: seq<Task>, s: State, x: Task) {
    multiset(s.queue)[x] + Held(s.threads, x) + Tried(s.log, x) == multiset(tasks)[x]
  }

  ghost predicate Flags(s: State) {
    && s.nCopied == Copied(s.log)
    && (AnyClosed(s.threads) ==> s.queue == [])
    && (AllIdle(s.threads) ==> s.log == [])
    && |s.threads| > 0
  }

  ghost predicate Inv(tasks: seq<Task>, s: State) {
    (forall x: Task {:trigger Conserved(tasks, s, x)} :: Conserved(tasks, s, x)) && Flags(s)
  }

  lemma LogSnoc(log: seq<Attempt>, a: Attempt, x: Task)
    ensures Tried(log + [a], x) == Tried(log, x) + if a.task == x then 1 else 0
    ensures Copied(log + [a]) == Copied(log) + if a.copied then 1 else 0
  {
    assert (log + [a])[..|log|] == log;
  }

  lemma StepAccount(tasks: seq<Task>, s: State, a: Action, x: Task)
    requires Enabled(s, a) && Conserved(tasks, s, x)
    ensures Conserved(tasks, Apply(s, a), x)
  {
    SumByUpdate(Holds(x), s.threads, a.i, ThreadAfter(s, a));
    if a.Execute? {
      LogSnoc(s.log, Attempt(s.threads[a.i].task, a.exitZero), x);
    } else if a.Poll? && s.queue != [] {
      assert s.queue == [s.queue[0]] + s.queue[1..];
    }
  }

  lemma StepFlags(s: State, a: Action)
    requires Flags(s) && Enabled(s, a)
    ensures Flags(Apply(s, a))
  {
    var k, t := ThreadAfter(s, a), Apply(s, a);
    assert t.threads[a.i] == k;
    if a.Execute? {
      LogSnoc(s.log, Attempt(s.threads[a.i].task, a.exitZero), s.threads[a.i].task);
      assert !AllIdle(t.threads);
    } else if AllIdle(t.threads) {
      assert forall j :: 0 <= j < |s.threads| && j != a.i ==> s.threads[j] == t.threads[j];
      assert AllIdle(s.threads);
    }
  }

  lemma StepInv(tasks: seq<Task>, s: State, a: Action)
    requires Inv(tasks, s) && Enabled(s, a)
    ensures Inv(tasks, Apply(s, a))
  {
    forall x: Task ensures Conserved(tasks, Apply(s, a), x) {
      assert Conserved(tasks, s, x);
      StepAccount(tasks, s, a, x);
    }
    StepFlags(s, a);
  }

  lemma {:induction false} RunInv(tasks: seq<Task>, s: State, acts: seq<Action>, t: State)
    requires Inv(tasks, s) && Leads(s, acts, t)
    ensures Inv(tasks, t)
    decreases |acts|
  {
    if acts != [] {
      StepInv(tasks, s, acts[0]);
      RunInv(tasks, Apply(s, acts[0]), acts[1..], t);
    }
  }

  lemma {:induction false} NothingHeld(ks: seq<Thread>, x: Task)
    requires forall k <- ks :: !k.Holding?
    ensures Held(ks, x) == 0
  {
    SumByZero(Holds(x), ks);
  }

  lemma InitInv(tasks: seq<Task>)
    ensures Inv(tasks, Init(tasks))
  {
    forall x: Task ensures Conserved(tasks, Init(tasks), x) {
      NothingHeld(Init(tasks).threads, x);
    }
  }

  /**
   At any point of any run: no task is tried or held more often than it was queued, and the count is
   that of the exits with 0.
   */
  lemma AtMostOnce(tasks: seq<Task>, acts: seq<Action>, t: State, x: Task)
    requires Leads(Init(tasks), acts, t)
    ensures Tried(t.log, x) + Held(t.threads, x) <= multiset(tasks)[x]
    ensures t.nCopied == Copied(t.log) == ZeroExits(acts) && |t.log| == Executions(acts)
  {
    InitInv(tasks);
    RunInv(tasks, Init(tasks), acts, t);
    assert Conserved(tasks, t, x);
    RunCounts(Init(tasks), acts, t);
  }

  function ZeroExits(acts: seq<Action>): nat {
    if acts == [] then 0 else (if acts[0].Execute? && acts[0].exitZero then 1 else 0) + ZeroExits(acts[1..])
  }

  function Executions(acts: seq<Action>): nat {
    if acts == [] then 0 else (if acts[0].Execute? then 1 else 0) + Executions(acts[1..])
  }

  lemma {:induction false} RunCounts(s: State, acts: seq<Action>, t: State)
    requires Leads(s, acts, t)
    ensures t.nCopied == s.nCopied + ZeroExits(acts) && |t.log| == |s.log| + Executions(acts)
    decreases |acts|
  {
    if acts != [] {
      RunCounts(Apply(s, acts[0]), acts[1..], t);
    }
  }

  /** What becomes of a thread is told by its one attempt at a session. */
  lemma {:induction false} ThreadFate(s: State, acts: seq<Action>, t: State, i: nat)
    requires Leads(s, acts, t) && i < |s.threads|
    ensures |t.threads| == |s.threads|
    ensures !s.threads[i].Connecting? ==>
              && Connect(i, true) !in acts && Connect(i, false) !in acts && !t.threads[i].Connecting?
              && (t.threads[i].Failed? <==> s.threads[i].Failed?)
    ensures s.threads[i].Connecting? ==>
              if Connect(i, true) in acts then !t.threads[i].Connecting? && !t.threads[i].Failed?
              else if Connect(i, false) in acts then t.threads[i].Failed? else t.threads[i].Connecting?
    decreases |acts|
  {
    if acts != [] {
      ThreadFate(Apply(s, acts[0]), acts[1..], t, i);
      assert acts == [acts[0]] + acts[1..];
    }
  }

  /** A session was opened. */
  ghost predicate Opened(acts: seq<Action>) { exists i: nat :: Connect(i, true) in acts }

  lemma {:induction false} ConnectsExist(s: State, acts: seq<Action>, t: State, i: nat)
    requires Leads(s, acts, t) && Connect(i, true) in acts
    ensures i < |s.threads|
    decreases |acts|
  {
    if acts[0] != Connect(i, true) {
      assert acts == [acts[0]] + acts[1..];
      ConnectsExist(Apply(s, acts[0]), acts[1..], t, i);
    }
  }

  /** There is a session for every task, but never more than eight. */
  lemma {:induction false} Sessions(tasks: seq<Task>, acts: seq<Action>, t: State)
    requires tasks != [] && Leads(Init(tasks), acts, t)
    ensures |t.threads| <= |tasks| && |t.threads| <= 8 && (|t.threads| == |tasks| || |t.threads| == 8)
    ensures Joined(t) ==> (AnyClosed(t.threads) <==> Opened(acts))
  {
    ThreadFate(Init(tasks), acts, t, 0);
    if Joined(t) {
      forall i: nat | i < |t.threads| ensures t.threads[i].Closed? <==> Connect(i, true) in acts {
        ThreadFate(Init(tasks), acts, t, i);
        assert t.threads[i] in t.threads;
      }
      if i: nat :| Connect(i, true) in acts {
        ConnectsExist(Init(tasks), acts, t, i);
      }
    }
  }

  /**
   When all threads are joined: every task was tried exactly as often as it was queued if and
   only if some session was opened; otherwise none was tried at all.
   */
  lemma {:induction false} JoinedMeansTried(tasks: seq<Task>, acts: seq<Action>, t: State)
    requires tasks != [] && Leads(Init(tasks), acts, t) && Joined(t)
    ensures (forall x :: Tried(t.log, x) == multiset(tasks)[x]) <==> Opened(acts)
    ensures !Opened(acts) ==> t.log == [] && t.nCopied == 0
    ensures t.nCopied == Copied(t.log)
  {
    InitInv(tasks);
    RunInv(tasks, Init(tasks), acts, t);
    Sessions(tasks, acts, t);
    forall x ensures AnyClosed(t.threads) ==> Tried(t.log, x) == multiset(tasks)[x] {
      assert Conserved(tasks, t, x);
      NothingHeld(t.threads, x);
    }
    if !AnyClosed(t.threads) {
      assert AllIdle(t.threads);
      assert tasks[0] in multiset(tasks) && Tried(t.log, tasks[0]) == 0;
    }
  }

  // ----- The joins return -----

  function ThreadWeight(k: Thread): int {
    match k case Connecting => 2 case Polling => 1 case Holding(_) => 2 case Closed => 0 case Failed => 0
  }

  function Weight(s: State): int {
    SumBy(ThreadWeight, s.threads) + 2 * |s.queue|
  }

  lemma {:induction false} RunFalls(s: State, acts: seq<Action>, t: State)
    requires Leads(s, acts, t)
    ensures |acts| + Weight(t) <= Weight(s)
    decreases |acts|
  {
    if acts != [] {
      var a := acts[0];
      SumByUpdate(ThreadWeight, s.threads, a.i, ThreadAfter(s, a));
      assert Weight(Apply(s, a)) <= Weight(s) - 1;
      RunFalls(Apply(s, a), acts[1..], t);
    }
  }

  lemma {:induction false} InitialWeight(n: nat)
    ensures SumBy(ThreadWeight, seq(n, _ => Connecting)) == 2 * n
  {
    if n > 0 {
      assert seq(n, _ => Connecting)[1..] == seq(n - 1, _ => Connecting);
      InitialWeight(n - 1);
    }
  }

  /** Every run has at most 4 steps per task, and one that can go no further has joined every thread. */
  lemma {:induction false} CopyPoolEnds(tasks: seq<Task>, acts: seq<Action>, t: State)
    requires tasks != [] && Leads(Init(tasks), acts, t)
    ensures |acts| <= 4 * |tasks|
    ensures (forall a: Action :: !Enabled(t, a)) <==> Joined(t)
  {
    RunFalls(Init(tasks), acts, t);
    InitialWeight(PoolSize(tasks));
    SumByZero(ThreadWeight, t.threads);
    forall i: nat | i < |t.threads| && (forall a: Action :: !Enabled(t, a))
      ensures t.threads[i].Closed? || t.threads[i].Failed?
    {
      assert !Enabled(t, Connect(i, true)) && !Enabled(t, Poll(i)) && !Enabled(t, Execute(i, true));
    }
    if Joined(t) {
      forall a: Action ensures !Enabled(t, a) {
        assert a.i < |t.threads| ==> t.threads[a.i] in t.threads;
      }
    }
  }
}
