/**
 The bounded queue with one mutex and one condition variable. Pushers wait while the queue
 is full, `pop` waits while it is empty, `pop_async` and `empty` never wait. Every operation
 is cut into the steps another thread can see: taking the mutex, testing and changing the
 queue (or going to sleep, which lets the mutex go), letting it go, and notify_one.
 A notification wakes any one sleeper, and a sleeper may also wake by itself.
 */
module BoundedQueue {
  import opened Wrappers
  import opened Sums

  datatype Op<T> = Push(item: T) | PopAsync | Pop | Empty

  datatype Pc<T> =
    | Idle
    | Enter(op: Op<T>)    // called, before the mutex
    | Test(op: Op<T>)     // holds the mutex
    | Sleep(op: Op<T>)    // in wait
    | Woken(op: Op<T>)    // out of wait, before the mutex
    | Leave(tell: bool)   // holds the mutex, through with the queue; tell: will notify
    | Notify              // mutex released, notify_one still to come

  /** pushed and popped are the history of the queue. */
  datatype State<T> = State(pcs: seq<Pc<T>>, holder: Option<nat>, queue: seq<T>, pushed: seq<T>, popped: seq<T>)

  datatype Action<T> =
    | Call(i: nat, op: Op<T>)
    | Lock(i: nat)
    | Act(i: nat)
    | Unlock(i: nat)
    | Signal(i: nat, j: nat)
    | Spurious(i: nat)

  function Init<T>(threads: nat): State<T> {
    State(seq(threads, _ => Idle), None, [], [], [])
  }

  ghost predicate NoSleeper<T>(pcs: seq<Pc<T>>) {
    forall k :: 0 <= k < |pcs| ==> !pcs[k].Sleep?
  }

  ghost predicate Enabled<T>(s: State<T>, a: Action<T>) {
    && a.i < |s.pcs|
    && match a
       case Call(i, _) => s.pcs[i].Idle?
       case Lock(i) => (s.pcs[i].Enter? || s.pcs[i].Woken?) && s.holder == None
       case Act(i) => s.pcs[i].Test?
       case Unlock(i) => s.pcs[i].Leave?
       case Signal(i, j) => s.pcs[i].Notify? && if j < |s.pcs| then s.pcs[j].Sleep? else NoSleeper(s.pcs)
       case Spurious(i) => s.pcs[i].Sleep?
  }

  /** What the thread that holds the mutex does to the queue. */
  ghost function Critical<T>(limit: nat, s: State<T>, i: nat): State<T>
    requires i < |s.pcs| && s.pcs[i].Test?
  {
    var op := s.pcs[i].op;
    match op
    case Push(x) =>
      if |s.queue| >= limit then s.(pcs := s.pcs[i := Sleep(op)], holder := None)
      else s.(pcs := s.pcs[i := Leave(true)], queue := s.queue + [x], pushed := s.pushed + [x])
    case PopAsync =>
      if s.queue == [] then s.(pcs := s.pcs[i := Leave(true)])
      else s.(pcs := s.pcs[i := Leave(true)], queue := s.queue[1..], popped := s.popped + [s.queue[0]])
    case Pop =>
      if s.queue == [] then s.(pcs := s.pcs[i := Sleep(op)], holder := None)
      else s.(pcs := s.pcs[i := Leave(true)], queue := s.queue[1..], popped := s.popped + [s.queue[0]])
    case Empty => s.(pcs := s.pcs[i := Leave(false)])
  }

  ghost function Apply<T>(limit: nat, s: State<T>, a: Action<T>): State<T>
    requires Enabled(s, a)
  {
    match a
    case Call(i, op) => s.(pcs := s.pcs[i := Enter(op)])
    case Lock(i) => s.(pcs := s.pcs[i := Test(s.pcs[i].op)], holder := Some(i))
    case Act(i) => Critical(limit, s, i)
    case Unlock(i) => s.(pcs := s.pcs[i := if s.pcs[i].tell then Notify else Idle], holder := None)
    case Signal(i, j) => s.(pcs := if j < |s.pcs| then s.pcs[j := Woken(s.pcs[j].op)][i := Idle] else s.pcs[i := Idle])
    case Spurious(i) => s.(pcs := s.pcs[i := Woken(s.pcs[i].op)])
  }

  ghost predicate Leads<T>(limit: nat, s: State<T>, acts: seq<Action<T>>, t: State<T>)
    decreases |acts|
  {
    if acts == [] then s == t
    else Enabled(s, acts[0]) && Leads(limit, Apply(limit, s, acts[0]), acts[1..], t)
  }

  // ----- First in, first out, and never more than the limit -----

  predicate Holding<T>(p: Pc<T>) { p.Test? || p.Leave? }

  ghost predicate Safe<T>(limit: nat, s: State<T>) {
    && s.pushed == s.popped + s.queue
    && |s.queue| <= limit
    && (forall i: nat {:trigger s.pcs[i]} :: i < |s.pcs| ==> (Holding(s.pcs[i]) <==> s.holder == Some(i)))
  }

  lemma StepSafe<T>(limit: nat, s: State<T>, a: Action<T>)
    requires Safe(limit, s) && Enabled(s, a)
    ensures Safe(limit, Apply(limit, s, a))
  {
    if a.Act? && s.queue != [] {
      assert s.queue == [s.queue[0]] + s.queue[1..];
    }
  }

  /**
   Over every run of any threads and operations: what was pushed is what was popped, then what is
   queued, in that order.
   */
  lemma {:induction false} RunSafe<T>(limit: nat, s: State<T>, acts: seq<Action<T>>, t: State<T>)
    requires Safe(limit, s) && Leads(limit, s, acts, t)
    ensures Safe(limit, t)
    decreases |acts|
  {
    if acts != [] {
      StepSafe(limit, s, acts[0]);
      RunSafe(limit, Apply(limit, s, acts[0]), acts[1..], t);
    }
  }

  lemma {:induction false} FirstInFirstOut<T>(limit: nat, threads: nat, acts: seq<Action<T>>, t: State<T>)
    requires Leads(limit, Init(threads), acts, t)
    ensures t.pushed == t.popped + t.queue && |t.queue| <= limit
    ensures forall i, j :: 0 <= i < j < |t.pcs| ==> !(Holding(t.pcs[i]) && Holding(t.pcs[j]))
  {
    RunSafe(limit, Init(threads), acts, t);
  }

  // ----- What the operations of a run have done -----

  /** One pass under the mutex: something is put, taken, missed on an empty queue, only looked at, or waited for. */
  datatype Pass<T> = Put(item: T) | Took(item: T) | Missed | Looked | Waited

  function PassOf<T>(limit: nat, queue: seq<T>, op: Op<T>): Pass<T> {
    match op
    case Push(x) => if |queue| < limit then Put(x) else Waited
    case PopAsync => if queue != [] then Took(queue[0]) else Missed
    case Pop => if queue != [] then Took(queue[0]) else Waited
    case Empty => Looked
  }

  ghost function DoneBy<T>(limit: nat, s: State<T>, a: Action<T>): seq<Pass<T>>
    requires Enabled(s, a)
  {
    if a.Act? then [PassOf(limit, s.queue, s.pcs[a.i].op)] else []
  }

  /** The passes of a run, in order. */
  ghost function Passes<T>(limit: nat, s: State<T>, acts: seq<Action<T>>): seq<Pass<T>>
    decreases |acts|
  {
    if acts == [] || !Enabled(s, acts[0]) then []
    else DoneBy(limit, s, acts[0]) + Passes(limit, Apply(limit, s, acts[0]), acts[1..])
  }

  function Puts<T>(passes: seq<Pass<T>>): seq<T> {
    if passes == [] then [] else (if passes[0].Put? then [passes[0].item] else []) + Puts(passes[1..])
  }

  function Takes<T>(passes: seq<Pass<T>>): seq<T> {
    if passes == [] then [] else (if passes[0].Took? then [passes[0].item] else []) + Takes(passes[1..])
  }

  /** The passes of a push or a pop that did not have to wait. */
  function Through<T>(passes: seq<Pass<T>>): nat {
    if passes == [] then 0 else (if passes[0].Looked? || passes[0].Waited? then 0 else 1) + Through(passes[1..])
  }

  function Signals<T>(acts: seq<Action<T>>): nat {
    if acts == [] then 0 else (if acts[0].Signal? then 1 else 0) + Signals(acts[1..])
  }

  /** A notification this thread still has to send. */
  function Pending<T>(p: Pc<T>): int { if (p.Leave? && p.tell) || p.Notify? then 1 else 0 }

  lemma PassFirst<T>(passes: seq<Pass<T>>, p: Pass<T>)
    ensures Puts([p] + passes) == (if p.Put? then [p.item] else []) + Puts(passes)
    ensures Takes([p] + passes) == (if p.Took? then [p.item] else []) + Takes(passes)
    ensures Through([p] + passes) == (if p.Looked? || p.Waited? then 0 else 1) + Through(passes)
  {
    assert ([p] + passes)[1..] == passes;
  }

  lemma Associate<T>(x: seq<T>, a: seq<T>, b: seq<T>)
    ensures x + (a + b) == x + a + b
  {
  }

  lemma {:induction false} PassesAppend<T>(a: seq<Pass<T>>, b: seq<Pass<T>>)
    ensures Puts(a + b) == Puts(a) + Puts(b) && Takes(a + b) == Takes(a) + Takes(b)
    ensures Through(a + b) == Through(a) + Through(b)
  {
    if a == [] {
      assert a + b == b;
    } else {
      hide Puts, Takes, Through;
      var p, rest := a[0], a[1..];
      PassesAppend(rest, b);
      assert a + b == [p] + (rest + b) && a == [p] + rest;
      PassFirst(rest + b, p);
      PassFirst(rest, p);
      Associate(if p.Put? then [p.item] else [], Puts(rest), Puts(b));
      Associate(if p.Took? then [p.item] else [], Takes(rest), Takes(b));
    }
  }

  /** From s to t these passes were made and so many notifications sent: nothing is put, taken or told besides. */
  ghost predicate Did<T>(s: State<T>, passes: seq<Pass<T>>, signals: nat, t: State<T>) {
    && t.pushed == s.pushed + Puts(passes) && t.popped == s.popped + Takes(passes)
    && SumBy(Pending, t.pcs) + signals == SumBy(Pending, s.pcs) + Through(passes)
  }

  lemma DidThen<T>(s: State<T>, a: seq<Pass<T>>, m: nat, t: State<T>, b: seq<Pass<T>>, n: nat, u: State<T>)
    requires Did(s, a, m, t) && Did(t, b, n, u)
    ensures Did(s, a + b, m + n, u)
  {
    PassesAppend(a, b);
    hide Puts, Takes, Through, Pending;
    assert s.pushed + Puts(a) + Puts(b) == s.pushed + (Puts(a) + Puts(b));
    assert s.popped + Takes(a) + Takes(b) == s.popped + (Takes(a) + Takes(b));
  }

  /** What the step of one thread alone does to the notifications. */
  lemma OwnTells<T>(limit: nat, s: State<T>, a: Action<T>)
    requires Enabled(s, a) && !a.Signal?
    ensures var t := Apply(limit, s, a);
            && |t.pcs| == |s.pcs| && t.pcs == s.pcs[a.i := t.pcs[a.i]]
            && Pending(t.pcs[a.i]) == Pending(s.pcs[a.i]) + Through(DoneBy(limit, s, a))
  {
  }

  lemma SignalTells<T>(limit: nat, s: State<T>, a: Action<T>)
    requires Enabled(s, a) && a.Signal?
    ensures SumBy(Pending, Apply(limit, s, a).pcs) == SumBy(Pending, s.pcs) - 1
  {
    if a.j < |s.pcs| {
      SumByUpdate(Pending, s.pcs, a.j, Woken(s.pcs[a.j].op));
      SumByUpdate(Pending, s.pcs[a.j := Woken(s.pcs[a.j].op)], a.i, Idle);
    } else {
      SumByUpdate(Pending, s.pcs, a.i, Idle);
    }
  }

  lemma StepTells<T>(limit: nat, s: State<T>, a: Action<T>)
    requires Enabled(s, a)
    ensures SumBy(Pending, Apply(limit, s, a).pcs) + (if a.Signal? then 1 else 0)
         == SumBy(Pending, s.pcs) + Through(DoneBy(limit, s, a))
  {
    if a.Signal? {
      SignalTells(limit, s, a);
    } else {
      OwnTells(limit, s, a);
      var t := Apply(limit, s, a);
      hide Apply, Enabled, DoneBy, Pending, Through;
      SumByUpdate(Pending, s.pcs, a.i, t.pcs[a.i]);
    }
  }

  lemma StepDoes<T>(limit: nat, s: State<T>, a: Action<T>)
    requires Enabled(s, a)
    ensures Did(s, DoneBy(limit, s, a), if a.Signal? then 1 else 0, Apply(limit, s, a))
  {
    StepTells(limit, s, a);
    hide Through, Pending;
    if a.Act? {
      var p := PassOf(limit, s.queue, s.pcs[a.i].op);
      PassFirst([], p);
      assert [p] + [] == [p];
    }
  }

  /**
   Over every run: every push that finds room puts its item in and every pop that finds an item takes
   the oldest, so that nothing is kept back; and every push or pop that got through sends exactly one
   notification, or still has to.
   */
  lemma {:induction false} RunDoes<T>(limit: nat, s: State<T>, acts: seq<Action<T>>, t: State<T>)
    requires Leads(limit, s, acts, t)
    ensures Did(s, Passes(limit, s, acts), Signals(acts), t)
    decreases |acts|
  {
    if acts != [] {
      var a := acts[0];
      var u := Apply(limit, s, a);
      RunDoes(limit, u, acts[1..], t);
      StepDoes(limit, s, a);
      hide Did;
      DidThen(s, DoneBy(limit, s, a), if a.Signal? then 1 else 0, u,
              Passes(limit, u, acts[1..]), Signals(acts[1..]), t);
    }
  }

  // ----- No wake-up is lost, as long as nobody uses the waiting pop -----

  predicate Waits<T>(p: Pc<T>) { p.Sleep? && p.op.Push? }

  predicate UsesPop<T>(p: Pc<T>) { (p.Enter? || p.Test? || p.Sleep? || p.Woken?) && p.op.Pop? }

  /** A pusher out of wait that has still to test the queue, or a notification that has still to be sent. */
  predicate Token<T>(p: Pc<T>) {
    (p.Woken? && p.op.Push?) || (p.Test? && p.op.Push?) || (p.Leave? && p.tell) || p.Notify?
  }

  ghost predicate SomeToken<T>(pcs: seq<Pc<T>>) {
    exists i :: 0 <= i < |pcs| && Token(pcs[i])
  }

  ghost predicate SomeWaits<T>(pcs: seq<Pc<T>>) {
    exists i :: 0 <= i < |pcs| && Waits(pcs[i])
  }

  ghost predicate NoPop<T>(pcs: seq<Pc<T>>) {
    forall i :: 0 <= i < |pcs| ==> !UsesPop(pcs[i]) && (pcs[i].Sleep? || pcs[i].Woken? ==> pcs[i].op.Push?)
  }

  ghost predicate Awake<T>(limit: nat, s: State<T>) {
    SomeWaits(s.pcs) && |s.queue| < limit ==> SomeToken(s.pcs)
  }

  lemma Kept<T>(p: seq<Pc<T>>, q: seq<Pc<T>>, i: nat)
    requires i < |p| == |q| && (forall k: nat {:trigger q[k]} :: k < |p| && k != i ==> q[k] == p[k])
    ensures Token(q[i]) ==> SomeToken(q)
    ensures !Token(p[i]) && SomeToken(p) ==> SomeToken(q)
    ensures !Waits(q[i]) && SomeWaits(q) ==> SomeWaits(p)
  {
    if !Token(p[i]) && SomeToken(p) {
      var k: nat :| k < |p| && Token(p[k]);
      assert Token(q[k]);
    }
  }

  lemma StepAwake<T>(limit: nat, s: State<T>, a: Action<T>)
    requires Safe(limit, s) && NoPop(s.pcs) && Awake(limit, s) && Enabled(s, a)
    requires a.Call? ==> !a.op.Pop?
    ensures var t := Apply(limit, s, a); NoPop(t.pcs) && Awake(limit, t)
  {
    var t := Apply(limit, s, a);
    match a
    case Signal(i, j) =>
      if j < |s.pcs| {
        assert s.pcs[j].op.Push? && Token(t.pcs[j]);
      }
    case Act(i) =>
      assert Holding(s.pcs[i]);
      Kept(s.pcs, t.pcs, i);
    case _ =>
      Kept(s.pcs, t.pcs, a.i);
  }

  lemma {:induction false} RunAwake<T>(limit: nat, s: State<T>, acts: seq<Action<T>>, t: State<T>)
    requires Safe(limit, s) && NoPop(s.pcs) && Awake(limit, s) && Leads(limit, s, acts, t)
    requires forall a <- acts :: a.Call? ==> !a.op.Pop?
    ensures NoPop(t.pcs) && Awake(limit, t)
    decreases |acts|
  {
    if acts != [] {
      StepSafe(limit, s, acts[0]);
      StepAwake(limit, s, acts[0]);
      RunAwake(limit, Apply(limit, s, acts[0]), acts[1..], t);
    }
  }

  /**
   With no call of the waiting pop: whenever a pusher sleeps although there is room, a woken
   pusher or an unsent notification is on its way. So once every thread is idle or asleep,
   nobody sleeps unless the queue is full.
   */
  lemma {:induction false} NoWakeUpLost<T>(limit: nat, threads: nat, acts: seq<Action<T>>, t: State<T>)
    requires Leads(limit, Init(threads), acts, t)
    requires forall a <- acts :: a.Call? ==> !a.op.Pop?
    ensures SomeWaits(t.pcs) && |t.queue| < limit ==> SomeToken(t.pcs)
    ensures (forall i :: 0 <= i < |t.pcs| ==> t.pcs[i].Idle? || t.pcs[i].Sleep?) ==>
        NoSleeper(t.pcs) || |t.queue| == limit
  {
    RunSafe(limit, Init(threads), acts, t);
    RunAwake(limit, Init(threads), acts, t);
    if !NoSleeper(t.pcs) {
      var i :| 0 <= i < |t.pcs| && t.pcs[i].Sleep?;
      assert Waits(t.pcs[i]);
    }
  }

  // ----- With the waiting pop: enough for limit + 1 threads -----

  function PushSleeper<T>(p: Pc<T>): int { if Waits(p) then 1 else 0 }

  function PopSleeper<T>(p: Pc<T>): int { if p.Sleep? && p.op.Pop? then 1 else 0 }

  predicate Coming<T>(p: Pc<T>) { p.Enter? || p.Test? || p.Woken? }

  predicate Tells<T>(p: Pc<T>) { (p.Leave? && p.tell) || p.Notify? }

  /** Stands for one free place that a sleeping pusher need not fear for: a pusher on its way, or a notification. */
  function PushToken<T>(p: Pc<T>): int { if (Coming(p) && p.op.Push?) || Tells(p) then 1 else 0 }

  /** The same for one item and a sleeping popper. */
  function PopToken<T>(p: Pc<T>): int { if (Coming(p) && p.op.Pop?) || Tells(p) then 1 else 0 }

  /** Only push and pop ever wait. */
  ghost predicate SleepersWait<T>(pcs: seq<Pc<T>>) {
    forall i :: 0 <= i < |pcs| ==> pcs[i].Sleep? || pcs[i].Woken? ==> pcs[i].op.Push? || pcs[i].op.Pop?
  }

  /**
   Sleepers of both kinds never meet; beside a sleeping popper there is a token for every item,
   beside a sleeping pusher one for every free place.
   */
  ghost predicate Served<T>(limit: nat, queued: nat, pcs: seq<Pc<T>>) {
    var pushers, poppers := SumBy(PushSleeper, pcs), SumBy(PopSleeper, pcs);
    && (pushers == 0 || poppers == 0)
    && (poppers != 0 ==> queued <= SumBy(PopToken, pcs))
    && (pushers != 0 ==> limit - queued <= SumBy(PushToken, pcs))
  }

  lemma {:induction false} Disjoint<T>(pcs: seq<Pc<T>>)
    ensures 0 <= SumBy(PushSleeper, pcs) && 0 <= SumBy(PopSleeper, pcs)
    ensures 0 <= SumBy(PushToken, pcs) && 0 <= SumBy(PopToken, pcs)
    ensures SumBy(PushSleeper, pcs) + SumBy(PushToken, pcs) <= |pcs|
    ensures SumBy(PopSleeper, pcs) + SumBy(PopToken, pcs) <= |pcs|
  {
    if pcs != [] {
      Disjoint(pcs[1..]);
    }
  }

  /** How the four sums change with one thread. */
  lemma Recount<T>(pcs: seq<Pc<T>>, i: nat, q: Pc<T>)
    requires i < |pcs|
    ensures SumBy(PushSleeper, pcs[i := q]) == SumBy(PushSleeper, pcs) - PushSleeper(pcs[i]) + PushSleeper(q)
    ensures SumBy(PopSleeper, pcs[i := q]) == SumBy(PopSleeper, pcs) - PopSleeper(pcs[i]) + PopSleeper(q)
    ensures SumBy(PushToken, pcs[i := q]) == SumBy(PushToken, pcs) - PushToken(pcs[i]) + PushToken(q)
    ensures SumBy(PopToken, pcs[i := q]) == SumBy(PopToken, pcs) - PopToken(pcs[i]) + PopToken(q)
  {
    SumByUpdate(PushSleeper, pcs, i, q);
    SumByUpdate(PopSleeper, pcs, i, q);
    SumByUpdate(PushToken, pcs, i, q);
    SumByUpdate(PopToken, pcs, i, q);
  }

  /** A thread that waits for nothing is neither sleeper nor, for the other kind, token: the sums leave it out. */
  lemma LeftOut<T>(pcs: seq<Pc<T>>, i: nat)
    requires i < |pcs|
    ensures PopSleeper(pcs[i]) == 0 && PopToken(pcs[i]) == 0 ==> SumBy(PopSleeper, pcs) + SumBy(PopToken, pcs) < |pcs|
    ensures PushSleeper(pcs[i]) == 0 && PushToken(pcs[i]) == 0 ==>
        SumBy(PushSleeper, pcs) + SumBy(PushToken, pcs) < |pcs|
  {
    var q: Pc<T> := Notify;
    Recount(pcs, i, q);
    Disjoint(pcs[i := q]);
  }

  lemma {:induction false} NoSleeperCounts<T>(pcs: seq<Pc<T>>)
    requires NoSleeper(pcs)
    ensures SumBy(PushSleeper, pcs) == 0 && SumBy(PopSleeper, pcs) == 0
  {
    SumByZero(PushSleeper, pcs);
    SumByZero(PopSleeper, pcs);
  }

  /** Changes of one thread that put nobody to sleep. */
  lemma QuietStep<T>(limit: nat, queued: nat, after: nat, pcs: seq<Pc<T>>, i: nat, q: Pc<T>)
    requires Served(limit, queued, pcs) && i < |pcs|
    requires PushSleeper(q) == 0 && PopSleeper(q) == 0
    requires after + PopToken(pcs[i]) <= queued + PopToken(q)
    requires (limit - after) + PushToken(pcs[i]) <= (limit - queued) + PushToken(q)
    ensures Served(limit, after, pcs[i := q])
  {
    Recount(pcs, i, q);
    Disjoint(pcs);
    Disjoint(pcs[i := q]);
  }

  /** Going to sleep: here the number of threads counts. */
  lemma SleepStep<T>(limit: nat, queued: nat, pcs: seq<Pc<T>>, i: nat)
    requires Served(limit, queued, pcs) && |pcs| <= limit + 1 && i < |pcs| && pcs[i].Test?
    requires (pcs[i].op.Push? && queued >= limit) || (pcs[i].op.Pop? && queued == 0)
    ensures Served(limit, queued, pcs[i := Sleep(pcs[i].op)])
  {
    Recount(pcs, i, Sleep(pcs[i].op));
    Disjoint(pcs);
    Disjoint(pcs[i := Sleep(pcs[i].op)]);
    LeftOut(pcs, i);
  }

  lemma ActServed<T>(limit: nat, s: State<T>, i: nat)
    requires Served(limit, |s.queue|, s.pcs) && |s.pcs| <= limit + 1 && i < |s.pcs| && s.pcs[i].Test?
    ensures Served(limit, |Critical(limit, s, i).queue|, Critical(limit, s, i).pcs)
  {
    var op := s.pcs[i].op;
    var t := Critical(limit, s, i);
    if t.pcs[i].Sleep? {
      SleepStep(limit, |s.queue|, s.pcs, i);
    } else {
      QuietStep(limit, |s.queue|, |t.queue|, s.pcs, i, t.pcs[i]);
      assert t.pcs == s.pcs[i := t.pcs[i]];
    }
  }

  lemma SignalServed<T>(limit: nat, s: State<T>, i: nat, j: nat)
    requires Served(limit, |s.queue|, s.pcs) && SleepersWait(s.pcs) && Enabled(s, Signal(i, j))
    ensures Served(limit, |s.queue|, Apply(limit, s, Signal(i, j)).pcs)
  {
    if j < |s.pcs| {
      var m := s.pcs[j := Woken(s.pcs[j].op)];
      Recount(s.pcs, j, Woken(s.pcs[j].op));
      Recount(m, i, Idle);
      Disjoint(s.pcs);
      Disjoint(m[i := Idle]);
    } else {
      NoSleeperCounts(s.pcs);
      Recount(s.pcs, i, Idle);
    }
  }

  lemma StepServed<T>(limit: nat, s: State<T>, a: Action<T>)
    requires Served(limit, |s.queue|, s.pcs) && SleepersWait(s.pcs) && Enabled(s, a) && |s.pcs| <= limit + 1
    ensures var t := Apply(limit, s, a); Served(limit, |t.queue|, t.pcs) && SleepersWait(t.pcs) && |t.pcs| == |s.pcs|
  {
    var t := Apply(limit, s, a);
    match a
    case Act(i) => ActServed(limit, s, i);
    case Signal(i, j) => SignalServed(limit, s, i, j);
    case _ => QuietStep(limit, |s.queue|, |s.queue|, s.pcs, a.i, t.pcs[a.i]);
  }

  lemma {:induction false} RunServed<T>(limit: nat, s: State<T>, acts: seq<Action<T>>, t: State<T>)
    requires Served(limit, |s.queue|, s.pcs) && SleepersWait(s.pcs) && |s.pcs| <= limit + 1 && Leads(limit, s, acts, t)
    ensures Served(limit, |t.queue|, t.pcs)
    decreases |acts|
  {
    if acts != [] {
      StepServed(limit, s, acts[0]);
      RunServed(limit, Apply(limit, s, acts[0]), acts[1..], t);
    }
  }

  /** Every thread is idle or asleep: nothing will happen without a new call or a spurious wake-up. */
  ghost predicate Quiet<T>(pcs: seq<Pc<T>>) {
    forall i :: 0 <= i < |pcs| ==> pcs[i].Idle? || pcs[i].Sleep?
  }

  /** Someone sleeps who need not: a pusher while there is room, or a popper beside an item. */
  ghost predicate Stranded<T>(limit: nat, t: State<T>) {
    exists i :: 0 <= i < |t.pcs| && t.pcs[i].Sleep?
                && ((t.pcs[i].op.Push? && |t.queue| < limit) || (t.pcs[i].op.Pop? && t.queue != []))
  }

  lemma {:induction false} QuietCounts<T>(pcs: seq<Pc<T>>)
    requires Quiet(pcs)
    ensures SumBy(PushToken, pcs) == 0 && SumBy(PopToken, pcs) == 0
  {
    SumByZero(PushToken, pcs);
    SumByZero(PopToken, pcs);
  }

  lemma SleeperCounts<T>(pcs: seq<Pc<T>>, i: nat)
    requires i < |pcs|
    ensures PushSleeper(pcs[i]) == 1 ==> SumBy(PushSleeper, pcs) != 0
    ensures PopSleeper(pcs[i]) == 1 ==> SumBy(PopSleeper, pcs) != 0
  {
    SumByZero(PushSleeper, pcs);
    SumByZero(PopSleeper, pcs);
    assert pcs[i] in pcs;
  }

  /** With at most limit + 1 threads no wake-up is lost, whatever operations they call. */
  lemma {:induction false} FewThreadsLoseNothing<T>(limit: nat, threads: nat, acts: seq<Action<T>>, t: State<T>)
    requires threads <= limit + 1 && Leads(limit, Init(threads), acts, t) && Quiet(t.pcs)
    ensures !Stranded(limit, t)
  {
    NoSleeperCounts(Init<T>(threads).pcs);
    RunServed(limit, Init(threads), acts, t);
    QuietCounts(t.pcs);
    forall i | 0 <= i < |t.pcs| && t.pcs[i].Sleep?
      ensures !(t.pcs[i].op.Push? && |t.queue| < limit) && !(t.pcs[i].op.Pop? && t.queue != [])
    {
      SleeperCounts(t.pcs, i);
    }
  }

  // ----- With the waiting pop: too few for limit + 2 threads -----

  lemma {:induction false} Append<T>(limit: nat, s: State<T>, a: seq<Action<T>>, m: State<T>, b: seq<Action<T>>,
                                     t: State<T>)
    requires Leads(limit, s, a, m) && Leads(limit, m, b, t)
    ensures Leads(limit, s, a + b, t)
    decreases |a|
  {
    if a == [] {
      assert a + b == b;
    } else {
      assert (a + b)[1..] == a[1..] + b;
      Append(limit, Apply(limit, s, a[0]), a[1..], m, b, t);
    }
  }

  /** One more step at the end of a run. */
  lemma Then<T>(limit: nat, s: State<T>, acts: seq<Action<T>>, m: State<T>, a: Action<T>)
    requires Leads(limit, s, acts, m) && Enabled(m, a)
    ensures Leads(limit, s, acts + [a], Apply(limit, m, a))
  {
    var t := Apply(limit, m, a);
    assert Leads(limit, m, [a], t) by {
      assert Leads(limit, t, [], t) && [a][1..] == [];
    }
    Append(limit, s, acts, m, [a], t);
  }

  /** An idle thread calls an operation and goes to sleep in it. */
  lemma CallSleeps<T>(limit: nat, s: State<T>, acts: seq<Action<T>>, m: State<T>, i: nat, op: Op<T>)
    requires Leads(limit, s, acts, m) && i < |m.pcs| && m.pcs[i].Idle? && m.holder == None
    requires (op.Pop? && m.queue == []) || (op.Push? && |m.queue| >= limit)
    ensures Leads(limit, s, acts + [Call(i, op)] + [Lock(i)] + [Act(i)], m.(pcs := m.pcs[i := Sleep(op)]))
  {
    Then(limit, s, acts, m, Call(i, op));
    var m1 := Apply(limit, m, Call(i, op));
    Then(limit, s, acts + [Call(i, op)], m1, Lock(i));
    var m2 := Apply(limit, m1, Lock(i));
    Then(limit, s, acts + [Call(i, op)] + [Lock(i)], m2, Act(i));
    assert Apply(limit, m2, Act(i)) == m.(pcs := m.pcs[i := Sleep(op)]);
  }

  /** A woken popper finds the queue empty and goes back to sleep. */
  lemma PopSleepsAgain<T>(limit: nat, s: State<T>, acts: seq<Action<T>>, m: State<T>, i: nat)
    requires Leads(limit, s, acts, m) && i < |m.pcs| && m.pcs[i] == Woken(Pop) && m.holder == None && m.queue == []
    ensures Leads(limit, s, acts + [Lock(i)] + [Act(i)], m.(pcs := m.pcs[i := Sleep(Pop)]))
  {
    Then(limit, s, acts, m, Lock(i));
    var m1 := Apply(limit, m, Lock(i));
    Then(limit, s, acts + [Lock(i)], m1, Act(i));
    assert Apply(limit, m1, Act(i)) == m.(pcs := m.pcs[i := Sleep(Pop)]);
  }

  /** A woken popper takes an item, and its notification is still to come. */
  lemma PopTakes<T>(limit: nat, s: State<T>, acts: seq<Action<T>>, m: State<T>, i: nat)
    requires Leads(limit, s, acts, m) && i < |m.pcs| && m.pcs[i] == Woken(Pop) && m.holder == None && m.queue != []
    ensures Leads(limit, s, acts + [Lock(i)] + [Act(i)] + [Unlock(i)],
                  m.(pcs := m.pcs[i := Notify], queue := m.queue[1..], popped := m.popped + [m.queue[0]]))
  {
    Then(limit, s, acts, m, Lock(i));
    var m1 := Apply(limit, m, Lock(i));
    Then(limit, s, acts + [Lock(i)], m1, Act(i));
    var m2 := Apply(limit, m1, Act(i));
    Then(limit, s, acts + [Lock(i)] + [Act(i)], m2, Unlock(i));
    assert Apply(limit, m2, Unlock(i)).pcs == m.pcs[i := Notify];
  }

  /** A push of x that wakes sleeper j. */
  lemma PushWakes<T>(limit: nat, s: State<T>, acts: seq<Action<T>>, m: State<T>, i: nat, j: nat, x: T)
    requires Leads(limit, s, acts, m) && m.holder == None && |m.queue| < limit
    requires i < |m.pcs| && m.pcs[i].Idle? && j < |m.pcs| && m.pcs[j].Sleep?
    ensures Leads(limit, s, acts + [Call(i, Push(x))] + [Lock(i)] + [Act(i)] + [Unlock(i)] + [Signal(i, j)],
                  m.(pcs := m.pcs[j := Woken(m.pcs[j].op)], queue := m.queue + [x], pushed := m.pushed + [x]))
  {
    var a1 := acts + [Call(i, Push(x))];
    Then(limit, s, acts, m, Call(i, Push(x)));
    var m1 := Apply(limit, m, Call(i, Push(x)));
    Then(limit, s, a1, m1, Lock(i));
    var m2 := Apply(limit, m1, Lock(i));
    Then(limit, s, a1 + [Lock(i)], m2, Act(i));
    var m3 := Apply(limit, m2, Act(i));
    Then(limit, s, a1 + [Lock(i)] + [Act(i)], m3, Unlock(i));
    var m4 := Apply(limit, m3, Unlock(i));
    assert m4.pcs == m.pcs[i := Notify];
    Then(limit, s, a1 + [Lock(i)] + [Act(i)] + [Unlock(i)], m4, Signal(i, j));
    assert Apply(limit, m4, Signal(i, j)).pcs == m.pcs[j := Woken(m.pcs[j].op)];
  }

  function Copies<T>(x: T, k: nat): seq<T> { seq(k, _ => x) }

  /** Threads below k are at p, those from k to below m at q, those after that are idle. */
  function Row<T>(threads: nat, k: nat, p: Pc<T>, m: nat, q: Pc<T>): seq<Pc<T>> {
    seq(threads, i => if i < k then p else if i < m then q else Idle)
  }

  /** The same, with a popper at limit and a pusher of x after it, both asleep. */
  function Row2<T>(limit: nat, threads: nat, k: nat, p: Pc<T>, q: Pc<T>, x: T): seq<Pc<T>> {
    seq(threads, i => if i < k then p else if i < limit then q else if i == limit then Sleep(Pop)
                      else if i == limit + 1 then Sleep(Push(x)) else Idle)
  }

  // limit + 1 poppers find the queue empty.
  lemma PoppersSleep<T>(limit: nat, threads: nat) returns (acts: seq<Action<T>>)
    requires threads >= limit + 2
    ensures Leads(limit, Init(threads), acts, State(Row(threads, limit + 1, Sleep(Pop), 0, Idle), None, [], [], []))
  {
    acts := [];
    assert Row<T>(threads, 0, Sleep(Pop), 0, Idle) == Init(threads).pcs;
    for k := 0 to limit + 1
      invariant Leads(limit, Init(threads), acts, State(Row(threads, k, Sleep(Pop), 0, Idle), None, [], [], []))
    {
      var m: State<T> := State(Row(threads, k, Sleep(Pop), 0, Idle), None, [], [], []);
      CallSleeps(limit, Init(threads), acts, m, k, Pop);
      acts := acts + [Call(k, Pop)] + [Lock(k)] + [Act(k)];
      assert m.pcs[k := Sleep(Pop)] == Row(threads, k + 1, Sleep(Pop), 0, Idle);
    }
  }

  // A pusher fills the queue, and every push wakes one of the first limit.
  lemma PushesWake<T>(limit: nat, threads: nat, x: T) returns (acts: seq<Action<T>>)
    requires threads >= limit + 2
    ensures Leads(limit, Init(threads), acts, State(Row(threads, limit, Woken(Pop), limit + 1, Sleep(Pop)), None,
                                                    Copies(x, limit), Copies(x, limit), []))
  {
    acts := PoppersSleep(limit, threads);
    assert Row<T>(threads, limit + 1, Sleep(Pop), 0, Idle) == Row(threads, 0, Woken(Pop), limit + 1, Sleep(Pop));
    assert Copies(x, 0) == [];
    for k := 0 to limit
      invariant Leads(limit, Init(threads), acts, State(Row(threads, k, Woken(Pop), limit + 1, Sleep(Pop)), None,
                                                        Copies(x, k), Copies(x, k), []))
    {
      var m := State(Row(threads, k, Woken(Pop), limit + 1, Sleep(Pop)), None, Copies(x, k), Copies(x, k), []);
      var p := limit + 1;
      PushWakes(limit, Init(threads), acts, m, p, k, x);
      acts := acts + [Call(p, Push(x))] + [Lock(p)] + [Act(p)] + [Unlock(p)] + [Signal(p, k)];
      assert m.pcs[k := Woken(Pop)] == Row(threads, k + 1, Woken(Pop), limit + 1, Sleep(Pop));
      assert Copies(x, k) + [x] == Copies(x, k + 1);
    }
  }

  // It comes again, finds the queue full and sleeps.
  lemma PusherSleeps<T>(limit: nat, threads: nat, x: T) returns (acts: seq<Action<T>>)
    requires threads >= limit + 2
    ensures Leads(limit, Init(threads), acts, State(Row2(limit, threads, 0, Notify, Woken(Pop), x), None,
                                                    Copies(x, limit), Copies(x, limit), Copies(x, 0)))
  {
    acts := PushesWake(limit, threads, x);
    var m := State(Row(threads, limit, Woken(Pop), limit + 1, Sleep(Pop)), None, Copies(x, limit), Copies(x, limit),
        []);
    var p := limit + 1;
    CallSleeps(limit, Init(threads), acts, m, p, Push(x));
    acts := acts + [Call(p, Push(x))] + [Lock(p)] + [Act(p)];
    assert m.pcs[p := Sleep(Push(x))] == Row2(limit, threads, 0, Notify, Woken(Pop), x);
    assert Copies(x, 0) == [];
  }

  // The woken poppers take all the items and keep their notifications back.
  lemma PoppersTake<T>(limit: nat, threads: nat, x: T) returns (acts: seq<Action<T>>)
    requires threads >= limit + 2
    ensures Leads(limit, Init(threads), acts, State(Row2(limit, threads, limit, Notify, Woken(Pop), x), None,
                                                    [], Copies(x, limit), Copies(x, limit)))
  {
    acts := PusherSleeps(limit, threads, x);
    for k := 0 to limit
      invariant Leads(limit, Init(threads), acts, State(Row2(limit, threads, k, Notify, Woken(Pop), x), None,
                                                        Copies(x, limit - k), Copies(x, limit), Copies(x, k)))
    {
      var m := State(Row2(limit, threads, k, Notify, Woken(Pop), x), None, Copies(x, limit - k), Copies(x, limit),
          Copies(x, k));
      PopTakes(limit, Init(threads), acts, m, k);
      acts := acts + [Lock(k)] + [Act(k)] + [Unlock(k)];
      assert m.pcs[k := Notify] == Row2(limit, threads, k + 1, Notify, Woken(Pop), x);
      assert m.queue[1..] == Copies(x, limit - (k + 1));
      assert m.popped + [m.queue[0]] == Copies(x, k + 1);
    }
    assert Copies(x, 0) == [];
  }

  /**
   With limit + 2 threads or more a wake-up can be lost. limit + 1 poppers sleep, as many pushes
   as there are places wake all but one of them, the pusher comes again and sleeps, and every
   popper's notification goes to the popper that is left, which goes back to sleep each time.
   */
  lemma WaitingPopLosesWakeUp<T>(limit: nat, threads: nat, x: T) returns (acts: seq<Action<T>>, t: State<T>)
    requires limit >= 1 && threads >= limit + 2
    ensures Leads(limit, Init(threads), acts, t) && Quiet(t.pcs) && Stranded(limit, t)
    ensures t.queue == [] && |t.pcs| == threads && t.pcs[limit + 1] == Sleep(Push(x))
  {
    acts := PoppersTake(limit, threads, x);
    assert Row2(limit, threads, limit, Notify, Woken(Pop), x) == Row2(limit, threads, 0, Idle, Notify, x);
    for k := 0 to limit
      invariant Leads(limit, Init(threads), acts, State(Row2(limit, threads, k, Idle, Notify, x), None,
                                                        [], Copies(x, limit), Copies(x, limit)))
    {
      var m := State(Row2(limit, threads, k, Idle, Notify, x), None, [], Copies(x, limit), Copies(x, limit));
      Then(limit, Init(threads), acts, m, Signal(k, limit));
      var m1 := Apply(limit, m, Signal(k, limit));
      PopSleepsAgain(limit, Init(threads), acts + [Signal(k, limit)], m1, limit);
      acts := acts + [Signal(k, limit)] + [Lock(limit)] + [Act(limit)];
      assert m1.pcs[limit := Sleep(Pop)] == Row2(limit, threads, k + 1, Idle, Notify, x);
    }
    t := State(Row2(limit, threads, limit, Idle, Notify, x), None, [], Copies(x, limit), Copies(x, limit));
    assert t.pcs[limit + 1].Sleep? && t.pcs[limit + 1].op.Push?;
  }

  ghost predicate LosesWakeUp<T>(limit: nat, threads: nat, acts: seq<Action<T>>, t: State<T>) {
    Leads(limit, Init(threads), acts, t) && Quiet(t.pcs) && Stranded(limit, t)
  }

  /**
   With all operations allowed, a run can end with a wake-up lost exactly when there are at least
   two threads more than places.
   */
  lemma {:induction false} WakeUpLostIff<T>(limit: nat, threads: nat, x: T)
    requires limit >= 1
    ensures (exists acts: seq<Action<T>>, t: State<T> :: LosesWakeUp(limit, threads, acts, t)) <==> threads >= limit + 2
  {
    if threads >= limit + 2 {
      var acts, t := WaitingPopLosesWakeUp(limit, threads, x);
      assert LosesWakeUp(limit, threads, acts, t);
    }
    forall acts: seq<Action<T>>, t: State<T> | LosesWakeUp(limit, threads, acts, t) ensures threads >= limit + 2 {
      if threads <= limit + 1 {
        FewThreadsLoseNothing(limit, threads, acts, t);
      }
    }
  }

  // ----- The queue object, inside one critical section -----

  class ConcurrentQueue<T> {
    const limit: nat
    var queue: seq<T>
    ghost var pushed: seq<T>
    ghost var popped: seq<T>

    ghost predicate Valid()
      reads this
    {
      pushed == popped + queue && |queue| <= limit
    }

    constructor (limit: nat)
      ensures Valid() && queue == [] && pushed == [] && this.limit == limit
    {
      this.limit := limit;
      queue, pushed, popped := [], [], [];
    }

    method IsEmpty() returns (empty: bool)
      requires Valid()
      ensures empty <==> pushed == popped
    {
      empty := !(|queue| > 0);
    }

    method PopAsync() returns (ret: bool, item: Option<T>)
      requires Valid()
      modifies this
      ensures Valid() && pushed == old(pushed)
      ensures ret <==> old(popped) < pushed
      ensures ret ==> item == Some(pushed[|old(popped)|]) && popped == pushed[..|old(popped)| + 1]
      ensures !ret ==> item == None && popped == old(popped)
    {
      if queue == [] {
        ret, item := false, None;
      } else {
        ret, item := true, Some(queue[0]);
        popped := popped + [queue[0]];
        queue := queue[1..];
      }
    }

    /** One pass of the waiting loop: a full queue is left as it is, and the caller goes to sleep. */
    method Push(item: T) returns (done: bool)
      requires Valid()
      modifies this
      ensures Valid() && popped == old(popped)
      ensures done <==> |old(pushed)| - |old(popped)| < limit
      ensures pushed == if done then old(pushed) + [item] else old(pushed)
    {
      done := !(|queue| >= limit);
      if done {
        queue := queue + [item];
        pushed := pushed + [item];
      }
    }
  }
}
