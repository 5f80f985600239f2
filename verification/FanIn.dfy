/**
 Fan-in of inference rows. One process per camera group runs a thread pool over its
 images; every image puts one row on a queue shared by all processes, and a process that
 is through puts one end marker. A collector reads the queue until it has counted one
 end marker per process.

 A multiprocessing queue keeps, per process, the order of the puts: a put appends to an
 outbox of the process, and a feeder moves the outbox to the shared pipe. Every step below
 is one atomic action of one thread; a run is any interleaving of them.
 */
module FanIn {
  import opened Sums

  type Image = string

  /** The last column of a row: the classifier's answer, or the row of a failed image. */
  datatype Verdict = Scored(result: int) | Unprocessed

  datatype Item = Row(image: Image, verdict: Verdict) | EndMark

  /** An item in the pipe. The sender is history only: the collector never reads it. */
  datatype Packet = Packet(sender: nat, item: Item)

  datatype Line = Header | Entry(image: Image, verdict: Verdict)

  /** Booting: loading its models. Working: pool running. Ended: end marker put. Dead: the load raised. */
  datatype Phase = Booting | Working | Ended | Dead

  /**
   todo: submitted, not started. running: inside the try or except block, row not yet put.
   written: row put, progress not yet counted.
   */
  datatype Worker = Worker(phase: Phase, todo: seq<Image>, running: multiset<Image>,
                           written: multiset<Image>, outbox: seq<Item>)

  datatype State = State(workers: seq<Worker>, pipe: seq<Packet>, progress: int,
                         endSignals: nat, results: seq<Line>, taken: seq<Packet>)

  datatype Action =
    | Boot(w: nat)
    | Crash(w: nat)
    | Start(w: nat)
    | PutRow(w: nat, image: Image, verdict: Verdict)
    | Count(w: nat, image: Image)
    | PutEnd(w: nat)
    | Feed(w: nat)
    | Get

  function Init(images: seq<seq<Image>>): State {
    State(seq(|images|, w requires 0 <= w < |images| => Worker(Booting, images[w], multiset{}, multiset{}, [])),
          [], 0, 0, [Header], [])
  }

  predicate Done(s: State) {
    s.endSignals >= |s.workers|
  }

  predicate Enabled(pool: nat, s: State, a: Action) {
    match a
    case Boot(w) => w < |s.workers| && s.workers[w].phase.Booting?
    case Crash(w) => w < |s.workers| && s.workers[w].phase.Booting?
    case Start(w) =>
      && w < |s.workers|
      && var k := s.workers[w];
         k.phase.Working? && k.todo != [] && |k.running| + |k.written| < pool
    case PutRow(w, image, _) => w < |s.workers| && s.workers[w].phase.Working? && image in s.workers[w].running
    case Count(w, image) => w < |s.workers| && s.workers[w].phase.Working? && image in s.workers[w].written
    case PutEnd(w) =>
      && w < |s.workers|
      && var k := s.workers[w];
         k.phase.Working? && k.todo == [] && k.running == multiset{} && k.written == multiset{}
    case Feed(w) => w < |s.workers| && s.workers[w].outbox != []
    case Get => !Done(s) && s.pipe != []
  }

  function WorkerAfter(k: Worker, a: Action): Worker
    requires a.Start? ==> k.todo != []
    requires a.Feed? ==> k.outbox != []
  {
    match a
    case Boot(_) => k.(phase := Working)
    case Crash(_) => k.(phase := Dead)
    case Start(_) => k.(todo := k.todo[1..], running := k.running + multiset{k.todo[0]})
    case PutRow(_, image, verdict) =>
      k.(running := k.running - multiset{image}, written := k.written + multiset{image},
         outbox := k.outbox + [Row(image, verdict)])
    case Count(_, image) => k.(written := k.written - multiset{image})
    case PutEnd(_) => k.(phase := Ended, outbox := k.outbox + [EndMark])
    case Feed(_) => k.(outbox := k.outbox[1..])
    case Get => k
  }

  function Apply(pool: nat, s: State, a: Action): State
    requires Enabled(pool, s, a)
  {
    match a
    case Get =>
      var p := s.pipe[0];
      var s' := s.(pipe := s.pipe[1..], taken := s.taken + [p]);
      if p.item.EndMark? then s'.(endSignals := s.endSignals + 1)
      else s'.(results := s.results + [Entry(p.item.image, p.item.verdict)])
    case Feed(w) =>
      s.(workers := s.workers[w := WorkerAfter(s.workers[w], a)],
         pipe := s.pipe + [Packet(w, s.workers[w].outbox[0])])
    case Count(w, _) =>
      s.(workers := s.workers[w := WorkerAfter(s.workers[w], a)], progress := s.progress + 1)
    case _ =>
      s.(workers := s.workers[a.w := WorkerAfter(s.workers[a.w], a)])
  }

  /** The actions lead from s to t, each enabled when it is taken. */
  ghost predicate Leads(pool: nat, s: State, acts: seq<Action>, t: State)
    decreases |acts|
  {
    if acts == [] then s == t
    else Enabled(pool, s, acts[0]) && Leads(pool, Apply(pool, s, acts[0]), acts[1..], t)
  }

  // ----- What a worker has sent so far -----

  function From(ps: seq<Packet>, w: nat): seq<Item> {
    if ps == [] then []
    else From(ps[..|ps| - 1], w) + if ps[|ps| - 1].sender == w then [ps[|ps| - 1].item] else []
  }

  function Ends(items: seq<Item>): nat {
    if items == [] then 0 else Ends(items[..|items| - 1]) + if items[|items| - 1].EndMark? then 1 else 0
  }

  function RowOf(i: Item): multiset<Image> { if i.Row? then multiset{i.image} else multiset{} }

  function Rows(items: seq<Item>): multiset<Image> {
    if items == [] then multiset{}
    else Rows(items[..|items| - 1]) + RowOf(items[|items| - 1])
  }

  function Items(ps: seq<Packet>): seq<Item> {
    seq(|ps|, i requires 0 <= i < |ps| => ps[i].item)
  }

  function Lines(items: seq<Item>): seq<Line> {
    if items == [] then []
    else
      var last := items[|items| - 1];
      Lines(items[..|items| - 1]) + if last.Row? then [Entry(last.image, last.verdict)] else []
  }

  /** The images named by the rows of a result file, the header left out. */
  function LineImages(lines: seq<Line>): multiset<Image> {
    if lines == [] then multiset{}
    else
      var last := lines[|lines| - 1];
      LineImages(lines[..|lines| - 1]) + if last.Entry? then multiset{last.image} else multiset{}
  }

  function AllImages(images: seq<seq<Image>>): multiset<Image> {
    if images == [] then multiset{} else AllImages(images[..|images| - 1]) + multiset(images[|images| - 1])
  }

  function Sent(s: State, w: nat): seq<Item>
    requires w < |s.workers|
  {
    From(s.taken, w) + From(s.pipe, w) + s.workers[w].outbox
  }

  // ----- The invariant -----

  ghost predicate Flow(images: seq<Image>, k: Worker, sent: seq<Item>) {
    && Rows(sent) + k.running + multiset(k.todo) == multiset(images)
    && match k.phase
       case Booting => k.todo == images && k.written == multiset{}
       case Dead => k.todo == images && k.written == multiset{}
       case Working => true
       case Ended => k.todo == [] && k.running == multiset{} && k.written == multiset{}
  }

  /** The end marker is the last thing a worker ever sends, and it sends it at most once. */
  ghost predicate EndIsLast(k: Worker, sent: seq<Item>) {
    if k.phase.Ended? then sent != [] && sent[|sent| - 1].EndMark? && Ends(sent[..|sent| - 1]) == 0
    else Ends(sent) == 0
  }

  function Uncounted(k: Worker): int { |k.todo| + |k.running| + |k.written| }

  function SizeOf(images: seq<Image>): int { |images| }

  ghost predicate Account(images: seq<seq<Image>>, s: State, w: nat)
    requires w < |images| == |s.workers|
  {
    Flow(images[w], s.workers[w], Sent(s, w)) && EndIsLast(s.workers[w], Sent(s, w))
  }

  ghost predicate Inv(images: seq<seq<Image>>, s: State) {
    && |s.workers| == |images|
    && (forall p <- s.pipe + s.taken :: p.sender < |images|)
    && (forall w: nat {:trigger Account(images, s, w)} :: w < |images| ==> Account(images, s, w))
    && s.progress + SumBy(Uncounted, s.workers) == SumBy(SizeOf, images)
    && s.endSignals == Ends(Items(s.taken))
    && s.results == [Header] + Lines(Items(s.taken))
  }

  // ----- The thread pools -----

  /** How many images of a worker its pool is busy with. */
  function Busy(k: Worker): nat { |k.running| + |k.written| }

  lemma BusyAfter(pool: nat, s: State, a: Action)
    requires Enabled(pool, s, a) && !a.Get?
    ensures var k, l := s.workers[a.w], WorkerAfter(s.workers[a.w], a);
            if a.Start? then Busy(k) < pool && Busy(l) == Busy(k) + 1 else Busy(l) <= Busy(k)
  {
    var k := s.workers[a.w];
    if a.Start? {
      OneMore(k.running, k.todo[0]);
    } else if a.PutRow? {
      OneLess(k.running, a.image);
      OneMore(k.written, a.image);
    } else if a.Count? {
      OneLess(k.written, a.image);
    }
  }

  lemma {:induction false} PoolStep(pool: nat, s: State, acts: seq<Action>, t: State)
    requires Leads(pool, s, acts, t) && forall k <- s.workers :: Busy(k) <= pool
    ensures forall k <- t.workers :: Busy(k) <= pool
    decreases |acts|
  {
    if acts != [] {
      if !acts[0].Get? {
        BusyAfter(pool, s, acts[0]);
      }
      hide Busy, WorkerAfter;
      PoolStep(pool, Apply(pool, s, acts[0]), acts[1..], t);
    }
  }

  /** At no point of any run does a worker process more images at once than its pool has threads. */
  lemma {:induction false} PoolNeverExceeded(pool: nat, images: seq<seq<Image>>, acts: seq<Action>, t: State)
    requires Leads(pool, Init(images), acts, t)
    ensures forall k <- t.workers :: |k.running| + |k.written| <= pool
  {
    PoolStep(pool, Init(images), acts, t);
  }

  lemma {:induction false} InitInv(images: seq<seq<Image>>)
    ensures Inv(images, Init(images))
  {
    var s := Init(images);
    forall w: nat | w < |images| ensures Account(images, s, w) {
      assert Sent(s, w) == [];
    }
    SameSizes(images, s.workers);
    assert [Header] + Lines(Items(s.taken)) == [Header];
  }

  lemma {:induction false} SameSizes(images: seq<seq<Image>>, ws: seq<Worker>)
    requires |ws| == |images|
    requires forall w :: 0 <= w < |ws| ==> Uncounted(ws[w]) == |images[w]|
    ensures SumBy(Uncounted, ws) == SumBy(SizeOf, images)
  {
    if ws != [] {
      SameSizes(images[1..], ws[1..]);
    }
  }

  lemma Snoc<T>(xs: seq<T>, x: T)
    ensures (xs + [x])[..|xs + [x]| - 1] == xs
  {
  }

  lemma EndsSnoc(items: seq<Item>, i: Item)
    ensures Ends(items + [i]) == Ends(items) + if i.EndMark? then 1 else 0
    ensures Rows(items + [i]) == Rows(items) + RowOf(i)
    ensures Lines(items + [i]) == Lines(items) + if i.Row? then [Entry(i.image, i.verdict)] else []
  {
    Snoc(items, i);
  }

  lemma FromSnoc(ps: seq<Packet>, p: Packet, w: nat)
    ensures From(ps + [p], w) == From(ps, w) + if p.sender == w then [p.item] else []
  {
    Snoc(ps, p);
  }

  lemma {:induction false} FromCons(p: Packet, ps: seq<Packet>, w: nat)
    ensures From([p] + ps, w) == (if p.sender == w then [p.item] else []) + From(ps, w)
  {
    if ps == [] {
      assert [p] + ps == [] + [p];
      FromSnoc([], p, w);
    } else {
      var n := |ps| - 1;
      assert [p] + ps == ([p] + ps[..n]) + [ps[n]];
      FromCons(p, ps[..n], w);
      FromSnoc([p] + ps[..n], ps[n], w);
    }
  }

  /** What an action puts on the queue of worker w. */
  function Puts(a: Action, w: nat): seq<Item> {
    match a
    case PutRow(v, image, verdict) => if v == w then [Row(image, verdict)] else []
    case PutEnd(v) => if v == w then [EndMark] else []
    case _ => []
  }

  lemma SentAfterGet(pool: nat, s: State, w: nat)
    requires Enabled(pool, s, Get) && w < |s.workers|
    ensures Sent(Apply(pool, s, Get), w) == Sent(s, w)
  {
    var p, rest := s.pipe[0], s.pipe[1..];
    var own := if p.sender == w then [p.item] else [];
    assert From(s.pipe, w) == own + From(rest, w) by {
      assert s.pipe == [p] + rest;
      FromCons(p, rest, w);
    }
    assert From(s.taken + [p], w) == From(s.taken, w) + own by {
      FromSnoc(s.taken, p, w);
    }
    Regroup(From(s.taken, w), own, From(rest, w), s.workers[w].outbox);
  }

  lemma Regroup<T>(a: seq<T>, b: seq<T>, c: seq<T>, d: seq<T>)
    ensures (a + b) + c + d == a + (b + c) + d
  {
  }

  lemma SentAfterFeed(pool: nat, s: State, v: nat, w: nat)
    requires Enabled(pool, s, Feed(v)) && w < |s.workers|
    ensures Sent(Apply(pool, s, Feed(v)), w) == Sent(s, w)
  {
    var box := s.workers[v].outbox;
    assert box == [box[0]] + box[1..];
    FromSnoc(s.pipe, Packet(v, box[0]), w);
  }

  lemma SentAfterPut(pool: nat, s: State, a: Action, w: nat)
    requires Enabled(pool, s, a) && w < |s.workers| && !a.Get? && !a.Feed?
    ensures Sent(Apply(pool, s, a), w) == Sent(s, w) + Puts(a, w)
  {
    OutboxAfter(pool, s, a, w);
    hide Apply, Enabled, Puts, From;
    var t := Apply(pool, s, a);
    assert From(s.taken, w) + From(s.pipe, w) + (s.workers[w].outbox + Puts(a, w)) == Sent(s, w) + Puts(a, w);
  }

  lemma OutboxAfter(pool: nat, s: State, a: Action, w: nat)
    requires Enabled(pool, s, a) && w < |s.workers| && !a.Get? && !a.Feed?
    ensures var t := Apply(pool, s, a);
            && t.pipe == s.pipe && t.taken == s.taken && |t.workers| == |s.workers|
            && t.workers[w].outbox == s.workers[w].outbox + Puts(a, w)
  {
    assert s.workers[w].outbox == s.workers[w].outbox + [];
  }

  /** Moving items along the queue changes nothing; a put appends to what its worker has sent. */
  lemma SentAfter(pool: nat, s: State, a: Action, w: nat)
    requires Enabled(pool, s, a) && w < |s.workers|
    ensures Sent(Apply(pool, s, a), w) == Sent(s, w) + Puts(a, w)
  {
    match a
    case Get => SentAfterGet(pool, s, w);
    case Feed(v) => SentAfterFeed(pool, s, v, w);
    case _ => SentAfterPut(pool, s, a, w);
  }

  lemma OwnPutRow(images: seq<Image>, k: Worker, a: Action, sent: seq<Item>)
    requires a.PutRow? && k.phase.Working? && a.image in k.running
    requires Flow(images, k, sent) && EndIsLast(k, sent)
    ensures var i := Row(a.image, a.verdict);
        Flow(images, WorkerAfter(k, a), sent + [i]) && EndIsLast(WorkerAfter(k, a), sent + [i])
  {
    EndsSnoc(sent, Row(a.image, a.verdict));
    assert k.running == (k.running - multiset{a.image}) + multiset{a.image};
  }

  lemma OwnPutEnd(images: seq<Image>, k: Worker, a: Action, sent: seq<Item>)
    requires a.PutEnd? && k.phase.Working? && k.todo == [] && k.running == multiset{} && k.written == multiset{}
    requires Flow(images, k, sent) && EndIsLast(k, sent)
    ensures Flow(images, WorkerAfter(k, a), sent + [EndMark]) && EndIsLast(WorkerAfter(k, a), sent + [EndMark])
  {
    EndsSnoc(sent, EndMark);
    Snoc(sent, EndMark);
  }

  lemma OwnQuiet(images: seq<Image>, k: Worker, a: Action, sent: seq<Item>)
    requires match a
             case Boot(_) => k.phase.Booting?
             case Crash(_) => k.phase.Booting?
             case Start(_) => k.phase.Working? && k.todo != []
             case Count(_, image) => k.phase.Working? && image in k.written
             case Feed(_) => k.outbox != []
             case _ => false
    requires Flow(images, k, sent) && EndIsLast(k, sent)
    ensures Flow(images, WorkerAfter(k, a), sent) && EndIsLast(WorkerAfter(k, a), sent)
  {
    if a.Start? {
      assert k.todo == [k.todo[0]] + k.todo[1..];
    }
  }

  lemma OwnStep(images: seq<Image>, pool: nat, s: State, a: Action, sent: seq<Item>)
    requires Enabled(pool, s, a) && !a.Get?
    requires Flow(images, s.workers[a.w], sent) && EndIsLast(s.workers[a.w], sent)
    ensures var k := WorkerAfter(s.workers[a.w], a);
        Flow(images, k, sent + Puts(a, a.w)) && EndIsLast(k, sent + Puts(a, a.w))
  {
    var k := s.workers[a.w];
    assert sent + [] == sent;
    if a.PutRow? {
      OwnPutRow(images, k, a, sent);
    } else if a.PutEnd? {
      OwnPutEnd(images, k, a, sent);
    } else {
      OwnQuiet(images, k, a, sent);
    }
  }

  lemma StepFlow(images: seq<seq<Image>>, pool: nat, s: State, a: Action, w: nat)
    requires |s.workers| == |images| && Enabled(pool, s, a) && w < |images|
    requires Account(images, s, w)
    ensures Account(images, Apply(pool, s, a), w)
  {
    hide Flow, EndIsLast, From, Rows, Ends;
    var t := Apply(pool, s, a);
    SentAfter(pool, s, a, w);
    if !a.Get? && a.w == w {
      OwnStep(images[w], pool, s, a, Sent(s, w));
      assert t.workers[w] == WorkerAfter(s.workers[w], a);
    } else {
      assert Puts(a, w) == [] && Sent(s, w) + [] == Sent(s, w);
      assert t.workers[w] == s.workers[w];
    }
  }

  /** The result file after one more item. */
  lemma FileSnoc(items: seq<Item>, i: Item)
    ensures [Header] + Lines(items + [i])
         == if i.Row? then [Header] + Lines(items) + [Entry(i.image, i.verdict)] else [Header] + Lines(items)
  {
    EndsSnoc(items, i);
  }

  lemma ItemsSnoc(ps: seq<Packet>, p: Packet)
    ensures Items(ps + [p]) == Items(ps) + [p.item]
    ensures Ends(Items(ps + [p])) == Ends(Items(ps)) + if p.item.EndMark? then 1 else 0
    ensures Rows(Items(ps + [p])) == Rows(Items(ps)) + RowOf(p.item)
  {
    assert Items(ps + [p]) == Items(ps) + [p.item];
    EndsSnoc(Items(ps), p.item);
  }

  lemma CollectorStep(s: State, pool: nat, a: Action)
    requires Enabled(pool, s, a)
    requires s.endSignals == Ends(Items(s.taken)) && s.results == [Header] + Lines(Items(s.taken))
    ensures var t := Apply(pool, s, a);
        t.endSignals == Ends(Items(t.taken)) && t.results == [Header] + Lines(Items(t.taken))
  {
    var t := Apply(pool, s, a);
    if a.Get? {
      var p := s.pipe[0];
      ItemsSnoc(s.taken, p);
      FileSnoc(Items(s.taken), p.item);
      assert t.taken == s.taken + [p];
    } else {
      assert t.taken == s.taken && t.results == s.results && t.endSignals == s.endSignals;
    }
  }

  lemma ProgressStep(pool: nat, s: State, a: Action)
    requires Enabled(pool, s, a)
    ensures var t := Apply(pool, s, a);
        t.progress + SumBy(Uncounted, t.workers) == s.progress + SumBy(Uncounted, s.workers)
  {
    if !a.Get? {
      SumByUpdate(Uncounted, s.workers, a.w, WorkerAfter(s.workers[a.w], a));
    }
  }

  lemma {:induction false} StepInv(images: seq<seq<Image>>, pool: nat, s: State, a: Action)
    requires Inv(images, s) && Enabled(pool, s, a)
    ensures Inv(images, Apply(pool, s, a))
  {
    var t := Apply(pool, s, a);
    forall w: nat | w < |images| ensures Account(images, t, w) {
      assert Account(images, s, w);
      StepFlow(images, pool, s, a, w);
    }
    CollectorStep(s, pool, a);
    ProgressStep(pool, s, a);
  }

  lemma {:induction false} RunInv(images: seq<seq<Image>>, pool: nat, s: State, acts: seq<Action>, t: State)
    requires Inv(images, s) && Leads(pool, s, acts, t)
    ensures Inv(images, t)
    decreases |acts|
  {
    if acts != [] {
      StepInv(images, pool, s, acts[0]);
      RunInv(images, pool, Apply(pool, s, acts[0]), acts[1..], t);
    }
  }

  // ----- Sums over the senders -----

  function EndsOf(ps: seq<Packet>): nat -> nat { (w: nat) => Ends(From(ps, w)) }

  function RowsOf(ps: seq<Packet>): nat -> multiset<Image> { (w: nat) => Rows(From(ps, w)) }

  lemma OwnSnoc(ps: seq<Packet>, p: Packet, w: nat)
    ensures Ends(From(ps + [p], w)) == Ends(From(ps, w)) + if p.sender == w && p.item.EndMark? then 1 else 0
    ensures Rows(From(ps + [p], w)) == Rows(From(ps, w)) + if p.sender == w then RowOf(p.item) else multiset{}
  {
    FromSnoc(ps, p, w);
    if p.sender == w {
      EndsSnoc(From(ps, w), p.item);
    } else {
      assert From(ps + [p], w) == From(ps, w);
    }
  }

  /** Splitting a stream by sender loses nothing. */
  lemma {:induction false} SplitBySender(ps: seq<Packet>, n: nat)
    requires forall p <- ps :: p.sender < n
    ensures Ends(Items(ps)) == Total(EndsOf(ps), n)
    ensures Rows(Items(ps)) == Union(RowsOf(ps), n)
  {
    if ps == [] {
      TotalZero(EndsOf(ps), n);
      UnionEmpty(RowsOf(ps), n);
    } else {
      var rest, p := ps[..|ps| - 1], ps[|ps| - 1];
      assert ps == rest + [p];
      SplitBySender(rest, n);
      ItemsSnoc(rest, p);
      SplitSnoc(rest, p, n);
    }
  }

  lemma SplitSnoc(ps: seq<Packet>, p: Packet, n: nat)
    requires p.sender < n
    ensures Total(EndsOf(ps + [p]), n) == Total(EndsOf(ps), n) + if p.item.EndMark? then 1 else 0
    ensures Union(RowsOf(ps + [p]), n) == Union(RowsOf(ps), n) + RowOf(p.item)
  {
    var marks := if p.item.EndMark? then 1 else 0;
    forall w: nat ensures EndsOf(ps + [p])(w) == EndsOf(ps)(w) + if w == p.sender then marks else 0 {
      OwnSnoc(ps, p, w);
    }
    TotalStep(EndsOf(ps), EndsOf(ps + [p]), p.sender, marks, n);
    forall w: nat
      ensures RowsOf(ps + [p])(w) == if w == p.sender then RowsOf(ps)(w) + RowOf(p.item) else RowsOf(ps)(w)
    {
      OwnSnoc(ps, p, w);
    }
    UnionStep(RowsOf(ps), RowsOf(ps + [p]), p.sender, RowOf(p.item), n);
  }

  lemma {:induction false} EndsAppend(a: seq<Item>, b: seq<Item>)
    ensures Ends(a + b) == Ends(a) + Ends(b)
  {
    if b == [] {
      assert a + b == a;
    } else {
      assert a + b == (a + b[..|b| - 1]) + [b[|b| - 1]];
      EndsAppend(a, b[..|b| - 1]);
      EndsSnoc(a + b[..|b| - 1], b[|b| - 1]);
    }
  }

  /** Of a worker's stream split in two, only the part that is not empty at the end can hold the end marker. */
  lemma EndInPrefix(k: Worker, a: seq<Item>, b: seq<Item>)
    requires EndIsLast(k, a + b)
    ensures Ends(a) <= 1
    ensures Ends(a) == 1 ==> k.phase.Ended? && b == []
    ensures k.phase.Ended? && b == [] ==> Ends(a) == 1
  {
    hide Ends, Rows, Lines;
    var sent, n := a + b, |a + b| - 1;
    if !k.phase.Ended? {
      EndsAppend(a, b);
    } else if b != [] {
      assert sent[..n] == a + b[..|b| - 1];
      EndsAppend(a, b[..|b| - 1]);
    } else {
      assert sent == a;
      assert a == a[..n] + [a[n]];
      EndsSnoc(a[..n], a[n]);
    }
  }

  lemma AtMostOneEnd(images: seq<seq<Image>>, s: State, w: nat)
    requires Inv(images, s) && w < |images|
    ensures Ends(From(s.taken, w)) <= 1
  {
    assert Account(images, s, w);
    SentSplit(s, w);
    EndInPrefix(s.workers[w], From(s.taken, w), From(s.pipe, w) + s.workers[w].outbox);
  }

  lemma SentSplit(s: State, w: nat)
    requires w < |s.workers|
    ensures Sent(s, w) == From(s.taken, w) + (From(s.pipe, w) + s.workers[w].outbox)
  {
  }

  /** Once its end marker is received, nothing of a worker is left on the way. */
  lemma ReceivedAll(images: seq<seq<Image>>, s: State, w: nat)
    requires Inv(images, s) && w < |images| && Ends(From(s.taken, w)) == 1
    ensures s.workers[w].phase.Ended? && From(s.pipe, w) == [] && s.workers[w].outbox == []
    ensures Rows(From(s.taken, w)) == multiset(images[w])
    ensures Uncounted(s.workers[w]) == 0
  {
    assert Account(images, s, w);
    SentSplit(s, w);
    Received(images[w], s.workers[w], From(s.taken, w), From(s.pipe, w) + s.workers[w].outbox);
  }

  lemma Received(images: seq<Image>, k: Worker, a: seq<Item>, b: seq<Item>)
    requires Flow(images, k, a + b) && EndIsLast(k, a + b) && Ends(a) == 1
    ensures k.phase.Ended? && b == [] && Rows(a) == multiset(images) && Uncounted(k) == 0
  {
    EndInPrefix(k, a, b);
    assert a + b == a;
  }

  lemma {:induction false} RowsOfAll(images: seq<seq<Image>>, s: State, n: nat)
    requires Inv(images, s) && n <= |images|
    requires forall w: nat {:trigger From(s.taken, w)} :: w < |images| ==> Ends(From(s.taken, w)) == 1
    ensures Union(RowsOf(s.taken), n) == AllImages(images[..n])
  {
    if n > 0 {
      RowsOfAll(images, s, n - 1);
      assert Ends(From(s.taken, n - 1)) == 1;
      ReceivedAll(images, s, n - 1);
      AllImagesStep(images, n);
    }
  }

  lemma AllImagesStep(images: seq<seq<Image>>, n: nat)
    requires 0 < n <= |images|
    ensures AllImages(images[..n]) == AllImages(images[..n - 1]) + multiset(images[n - 1])
  {
    assert images[..n][..n - 1] == images[..n - 1];
  }

  lemma PipeEmpty(ps: seq<Packet>, n: nat)
    requires forall p <- ps :: p.sender < n
    requires forall w: nat {:trigger From(ps, w)} :: w < n ==> From(ps, w) == []
    ensures ps == []
  {
    if ps != [] {
      var p := ps[|ps| - 1];
      assert p in ps;
      assert ps[..|ps| - 1] + [p] == ps;
      FromSnoc(ps[..|ps| - 1], p, p.sender);
    }
  }

  lemma {:induction false} LinesImages(items: seq<Item>)
    ensures LineImages([Header] + Lines(items)) == Rows(items)
  {
    if items == [] {
      assert [Header] + Lines(items) == [Header];
      assert [Header][..0] == [];
    } else {
      var rest, last := items[..|items| - 1], items[|items| - 1];
      LinesImages(rest);
      if last.Row? {
        var e := Entry(last.image, last.verdict);
        assert [Header] + Lines(items) == ([Header] + Lines(rest)) + [e];
        Snoc([Header] + Lines(rest), e);
      } else {
        assert Lines(items) == Lines(rest);
      }
    }
  }

  /**
   When the collector leaves its loop: the rows after the header name every submitted image
   exactly as often as it was submitted, the progress counter is the number of images, every
   worker has ended, and nothing is left on any queue.
   */
  lemma {:induction false} FanInComplete(images: seq<seq<Image>>, pool: nat, acts: seq<Action>, t: State)
    requires Leads(pool, Init(images), acts, t) && Done(t)
    ensures t.results != [] && t.results[0] == Header && LineImages(t.results) == AllImages(images)
    ensures t.progress == SumBy(SizeOf, images)
    ensures t.pipe == [] && forall k <- t.workers :: k.phase.Ended? && k.outbox == []
    ensures t.endSignals == |images|
  {
    InitInv(images);
    RunInv(images, pool, Init(images), acts, t);
    DoneMeansComplete(images, t);
  }

  /** The items a run's actions put for worker w, in order. */
  function PutBy(acts: seq<Action>, w: nat): seq<Item> {
    if acts == [] then []
    else
      (match acts[0]
       case PutRow(v, image, verdict) => if v == w then [Row(image, verdict)] else []
       case PutEnd(v) => if v == w then [EndMark] else []
       case _ => [])
      + PutBy(acts[1..], w)
  }

  lemma {:induction false} SentByRun(pool: nat, s: State, acts: seq<Action>, t: State, w: nat)
    requires Leads(pool, s, acts, t) && w < |s.workers|
    ensures w < |t.workers| && Sent(t, w) == Sent(s, w) + PutBy(acts, w)
    decreases |acts|
  {
    if acts == [] {
      assert Sent(s, w) + [] == Sent(s, w);
    } else {
      var u := Apply(pool, s, acts[0]);
      assert Leads(pool, u, acts[1..], t);
      WorkersStay(pool, s, acts[0]);
      hide Sent, Puts, PutBy, Apply, Enabled, Leads;
      PutFirst(acts, w);
      SentAfter(pool, s, acts[0], w);
      SentByRun(pool, u, acts[1..], t, w);
      assert Sent(s, w) + Puts(acts[0], w) + PutBy(acts[1..], w)
          == Sent(s, w) + (Puts(acts[0], w) + PutBy(acts[1..], w)) by {
        Associate(Sent(s, w), Puts(acts[0], w), PutBy(acts[1..], w));
      }
    }
  }

  lemma Associate(a: seq<Item>, b: seq<Item>, c: seq<Item>)
    ensures a + b + c == a + (b + c)
  {
  }

  lemma PutFirst(acts: seq<Action>, w: nat)
    requires acts != []
    ensures PutBy(acts, w) == Puts(acts[0], w) + PutBy(acts[1..], w)
  {
  }

  lemma WorkersStay(pool: nat, s: State, a: Action)
    requires Enabled(pool, s, a)
    ensures |Apply(pool, s, a).workers| == |s.workers|
  {
  }

  /**
   When the collector leaves its loop it has had from every worker exactly what the worker put, in
   that order, image and verdict; and it has written a line for every row, in the order they came.
   */
  lemma {:induction false} VerdictsArrive(images: seq<seq<Image>>, pool: nat, acts: seq<Action>, t: State, w: nat)
    requires Leads(pool, Init(images), acts, t) && Done(t) && w < |images|
    ensures From(t.taken, w) == PutBy(acts, w)
    ensures t.results == [Header] + Lines(Items(t.taken))
  {
    InitInv(images);
    RunInv(images, pool, Init(images), acts, t);
    DoneMeansComplete(images, t);
    SentByRun(pool, Init(images), acts, t, w);
    assert t.workers[w] in t.workers;
    assert Sent(Init(images), w) == [] && From(t.pipe, w) == [];
    assert [] + PutBy(acts, w) == PutBy(acts, w);
  }

  lemma {:induction false} DoneMeansComplete(images: seq<seq<Image>>, t: State)
    requires Inv(images, t) && Done(t)
    ensures LineImages(t.results) == AllImages(images)
    ensures t.progress == SumBy(SizeOf, images)
    ensures t.pipe == [] && forall k <- t.workers :: k.phase.Ended? && k.outbox == []
    ensures t.endSignals == |images|
  {
    var n := |images|;
    assert forall p <- t.taken :: p in t.pipe + t.taken;
    assert forall p <- t.pipe :: p in t.pipe + t.taken;
    SplitBySender(t.taken, n);
    forall w: nat | w < n ensures EndsOf(t.taken)(w) <= 1 {
      AtMostOneEnd(images, t, w);
    }
    TotalOnes(EndsOf(t.taken), n);
    forall w: nat | w < n ensures Ends(From(t.taken, w)) == 1 {
      assert EndsOf(t.taken)(w) == 1;
    }
    forall w: nat | w < n
      ensures From(t.pipe, w) == [] && t.workers[w].phase.Ended? && t.workers[w].outbox == [] &&
          Uncounted(t.workers[w]) == 0
    {
      ReceivedAll(images, t, w);
    }
    PipeEmpty(t.pipe, n);
    RowsOfAll(images, t, n);
    assert images[..n] == images;
    LinesImages(Items(t.taken));
    SumByZero(Uncounted, t.workers);
  }

  /** No end marker overtakes a row of its worker. */
  lemma EndMarkNeverOvertakes(images: seq<seq<Image>>, pool: nat, acts: seq<Action>, t: State, i: nat, j: nat)
    requires Leads(pool, Init(images), acts, t)
    requires i < j < |t.taken + t.pipe| && (t.taken + t.pipe)[i].sender == (t.taken + t.pipe)[j].sender
    ensures (t.taken + t.pipe)[i].item.Row?
  {
    InitInv(images);
    RunInv(images, pool, Init(images), acts, t);
    var ps := t.taken + t.pipe;
    var w := ps[j].sender;
    assert ps[j] in t.pipe + t.taken;
    assert Account(images, t, w);
    FromAppend(t.taken, t.pipe, w);
    OvertakesNothing(t.workers[w], ps, t.workers[w].outbox, i, j);
  }

  lemma OvertakesNothing(k: Worker, ps: seq<Packet>, outbox: seq<Item>, i: nat, j: nat)
    requires i < j < |ps| && ps[i].sender == ps[j].sender
    requires EndIsLast(k, From(ps, ps[j].sender) + outbox)
    ensures ps[i].item.Row?
  {
    var w := ps[j].sender;
    hide From, EndIsLast, Ends, Rows;
    SentLater(ps, i, j);
    NotEnded(k, From(ps[..i + 1], w), From(ps[i + 1..], w), outbox);
    HasEnd(ps[..i + 1], w);
  }

  lemma SentLater(ps: seq<Packet>, i: nat, j: nat)
    requires i < j < |ps|
    ensures var w := ps[j].sender;
            From(ps, w) == From(ps[..i + 1], w) + From(ps[i + 1..], w) && From(ps[i + 1..], w) != []
  {
    hide From;
    assert ps == ps[..i + 1] + ps[i + 1..];
    FromAppend(ps[..i + 1], ps[i + 1..], ps[j].sender);
    FromHas(ps[i + 1..], j - i - 1);
  }

  lemma HasEnd(ps: seq<Packet>, w: nat)
    requires ps != [] && ps[|ps| - 1].sender == w && Ends(From(ps, w)) == 0
    ensures ps[|ps| - 1].item.Row?
  {
    hide From, Ends, Rows;
    var before, last := ps[..|ps| - 1], ps[|ps| - 1];
    OwnSnoc(before, last, w);
    assert ps == before + [last];
  }

  lemma NotEnded(k: Worker, a: seq<Item>, b: seq<Item>, outbox: seq<Item>)
    requires EndIsLast(k, a + b + outbox) && b != []
    ensures Ends(a) == 0
  {
    assert a + b + outbox == a + (b + outbox);
    EndInPrefix(k, a, b + outbox);
  }

  lemma {:induction false} FromAppend(a: seq<Packet>, b: seq<Packet>, w: nat)
    ensures From(a + b, w) == From(a, w) + From(b, w)
  {
    if b == [] {
      assert a + b == a;
    } else {
      assert a + b == (a + b[..|b| - 1]) + [b[|b| - 1]];
      FromAppend(a, b[..|b| - 1], w);
      FromSnoc(a + b[..|b| - 1], b[|b| - 1], w);
    }
  }

  lemma {:induction false} FromHas(ps: seq<Packet>, i: nat)
    requires i < |ps|
    ensures From(ps, ps[i].sender) != []
  {
    if i < |ps| - 1 {
      FromHas(ps[..|ps| - 1], i);
    }
  }

  // ----- Termination -----

  function PhaseWeight(p: Phase): nat {
    match p case Booting => 4 case Working => 3 case Ended => 0 case Dead => 0
  }

  function WorkerWeight(k: Worker): int {
    PhaseWeight(k.phase) + (if k.phase.Dead? then 0 else 5 * |k.todo|) + 4 * |k.running| + |k.written| + 2 * |k.outbox|
  }

  function Weight(s: State): int {
    SumBy(WorkerWeight, s.workers) + |s.pipe|
  }

  lemma {:induction false} StepFalls(pool: nat, s: State, a: Action)
    requires Enabled(pool, s, a)
    ensures Weight(Apply(pool, s, a)) <= Weight(s) - 1
    ensures !a.Crash? ==> Weight(Apply(pool, s, a)) == Weight(s) - 1
  {
    if !a.Get? {
      SumByUpdate(WorkerWeight, s.workers, a.w, WorkerAfter(s.workers[a.w], a));
      OwnWeight(pool, s, a);
    }
  }

  lemma OwnWeight(pool: nat, s: State, a: Action)
    requires Enabled(pool, s, a) && !a.Get?
    ensures var change := WorkerWeight(WorkerAfter(s.workers[a.w], a)) - WorkerWeight(s.workers[a.w]);
            if a.Feed? then change == -2 else if a.Crash? then change <= -1 else change == -1
  {
    var k := s.workers[a.w];
    if a.PutRow? {
      PutWeight(k, a);
    } else if a.Count? {
      CountWeight(k, a);
    } else if a.Start? {
      StartWeight(k, a);
    } else {
      assert WorkerAfter(k, a).running == k.running && WorkerAfter(k, a).written == k.written;
    }
  }

  lemma PutWeight(k: Worker, a: Action)
    requires a.PutRow? && k.phase.Working? && a.image in k.running
    ensures WorkerWeight(WorkerAfter(k, a)) == WorkerWeight(k) - 1
  {
    OneLess(k.running, a.image);
    OneMore(k.written, a.image);
  }

  lemma CountWeight(k: Worker, a: Action)
    requires a.Count? && k.phase.Working? && a.image in k.written
    ensures WorkerWeight(WorkerAfter(k, a)) == WorkerWeight(k) - 1
  {
    OneLess(k.written, a.image);
  }

  lemma StartWeight(k: Worker, a: Action)
    requires a.Start? && k.phase.Working? && k.todo != []
    ensures WorkerWeight(WorkerAfter(k, a)) == WorkerWeight(k) - 1
  {
    OneMore(k.running, k.todo[0]);
  }

  lemma OneLess(m: multiset<Image>, image: Image)
    requires image in m
    ensures |m - multiset{image}| == |m| - 1
  {
  }

  lemma OneMore(m: multiset<Image>, image: Image)
    ensures |m + multiset{image}| == |m| + 1
  {
  }

  lemma WeightNatural(s: State)
    ensures Weight(s) >= 0
  {
    forall k | k in s.workers ensures WorkerWeight(k) >= 0 { }
    SumByZero(WorkerWeight, s.workers);
  }

  lemma {:induction false} RunFalls(pool: nat, s: State, acts: seq<Action>, t: State)
    requires Leads(pool, s, acts, t)
    ensures |acts| + Weight(t) <= Weight(s)
    ensures (forall a <- acts :: !a.Crash?) ==> |acts| + Weight(t) == Weight(s)
    decreases |acts|
  {
    if acts != [] {
      StepFalls(pool, s, acts[0]);
      RunFalls(pool, Apply(pool, s, acts[0]), acts[1..], t);
      assert forall a <- acts[1..] :: a in acts;
    }
  }

  lemma {:induction false} InitialWeight(images: seq<seq<Image>>, ws: seq<Worker>)
    requires |ws| == |images|
    requires forall w :: 0 <= w < |ws| ==> ws[w] == Worker(Booting, images[w], multiset{}, multiset{}, [])
    ensures SumBy(WorkerWeight, ws) == 5 * SumBy(SizeOf, images) + 4 * |images|
  {
    if ws != [] {
      InitialWeight(images[1..], ws[1..]);
    }
  }

  ghost predicate Stuck(pool: nat, s: State) {
    forall a: Action :: !Enabled(pool, s, a)
  }

  /** An action that a state with no dead worker still offers, as long as the collector waits. */
  lemma SomeStep(images: seq<seq<Image>>, pool: nat, s: State) returns (a: Action)
    requires pool > 0 && Inv(images, s) && !Done(s)
    requires forall k <- s.workers :: !k.phase.Dead?
    ensures Enabled(pool, s, a)
  {
    if s.pipe != [] {
      return Get;
    }
    if w: nat :| w < |s.workers| && s.workers[w].outbox != [] {
      return Feed(w);
    }
    if w: nat :| w < |s.workers| && !s.workers[w].phase.Ended? {
      var k := s.workers[w];
      assert k in s.workers;
      if k.phase.Booting? {
        return Boot(w);
      } else if k.written != multiset{} {
        var image :| image in k.written;
        return Count(w, image);
      } else if k.running != multiset{} {
        var image :| image in k.running;
        return PutRow(w, image, Unprocessed);
      } else if k.todo != [] {
        return Start(w);
      } else {
        return PutEnd(w);
      }
    }
    forall k | k in s.workers ensures k.phase.Ended? && k.outbox == [] {
      var w: nat :| w < |s.workers| && s.workers[w] == k;
    }
    forall w: nat | w < |images| ensures EndsOf(s.taken)(w) == 1 {
      assert s.workers[w] in s.workers;
      EndedOnce(images, s, w);
    }
    TotalOnes(EndsOf(s.taken), |images|);
    assert s.pipe + s.taken == s.taken;
    SplitBySender(s.taken, |images|);
    assert false;
  }

  lemma EndedOnce(images: seq<seq<Image>>, s: State, w: nat)
    requires |s.workers| == |images| && w < |images| && Account(images, s, w)
    requires s.workers[w].phase.Ended? && s.workers[w].outbox == [] && s.pipe == []
    ensures Ends(From(s.taken, w)) == 1
  {
    SentSplit(s, w);
    EndInPrefix(s.workers[w], From(s.taken, w), From(s.pipe, w) + s.workers[w].outbox);
  }

  /** A worker that died before its pool ran keeps the collector waiting for ever. */
  lemma DeadKeepsWaiting(images: seq<seq<Image>>, s: State, w: nat)
    requires Inv(images, s) && w < |images| && s.workers[w].phase.Dead?
    ensures !Done(s)
  {
    assert s.workers[w] in s.workers;
    if Done(s) {
      DoneMeansComplete(images, s);
    }
  }

  /**
   Every run ends: it has at most 5 steps per image and 4 per worker. Where it can go no
   further, the collector has left its loop exactly when no worker died loading its models;
   and a run without a death that goes no further took exactly that many steps.
   */
  lemma {:induction false} FanInEnds(images: seq<seq<Image>>, pool: nat, acts: seq<Action>, t: State)
    requires pool > 0 && Leads(pool, Init(images), acts, t)
    ensures |acts| <= 5 * SumBy(SizeOf, images) + 4 * |images|
    ensures Stuck(pool, t) ==> (Done(t) <==> forall k <- t.workers :: !k.phase.Dead?)
    ensures Done(t) ==> Stuck(pool, t)
    ensures Done(t) ==> |acts| == 5 * SumBy(SizeOf, images) + 4 * |images|
  {
    InitInv(images);
    RunInv(images, pool, Init(images), acts, t);
    RunFalls(pool, Init(images), acts, t);
    InitialWeight(images, Init(images).workers);
    WeightNatural(t);
    if (forall k <- t.workers :: !k.phase.Dead?) && !Done(t) {
      var a := SomeStep(images, pool, t);
    }
    if Done(t) {
      DoneIsFinal(images, pool, t);
      NoCrash(pool, Init(images), acts, t);
    }
    forall w: nat | w < |t.workers| && t.workers[w].phase.Dead? ensures !Done(t) {
      DeadKeepsWaiting(images, t, w);
    }
  }

  lemma DoneIsFinal(images: seq<seq<Image>>, pool: nat, t: State)
    requires Inv(images, t) && Done(t)
    ensures Stuck(pool, t) && Weight(t) == 0
    ensures forall k <- t.workers :: !k.phase.Dead?
  {
    DoneMeansComplete(images, t);
    forall w: nat | w < |t.workers|
      ensures WorkerWeight(t.workers[w]) == 0 && t.workers[w].outbox == [] && t.workers[w].phase.Ended?
    {
      assert t.workers[w] in t.workers;
      assert Account(images, t, w);
    }
    SumByZero(WorkerWeight, t.workers);
    hide Inv, Account;
    forall a: Action ensures !Enabled(pool, t, a) { }
  }

  lemma {:induction false} NoCrash(pool: nat, s: State, acts: seq<Action>, t: State)
    requires Leads(pool, s, acts, t)
    requires forall k <- t.workers :: !k.phase.Dead?
    ensures forall a <- acts :: !a.Crash?
    ensures forall k <- s.workers :: !k.phase.Dead?
    decreases |acts|
  {
    if acts != [] {
      var s' := Apply(pool, s, acts[0]);
      if acts[0].Crash? {
        assert s'.workers[acts[0].w] in s'.workers;
      }
      NoCrash(pool, s', acts[1..], t);
      forall w | 0 <= w < |s.workers| ensures !s.workers[w].phase.Dead? {
        assert s'.workers[w] in s'.workers;
      }
    }
  }

  // ----- The collector's loop -----

  /** One item more taken. */
  lemma TakeOne(delivered: seq<Item>, used: nat)
    requires used < |delivered|
    ensures var before, after, item := delivered[..used], delivered[..used + 1], delivered[used];
            && Ends(after) == Ends(before) + (if item.EndMark? then 1 else 0)
            && [Header] + Lines(after)
               == if item.Row? then [Header] + Lines(before) + [Entry(item.image, item.verdict)]
                  else [Header] + Lines(before)
  {
    assert delivered[..used + 1] == delivered[..used] + [delivered[used]];
    EndsSnoc(delivered[..used], delivered[used]);
    FileSnoc(delivered[..used], delivered[used]);
  }

  /**
   The collector against the stream of items the queue hands it. It blocks on a stream with
   too few end markers; FanInComplete and FanInEnds say when that cannot happen.
   */
  method CollectResults(processes: nat, delivered: seq<Item>) returns (results: seq<Line>, used: nat)
    requires Ends(delivered) >= processes
    ensures used <= |delivered| && Ends(delivered[..used]) == processes
    ensures used > 0 ==> delivered[used - 1].EndMark?
    ensures results == [Header] + Lines(delivered[..used])
    ensures LineImages(results) == Rows(delivered[..used])
  {
    var endSignals := 0;
    results := [Header];
    used := 0;
    while endSignals < processes
      invariant used <= |delivered| && endSignals == Ends(delivered[..used]) <= processes
      invariant used > 0 && endSignals == processes ==> delivered[used - 1].EndMark?
      invariant results == [Header] + Lines(delivered[..used])
      decreases |delivered| - used
    {
      assert delivered[..|delivered|] == delivered;
      var item := delivered[used];
      TakeOne(delivered, used);
      used := used + 1;
      if item.EndMark? {
        endSignals := endSignals + 1;
      } else {
        results := results + [Entry(item.image, item.verdict)];
      }
    }
    LinesImages(delivered[..used]);
  }
}
