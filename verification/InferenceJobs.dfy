/**
 From job instruction to inference job. A dispatched instruction opens the stacker's
 directory and updates the description the inference subscriber keeps, unless no preset is
 found for it; a line message with both detectors off while online queues a job from that
 description; a worker takes jobs from the queue.
 */
module InferenceJobs {
  import opened Wrappers
  import opened Text
  import opened LineSignal
  import opened Stacker
  import LinePass
  import Packets
  import Normalizer
  import LabelName

  /** The description kept for the next job. */
  datatype Lv2Info = Lv2Info(date: string, height: int, width: int, mtNo: string, lotNo: string,
                             mtTypeCd: string, raw: string, norm: string)

  /** A queued job, and the directory it reads and writes, relative to both roots. */
  datatype InferenceJob = InferenceJob(dir: Path, info: Lv2Info)

  /** view: what latch and gate remember. */
  datatype State = State(view: View, info: Option<Lv2Info>, queue: seq<InferenceJob>,
                         taken: seq<InferenceJob>, enqueued: seq<InferenceJob>)

  /** preset: the monitor found a preset file. refused: directories the system will not create. */
  datatype Event =
    | Instruction(d: Packets.Dispatch, preset: bool, refused: set<Path>)
    | LineMessage(signal: Signal)
    | Frame(id: int, camera: string, data: seq<nat>)
    | Take

  const EMPTY := State(START, None, [], [], [])

  function InfoOf(d: Packets.Dispatch): Lv2Info {
    Lv2Info(d.date, Tenth(d.height), Tenth(d.width), d.mtNo, d.lotNo, d.mtTypeCd, d.mtStandRaw, d.mtStandNorm)
  }

  function MessageOf(d: Packets.Dispatch): Message { Job(d.date, d.mtStandNorm, d.width, d.height) }

  function JobOf(info: Lv2Info): InferenceJob {
    InferenceJob([LabelName.Take8(info.date), info.date + "_" + info.norm], info)
  }

  /** What a line message adds to the queue. */
  function Queued(info: Option<Lv2Info>, signal: Signal): seq<InferenceJob> {
    if Starts(signal) && info.Some? then [JobOf(info.value)] else []
  }

  // ----- The subscriber object -----

  class SDDModelInference {
    var jobLv2Info: Option<Lv2Info>
    var jobQueue: seq<InferenceJob>

    constructor ()
      ensures jobLv2Info == None && jobQueue == []
    {
      jobLv2Info, jobQueue := None, [];
    }

    /** The description is overwritten field by field; jobs queued before hold copies of their own. */
    method AddJobLv2Info(date: string, height: int, width: int, mtNo: string, lotNo: string,
                         mtTypeCd: string, raw: string, norm: string)
      modifies this`jobLv2Info
      ensures jobLv2Info == Some(Lv2Info(date, height, width, mtNo, lotNo, mtTypeCd, raw, norm))
    {
      jobLv2Info := Some(Lv2Info(date, height, width, mtNo, lotNo, mtTypeCd, raw, norm));
    }

    method OnLineSignal(signal: Signal)
      modifies this`jobQueue
      ensures jobQueue == old(jobQueue) + Queued(jobLv2Info, signal)
    {
      if !signal.hmd1 && !signal.hmd2 && signal.online {
        if jobLv2Info.Some? {
          var info := jobLv2Info.value;
          var targetDir := [LabelName.Take8(info.date), info.date + "_" + info.norm];
          jobQueue := jobQueue + [InferenceJob(targetDir, info)];
        }
      }
    }

    method TakeJob() returns (job: Option<InferenceJob>)
      modifies this`jobQueue
      ensures old(jobQueue) == (if job.Some? then [job.value] else []) + jobQueue
      ensures job.None? ==> jobQueue == []
    {
      if jobQueue == [] {
        job := None;
      } else {
        job := Some(jobQueue[0]);
        jobQueue := jobQueue[1..];
      }
    }
  }

  // ----- Runs -----

  /** The instruction passes the gate. */
  predicate Passes(s: State, e: Event) { e.Instruction? && !s.view.ignore }

  predicate Describes(s: State, e: Event) { Passes(s, e) && e.preset }

  predicate Queues(s: State, e: Event) { e.LineMessage? && Starts(e.signal) && s.info.Some? }

  function Step(s: State, e: Event): State {
    match e
    case Instruction(d, _, _) => if Describes(s, e) then s.(info := Some(InfoOf(d))) else s
    case LineMessage(signal) =>
      var queued := Queued(s.info, signal);
      s.(view := React(s.view, signal), queue := s.queue + queued, enqueued := s.enqueued + queued)
    case Frame(_, _, _) => s
    case Take =>
      if s.queue == [] then s else s.(queue := s.queue[1..], taken := s.taken + [s.queue[0]])
  }

  function After(s: State, events: seq<Event>): State {
    if events == [] then s else Step(After(s, events[..|events| - 1]), events[|events| - 1])
  }

  lemma StepQueues(s: State, e: Event)
    requires s.enqueued == s.taken + s.queue
    ensures var t := Step(s, e);
            t.enqueued == t.taken + t.queue && s.enqueued <= t.enqueued && s.taken <= t.taken
  {
  }

  lemma {:induction false} RunQueues(s: State, events: seq<Event>)
    requires s.enqueued == s.taken + s.queue
    ensures var t := After(s, events);
            t.enqueued == t.taken + t.queue && s.enqueued <= t.enqueued && s.taken <= t.taken
  {
    if events != [] {
      RunQueues(s, events[..|events| - 1]);
      StepQueues(After(s, events[..|events| - 1]), events[|events| - 1]);
    }
  }

  /**
   Jobs are taken in the order they were queued, and a queued job stays what it was under
   everything that happens later.
   */
  lemma {:induction false} JobsStayFixed(past: seq<Event>, future: seq<Event>)
    ensures var s, t := After(EMPTY, past), After(EMPTY, past + future);
            && s.taken <= t.taken <= t.enqueued && s.enqueued <= t.enqueued
            && t.enqueued == t.taken + t.queue
  {
    RunQueues(EMPTY, past);
    RunQueues(After(EMPTY, past), future);
    AfterAppend(EMPTY, past, future);
  }

  lemma {:induction false} AfterAppend(s: State, a: seq<Event>, b: seq<Event>)
    ensures After(s, a + b) == After(After(s, a), b)
  {
    if b == [] {
      assert a + b == a;
    } else {
      assert (a + b)[..|a + b| - 1] == a + b[..|b| - 1];
      AfterAppend(s, a, b[..|b| - 1]);
    }
  }

  // ----- Which instruction a job comes from -----

  /** Event k of a run from the start has the property. */
  predicate At(p: (State, Event) -> bool, events: seq<Event>, k: nat) {
    k < |events| && p(After(EMPTY, events[..k]), events[k])
  }

  /** The place of the last event with a property. */
  function LastWhere(p: (State, Event) -> bool, events: seq<Event>): Option<nat> {
    if events == [] then None
    else if At(p, events, |events| - 1) then Some(|events| - 1)
    else LastWhere(p, events[..|events| - 1])
  }

  function LastDispatch(events: seq<Event>): Option<nat> { LastWhere(Passes, events) }

  function Describer(events: seq<Event>): Option<nat> { LastWhere(Describes, events) }

  lemma AtPrefix(p: (State, Event) -> bool, events: seq<Event>, n: nat, k: nat)
    requires k < n <= |events|
    ensures At(p, events[..n], k) <==> At(p, events, k)
  {
    assert events[..n][..k] == events[..k];
  }

  lemma {:induction false} LastWhereFact(p: (State, Event) -> bool, events: seq<Event>)
    ensures var r := LastWhere(p, events);
            && (r.Some? ==> At(p, events, r.value))
            && forall k: nat {:trigger At(p, events, k)} :: At(p, events, k) ==> r.Some? && k <= r.value
  {
    if events != [] {
      var n := |events| - 1;
      LastWhereFact(p, events[..n]);
      forall k: nat | k < n ensures At(p, events[..n], k) <==> At(p, events, k) {
        AtPrefix(p, events, n, k);
      }
    }
  }

  /** The description is that of the last dispatched instruction with a preset. */
  lemma {:induction false} InfoFollows(events: seq<Event>)
    ensures var r := Describer(events);
            && (r.Some? ==> r.value < |events| && events[r.value].Instruction?)
            && After(EMPTY, events).info == if r.Some? then Some(InfoOf(events[r.value].d)) else None
  {
    if events != [] {
      InfoFollows(events[..|events| - 1]);
    }
  }

  /** The places of the messages that queued a job, in order. */
  function QueuedAt(events: seq<Event>): seq<nat> {
    if events == [] then []
    else
      var n := |events| - 1;
      QueuedAt(events[..n]) + if At(Queues, events, n) then [n] else []
  }

  lemma {:induction false} QueuedAtFact(events: seq<Event>)
    ensures |QueuedAt(events)| == |After(EMPTY, events).enqueued|
    ensures forall i, j :: 0 <= i < j < |QueuedAt(events)| ==> QueuedAt(events)[i] < QueuedAt(events)[j]
    ensures forall p: nat {:trigger p in QueuedAt(events)} :: p in QueuedAt(events) <==> At(Queues, events, p)
  {
    if events != [] {
      var n := |events| - 1;
      QueuedAtFact(events[..n]);
      forall k: nat | k < n ensures At(Queues, events[..n], k) <==> At(Queues, events, k) {
        AtPrefix(Queues, events, n, k);
      }
      forall i | 0 <= i < |QueuedAt(events[..n])| ensures QueuedAt(events[..n])[i] < n {
        assert QueuedAt(events[..n])[i] in QueuedAt(events[..n]);
      }
    }
  }

  /** Job j was queued by a start message, from the last dispatched instruction with a preset before it. */
  lemma {:induction false} JobOrigin(events: seq<Event>, j: nat)
    requires j < |QueuedAt(events)| == |After(EMPTY, events).enqueued|
    ensures var p := QueuedAt(events)[j];
            && p < |events| && events[p].LineMessage? && Starts(events[p].signal)
            && var r := Describer(events[..p]);
               r.Some? && r.value < p && events[r.value].Instruction?
               && After(EMPTY, events).enqueued[j] == JobOf(InfoOf(events[r.value].d))
  {
    var n := |events| - 1;
    QueuedAtFact(events[..n]);
    var p := QueuedAt(events)[j];
    if j < |QueuedAt(events[..n])| {
      JobOrigin(events[..n], j);
      assert events[..n][..p] == events[..p];
    } else {
      assert p == n;
      InfoFollows(events[..n]);
    }
  }

  /** How many start messages there are. */
  function StartMessages(events: seq<Event>): nat {
    if events == [] then 0
    else
      var e := events[|events| - 1];
      StartMessages(events[..|events| - 1]) + if e.LineMessage? && Starts(e.signal) then 1 else 0
  }

  lemma {:induction false} CountedFrom(s: State, events: seq<Event>)
    requires s.info.Some?
    ensures After(s, events).info.Some? && |After(s, events).enqueued| == |s.enqueued| + StartMessages(events)
  {
    if events != [] {
      CountedFrom(s, events[..|events| - 1]);
    }
  }

  lemma {:induction false} NothingBefore(events: seq<Event>)
    requires After(EMPTY, events).info.None?
    ensures After(EMPTY, events).enqueued == []
  {
    if events != [] {
      NothingBefore(events[..|events| - 1]);
    }
  }

  /** No job is queued before the first description, and from then on one job for every start message. */
  lemma {:induction false} JobsCounted(past: seq<Event>, first: Event, future: seq<Event>)
    requires After(EMPTY, past).info.None? && Describes(After(EMPTY, past), first)
    ensures After(EMPTY, past).enqueued == []
    ensures |After(EMPTY, past + [first] + future).enqueued| == StartMessages(future)
  {
    NothingBefore(past);
    AfterAppend(EMPTY, past, [first]);
    var s := After(EMPTY, past + [first]);
    assert s == Step(After(EMPTY, past), first) by {
      assert (past + [first])[..|past|] == past;
    }
    CountedFrom(s, future);
    AfterAppend(EMPTY, past + [first], future);
  }

  /** The last event with a property is the same for a longer run exactly when none has it in between. */
  lemma {:induction false} LastStays(p: (State, Event) -> bool, events: seq<Event>, a: nat, b: nat)
    requires a <= b <= |events|
    ensures LastWhere(p, events[..a]) == LastWhere(p, events[..b]) <==>
            forall k: nat {:trigger At(p, events, k)} :: a <= k < b ==> !At(p, events, k)
  {
    LastWhereFact(p, events[..a]);
    if a < b {
      LastStays(p, events, a, b - 1);
      assert events[..b][..b - 1] == events[..b - 1];
      AtPrefix(p, events, b, b - 1);
      LastWhereFact(p, events[..b - 1]);
    }
  }

  /**
   Two jobs come from the same instruction exactly when no instruction with a preset was
   dispatched between the messages that queued them: a second start message in the same pause
   queues the same job again.
   */
  lemma {:induction false} SameOrigin(events: seq<Event>, i: nat, j: nat)
    requires i < j < |QueuedAt(events)|
    ensures var p, q := QueuedAt(events)[i], QueuedAt(events)[j];
            && p < q < |events|
            && (Describer(events[..p]) == Describer(events[..q]) <==>
                forall k: nat {:trigger At(Describes, events, k)} :: p <= k < q ==> !At(Describes, events, k))
  {
    QueuedAtFact(events);
    var p, q := QueuedAt(events)[i], QueuedAt(events)[j];
    assert q in QueuedAt(events);
    LastStays(Describes, events, p, q);
  }

  // ----- Publishing on change, and repeated starts -----

  function Messages(signals: seq<Signal>): seq<Event> {
    seq(|signals|, i requires 0 <= i < |signals| => LineMessage(signals[i]))
  }

  function StartsIn(signals: seq<Signal>): nat {
    if signals == [] then 0
    else StartsIn(signals[..|signals| - 1]) + if Starts(signals[|signals| - 1]) then 1 else 0
  }

  function Copies(job: InferenceJob, n: nat): seq<InferenceJob> { seq(n, _ => job) }

  lemma {:induction false} QueueAfter(s: State, signals: seq<Signal>)
    ensures var t := After(s, Messages(signals));
            && t.info == s.info
            && t.queue == s.queue + if s.info.Some? then Copies(JobOf(s.info.value), StartsIn(signals)) else []
  {
    if signals != [] {
      var n := |signals| - 1;
      QueueAfter(s, signals[..n]);
      assert Messages(signals)[..n] == Messages(signals[..n]);
      assert Messages(signals)[n] == LineMessage(signals[n]);
    }
  }

  /** Successful samples that start a job and equal the last successful sample before them. */
  function Repeats(polls: seq<Option<Sample>>): nat {
    if polls == [] then 0
    else
      var before, r := polls[..|polls| - 1], polls[|polls| - 1];
      Repeats(before) + if r.Some? && r.value == Last(before) && Starts(SignalOf(r.value)) then 1 else 0
  }

  lemma StartsSnoc(signals: seq<Signal>, s: Signal)
    ensures StartsIn(signals + [s]) == StartsIn(signals) + if Starts(s) then 1 else 0
  {
    assert (signals + [s])[..|signals|] == signals;
  }

  lemma {:induction false} StartsDiffer(polls: seq<Option<Sample>>)
    ensures StartsIn(Every(polls)) == StartsIn(Published(polls)) + Repeats(polls)
  {
    if polls != [] {
      var before, r := polls[..|polls| - 1], polls[|polls| - 1];
      StartsDiffer(before);
      if r.Some? {
        StartsSnoc(Every(before), SignalOf(r.value));
        StartsSnoc(Published(before), SignalOf(r.value));
        assert Published(before) + [] == Published(before);
      } else {
        assert Every(polls) == Every(before) && Published(polls) == Published(before);
      }
    }
  }

  /**
   For the job queue publishing on change does make a difference, and exactly this one: every
   sample that repeats a starting one would queue the job once more. The queues are the same
   if and only if there is no description or no such sample.
   */
  lemma {:induction false} JobsNeedChanges(s: State, polls: seq<Option<Sample>>)
    ensures var every, published := After(s, Messages(Every(polls))).queue, After(s, Messages(Published(polls))).queue;
            && |every| == |published| + (if s.info.Some? then Repeats(polls) else 0)
            && (every == published <==> s.info.None? || Repeats(polls) == 0)
  {
    QueueAfter(s, Every(polls));
    QueueAfter(s, Published(polls));
    StartsDiffer(polls);
  }

  /**
   A second start message does reach the subscriber although no two published messages in a row
   are the same: it is enough that the offline line changes between them. The same job is
   queued twice then.
   */
  lemma {:induction false} RepeatedStartQueuesAgain(s: State) returns (polls: seq<Option<Sample>>)
    requires s.info.Some?
    ensures Binary(polls) && |Published(polls)| == 2 && Published(polls)[0] != Published(polls)[1]
    ensures After(s, Messages(Published(polls))).queue == s.queue + [JobOf(s.info.value), JobOf(s.info.value)]
  {
    var x: Sample, y: Sample := [0, 0, 0, 1], [0, 0, 1, 1];
    polls := [Some(x), Some(y)];
    assert polls[..1] == [Some(x)];
    assert x != ZEROS && x[2] != y[2];
    assert Published(polls[..1]) == [SignalOf(x)];
    assert Published(polls) == [SignalOf(x), SignalOf(y)];
    assert Published(polls)[..1] == [SignalOf(x)];
    QueueAfter(s, Published(polls));
    assert StartsIn(Published(polls)[..1]) == 1;
    assert Copies(JobOf(s.info.value), 2) == [JobOf(s.info.value), JobOf(s.info.value)];
  }

  function Calls(n: nat): seq<Event> { seq(n, _ => Take) }

  /** The inference thread gets every job: so many calls take so many jobs, oldest first, until there are none. */
  lemma {:induction false} TakesDrain(s: State, n: nat)
    ensures var t := After(s, Calls(n));
            if n <= |s.queue| then t.taken == s.taken + s.queue[..n] && t.queue == s.queue[n..]
            else t.taken == s.taken + s.queue && t.queue == []
  {
    if n > 0 {
      TakesDrain(s, n - 1);
      assert Calls(n)[..n - 1] == Calls(n - 1);
      if n <= |s.queue| {
        assert s.queue[..n] == s.queue[..n - 1] + [s.queue[n - 1]];
      }
    }
  }

  // ----- Where the stacker files meanwhile -----

  /** What an event means to latch, gate and stacker; the stacker takes an instruction with or without a preset. */
  function Plain(e: Event): LinePass.Event {
    match e
    case Instruction(d, _, refused) => LinePass.Instruction(MessageOf(d), refused)
    case LineMessage(signal) => LinePass.LineMessage(signal)
    case Frame(id, camera, data) => LinePass.Frame(id, camera, data)
    case Take => LinePass.Idle
  }

  function Plains(events: seq<Event>): seq<LinePass.Event> {
    seq(|events|, i requires 0 <= i < |events| => Plain(events[i]))
  }

  /** The same events, with the line beside them. */
  ghost predicate Runs(c: Config, store: Store, events: seq<Event>, states: seq<LinePass.Line>) {
    LinePass.Trace(c, LinePass.Line(START, store), Plains(events), states)
  }

  lemma RunsPrefix(c: Config, store: Store, events: seq<Event>, states: seq<LinePass.Line>, n: nat)
    requires Runs(c, store, events, states) && n <= |events|
    ensures Runs(c, store, events[..n], states[..n + 1])
  {
    LinePass.TracePrefix(c, LinePass.Line(START, store), Plains(events), states, n);
    assert Plains(events[..n]) == Plains(events)[..n];
  }

  lemma RunsLast(c: Config, store: Store, events: seq<Event>, states: seq<LinePass.Line>, n: nat)
    requires Runs(c, store, events, states) && n < |events|
    ensures LinePass.Known(c, Plain(events[n])) && LinePass.Ready(c, states[n])
    ensures states[n + 1] == LinePass.Step(c, states[n], Plain(events[n]))
  {
    assert Plains(events)[n] == Plain(events[n]);
  }

  /** There is one latch and one gate. */
  lemma {:induction false} SameView(c: Config, store: Store, events: seq<Event>, states: seq<LinePass.Line>)
    requires Runs(c, store, events, states)
    ensures states[|events|].view == After(EMPTY, events).view
  {
    if events != [] {
      var n := |events| - 1;
      RunsPrefix(c, store, events, states, n);
      SameView(c, store, events[..n], states[..n + 1]);
      RunsLast(c, store, events, states, n);
    }
  }

  /** All active directories are the last dispatched instruction's, below targets in use. */
  lemma {:induction false} ActiveUnderLast(c: Config, store: Store, events: seq<Event>, states: seq<LinePass.Line>)
    requires Runs(c, store, events, states)
    ensures var r := LastDispatch(events);
            && (r.None? ==> states[|events|].store.active == store.active)
            && (r.Some? ==> r.value < |events| && events[r.value].Instruction?
                            && forall d :: d in states[|events|].store.active ==>
                                 TargetOf(c.targets, RelDir(MessageOf(events[r.value].d)), d))
  {
    if events != [] {
      var n := |events| - 1;
      RunsPrefix(c, store, events, states, n);
      ActiveUnderLast(c, store, events[..n], states[..n + 1]);
      SameView(c, store, events[..n], states[..n + 1]);
      RunsLast(c, store, events, states, n);
      if At(Passes, events, n) {
        DispatchedWhere(c, states[n].store, MessageOf(events[n].d), events[n].refused);
      } else {
        LinePass.StepReady(c, states[n], Plain(events[n]));
      }
    }
  }

  lemma TextAfterDate(date: string, a: string, date2: string, b: string)
    requires '_' !in date && '_' !in date2
    ensures date + "_" + a == date2 + "_" + b <==> date == date2 && a == b
  {
    if date + "_" + a == date2 + "_" + b {
      FirstSeparator(date, date2, a, b, '_');
    }
  }

  /**
   A job's directory is that of a message exactly when it has its date and the standard the message
   is filed under.
   */
  lemma {:induction false} DirectoryTells(info: Lv2Info, msg: Message)
    requires msg.Job? && '_' !in info.date && '_' !in msg.date
    ensures JobOf(info).dir == RelDir(msg) <==> info.date == msg.date && info.norm == FiledNorm(msg)
  {
    TextAfterDate(info.date, info.norm, msg.date, FiledNorm(msg));
    assert JobOf(info).dir[1] == info.date + "_" + info.norm;
    assert RelDir(msg)[1] == msg.date + "_" + FiledNorm(msg);
  }

  /** For the instruction it comes from, that is exactly when the standard is not empty. */
  lemma {:induction false} SameDirectory(d: Packets.Dispatch)
    ensures JobOf(InfoOf(d)).dir == RelDir(MessageOf(d)) <==> d.mtStandNorm != ""
  {
    if d.mtStandNorm == "" {
      assert JobOf(InfoOf(d)).dir[1] == d.date + "_";
      assert |RelDir(MessageOf(d))[1]| > |d.date + "_"|;
    }
  }

  /**
   Over every run, for every job: when it is queued, the stacker files into the directory of the
   last dispatched instruction, below targets in use and nowhere else. The job names that
   directory exactly when its description has that instruction's date, and as its standard the
   one the instruction is filed under. In particular, if the last dispatched instruction had a
   preset, exactly when its standard is not empty.
   */
  lemma {:induction false} JobsNameStackerDirectories(c: Config, store: Store, events: seq<Event>,
                                                      states: seq<LinePass.Line>, j: nat)
    requires Runs(c, store, events, states)
    requires j < |QueuedAt(events)| == |After(EMPTY, events).enqueued|
    requires forall e <- events :: e.Instruction? ==> '_' !in e.d.date
    ensures var p := QueuedAt(events)[j];
            var job := After(EMPTY, events).enqueued[j];
            p < |events|
            && var last, origin := LastDispatch(events[..p]), Describer(events[..p]);
               && last.Some? && origin.Some? && origin.value <= last.value < p
               && events[last.value].Instruction? && events[origin.value].Instruction?
               && job == JobOf(InfoOf(events[origin.value].d))
               && var msg := MessageOf(events[last.value].d);
                  && (forall d :: d in states[p].store.active ==> TargetOf(c.targets, RelDir(msg), d))
                  && (job.dir == RelDir(msg) <==> job.info.date == msg.date && job.info.norm == FiledNorm(msg))
                  && (events[last.value].preset ==> (job.dir == RelDir(msg) <==> msg.norm != ""))
  {
    JobOrigin(events, j);
    var p := QueuedAt(events)[j];
    var origin := Describer(events[..p]).value;
    LastWhereFact(Describes, events[..p]);
    LastWhereFact(Passes, events[..p]);
    assert At(Describes, events[..p], origin) && At(Passes, events[..p], origin);
    var last := LastDispatch(events[..p]).value;
    assert At(Passes, events[..p], last);
    RunsPrefix(c, store, events, states, p);
    ActiveUnderLast(c, store, events[..p], states[..p + 1]);
    assert events[origin] in events && events[last] in events;
    DirectoryTells(InfoOf(events[origin].d), MessageOf(events[last].d));
    if events[last].preset {
      assert At(Describes, events[..p], last);
      SameDirectory(events[last].d);
    }
  }

  lemma PassGoesOn(c: Config, l: LinePass.Line, e: Event)
    requires LinePass.Known(c, Plain(e)) && LinePass.Ready(c, l) && l.view.streaming
    ensures LinePass.Step(c, l, Plain(e)).view.streaming <==> !(e.LineMessage? && Starts(e.signal))
  {
    if e.LineMessage? {
      EndsPass(e.signal);
    }
  }

  /** The pass that begins after event a - 1 and ends with event b, every line message in between online. */
  ghost predicate Pass(c: Config, store: Store, events: seq<Event>, states: seq<LinePass.Line>, a: nat, b: nat) {
    && Runs(c, store, events, states) && 0 < a <= b < |events|
    && events[a - 1].LineMessage? && events[a - 1].signal.hmd1 && events[a - 1].signal.online
    && (forall n {:trigger events[n]} :: a <= n < b && events[n].LineMessage? ==> events[n].signal.online)
    && (forall n {:trigger states[n]} :: a <= n <= b ==> states[n].view.streaming)
    && !states[b + 1].view.streaming
  }

  /**
   The message that ends a pass is exactly the one that starts its inference: it queues a job, and
   no message of the pass does.
   */
  lemma {:induction false} PassEndsWithJob(c: Config, store: Store, events: seq<Event>, states: seq<LinePass.Line>,
                                           a: nat, b: nat)
    requires Pass(c, store, events, states, a, b)
    ensures events[b].LineMessage? && Starts(events[b].signal)
    ensures forall n {:trigger At(Queues, events, n)} :: a <= n < b ==> !At(Queues, events, n)
    ensures var s := After(EMPTY, events[..b]);
            After(EMPTY, events[..b + 1]).enqueued
            == s.enqueued + if s.info.Some? then [JobOf(s.info.value)] else []
  {
    RunsLast(c, store, events, states, b);
    PassGoesOn(c, states[b], events[b]);
    assert events[..b + 1][..b] == events[..b];
    forall n | a <= n < b ensures !At(Queues, events, n) {
      RunsLast(c, store, events, states, n);
      assert states[n].view.streaming && states[n + 1].view.streaming;
      PassGoesOn(c, states[n], events[n]);
    }
  }

  lemma PassStarts(c: Config, store: Store, events: seq<Event>, states: seq<LinePass.Line>, a: nat, b: nat)
    requires Pass(c, store, events, states, a, b)
    ensures states[a].view == React(states[a].view, events[a - 1].signal)
  {
    RunsLast(c, store, events, states, a - 1);
  }

  /** What the stacker has at the start of a pass. */
  lemma HistoryAt(c: Config, h: History, events: seq<Event>, states: seq<LinePass.Line>, a: nat)
    requires GoodConfig(c) && Inv(c, h) && Runs(c, h.store, events, states) && a <= |events|
    ensures Inv(c, History(states[a].store, LinePass.PassedOn(START, h.since, Plains(events)[..a])))
  {
    var l := LinePass.Line(START, h.store);
    LinePass.TracePrefix(c, l, Plains(events), states, a);
    LinePass.LineRun(c, h, l, Plains(events)[..a], states[..a + 1]);
  }

  lemma PassSlice(c: Config, store: Store, events: seq<Event>, states: seq<LinePass.Line>, a: nat, b: nat)
    requires Pass(c, store, events, states, a, b)
    ensures LinePass.Trace(c, states[a], Plains(events)[a..b], states[a..b + 1])
    ensures forall n {:trigger Plains(events)[a..b][n]} :: 0 <= n < b - a ==>
              Plains(events)[a..b][n].LineMessage? ==> Plains(events)[a..b][n].signal.online
    ensures forall n {:trigger states[a..b + 1][n]} :: 0 <= n < b - a ==> states[a..b + 1][n].view.streaming
  {
    LinePass.TraceSlice(c, LinePass.Line(START, store), Plains(events), states, a, b);
    forall n | 0 <= n < b - a
      ensures Plains(events)[a..b][n].LineMessage? ==> Plains(events)[a..b][n].signal.online
    {
      assert Plains(events)[a..b][n] == Plain(events[a + n]);
    }
    assert forall n {:trigger states[a..b + 1][n]} :: 0 <= n < b - a ==> states[a..b + 1][n] == states[a + n];
  }

  lemma PassFiles(c: Config, dirs: set<Path>, files: map<Path, Content>, events: seq<Event>,
                  states: seq<LinePass.Line>, a: nat, b: nat)
    requires GoodConfig(c) && Tree(Initial(c, dirs, files).store)
    requires Pass(c, Initial(c, dirs, files).store, events, states, a, b)
    ensures var before := LinePass.PassedOn(START, Nothing(c), Plains(events)[..a]);
            && before.Keys == c.streams.Keys && states[b].store.active == states[a].store.active
            && forall d, id :: d in states[a].store.active && id in c.streams ==>
                 Complete(states[b].store.files, d, c.streams[id],
                          before[id] + LinePass.FramesOf(Plains(events)[a..b], id))
  {
    var h := Initial(c, dirs, files);
    InitialInv(c, dirs, files);
    HistoryAt(c, h, events, states, a);
    PassStarts(c, h.store, events, states, a, b);
    PassSlice(c, h.store, events, states, a, b);
    hide Complete, LinePass.PassedOn, LinePass.FramesOf, LinePass.Trace, React;
    LinePass.PassIsFiled(c, History(states[a].store, LinePass.PassedOn(START, Nothing(c), Plains(events)[..a])),
                         states[a], events[a - 1].signal, Plains(events)[a..b], states[a..b + 1]);
  }

  lemma InitialInv(c: Config, dirs: set<Path>, files: map<Path, Content>)
    requires Tree(Initial(c, dirs, files).store)
    ensures Inv(c, Initial(c, dirs, files))
  {
  }

  /**
   A pass and its job, in any run: the message that ends the pass queues the job. Up to then every
   frame of the pass has been filed below the active directories, after what was there; all of them
   are the last dispatched instruction's; and the job names that directory exactly when its
   description has that instruction's date and filed standard.
   */
  lemma {:induction false} PassAndItsJob(c: Config, dirs: set<Path>, files: map<Path, Content>, events: seq<Event>,
                                         states: seq<LinePass.Line>, a: nat, b: nat)
    requires GoodConfig(c) && Tree(Initial(c, dirs, files).store)
    requires Pass(c, Initial(c, dirs, files).store, events, states, a, b)
    requires forall e <- events :: e.Instruction? ==> '_' !in e.d.date
    requires After(EMPTY, events[..b]).info.Some?
    ensures var s, job := After(EMPTY, events[..b]), JobOf(After(EMPTY, events[..b]).info.value);
            var last, before := LastDispatch(events[..b]), LinePass.PassedOn(START, Nothing(c), Plains(events)[..a]);
            && After(EMPTY, events[..b + 1]).enqueued == s.enqueued + [job]
            && last.Some? && last.value < b && events[last.value].Instruction? && before.Keys == c.streams.Keys
            && var msg := MessageOf(events[last.value].d);
               && (forall d :: d in states[b].store.active ==> TargetOf(c.targets, RelDir(msg), d))
               && (forall d, id :: d in states[b].store.active && id in c.streams ==>
                     Complete(states[b].store.files, d, c.streams[id],
                              before[id] + LinePass.FramesOf(Plains(events)[a..b], id)))
               && (job.dir == RelDir(msg) <==> job.info.date == msg.date && job.info.norm == FiledNorm(msg))
  {
    var store := Initial(c, dirs, files).store;
    PassEndsWithJob(c, store, events, states, a, b);
    PassFiles(c, dirs, files, events, states, a, b);
    RunsPrefix(c, store, events, states, b);
    ActiveUnderLast(c, store, events[..b], states[..b + 1]);
    InfoFollows(events[..b]);
    LastWhereFact(Describes, events[..b]);
    LastWhereFact(Passes, events[..b]);
    var origin := Describer(events[..b]).value;
    assert At(Describes, events[..b], origin) && At(Passes, events[..b], origin);
    var last := LastDispatch(events[..b]).value;
    assert events[..b][origin] in events && events[..b][last] in events;
    DirectoryTells(InfoOf(events[origin].d), MessageOf(events[last].d));
  }

  /**
   The description can be stale: after an instruction without a preset the next job still reads
   the directory of the instruction before, while the stacker files into the new one's.
   */
  lemma {:induction false} StaleJob(first: Packets.Dispatch, second: Packets.Dispatch, start: Signal)
    requires Starts(start) && first.date != second.date && '_' !in first.date && '_' !in second.date
    ensures var events := [Instruction(first, true, {}), Instruction(second, false, {}), LineMessage(start)];
            && LastDispatch(events[..2]) == Some(1)
            && After(EMPTY, events).enqueued == [JobOf(InfoOf(first))]
            && JobOf(InfoOf(first)).dir != RelDir(MessageOf(second))
  {
    var events := [Instruction(first, true, {}), Instruction(second, false, {}), LineMessage(start)];
    assert events[..2][..1] == events[..1] && events[..1][..0] == [];
    assert After(EMPTY, events[..1]) == Step(EMPTY, events[0]);
    assert After(EMPTY, events[..2]) == Step(Step(EMPTY, events[0]), events[1]);
    assert At(Passes, events[..2], 1);
    DirectoryTells(InfoOf(first), MessageOf(second));
  }

  // ----- From the instruction packet to the label -----

  /** The standard the copy of the defect images works with, and its fallback. */
  function CopyStandard(norm: string, width: int, height: int): string {
    if norm == "" then "Unknown" + Packets.Print(width) + "X" + Packets.Print(height) else norm
  }

  /** A printed number is made of digits, after its sign. */
  lemma {:induction false} OnlyDigits(n: int)
    ensures forall c <- Packets.Print(n) :: IsDigit(c) || c == '-'
    ensures n >= 0 ==> forall c <- Packets.Print(n) :: IsDigit(c)
  {
    var d := Packets.Decimal(if n < 0 then -n else n);
    Packets.DecimalFact(if n < 0 then -n else n);
    forall c | c in d ensures IsDigit(c) {
      var i :| 0 <= i < |d| && d[i] == c;
    }
  }

  lemma OneX(u: string, a: string, b: string, c: string, d: string)
    requires 'X' !in u && 'X' !in c && 'X' !in d
    ensures u + a + "X" + b != u + c + "x" + d
  {
    var s, t := u + a + "X" + b, u + c + "x" + d;
    assert s[|u + a|] == 'X';
    assert 'X' !in t;
  }

  lemma FallbacksDiffer(a: int, b: int, c: int, d: int)
    ensures "Unknown" + Packets.Print(a) + "X" + Packets.Print(b)
         != "Unknown" + Packets.Print(c) + "x" + Packets.Print(d)
  {
    OnlyDigits(c);
    OnlyDigits(d);
    OneX("Unknown", Packets.Print(a), Packets.Print(b), Packets.Print(c), Packets.Print(d));
  }

  lemma SameAfter(date: string, a: string, b: string)
    ensures date + "_" + a == date + "_" + b <==> a == b
  {
    assert (date + "_" + a)[|date| + 1..] == a && (date + "_" + b)[|date| + 1..] == b;
  }

  /**
   The defect images are copied from the stacker's directory exactly when the standard is not
   empty: the two fallback names differ in their X, whatever the dimensions.
   */
  lemma {:induction false} CopyReadsStackerDirectory(msg: Message, width: int, height: int, row: string)
    requires msg.Job?
    ensures LabelName.CopyDir(msg.date, CopyStandard(msg.norm, width, height), row)[..2] == RelDir(msg) <==>
        msg.norm != ""
    ensures LabelName.CopyDir(msg.date, CopyStandard(msg.norm, width, height), row)[1]
         == msg.date + "_" + if msg.norm != "" then msg.norm
                             else "Unknown" + Packets.Print(width) + "X" + Packets.Print(height)
  {
    var copied := CopyStandard(msg.norm, width, height);
    assert LabelName.CopyDir(msg.date, copied, row)[..2] == [LabelName.Take8(msg.date), msg.date + "_" + copied];
    if msg.norm == "" {
      FallbacksDiffer(width, height, Tenth(msg.width), Tenth(msg.height));
      SameAfter(msg.date, copied, FiledNorm(msg));
    }
  }

  /**
   From the bytes of an instruction packet to what the job and the stacker make of them: the job's
   eight fields, in tenths where they are sizes, its directory, and the message the stacker gets.
   */
  lemma {:induction false} PacketToJob(data: string, d: Packets.Dispatch)
    ensures Packets.ReceiveInstruction(data) == Some(d) ==>
              var job, msg := JobOf(InfoOf(d)), MessageOf(d);
              && |data| == 512
              && var date, norm := RemoveSpace(data[4..18]), Normalizer.Normal(data[73..103]);
                 && job.info.date == date && job.info.lotNo == RemoveSpace(data[24..39])
                 && job.info.mtNo == RemoveSpace(data[39..54]) && job.info.mtTypeCd == RemoveSpace(data[71..73])
                 && job.info.raw == data[73..103] && job.info.norm == norm
                 && job.dir == [if |date| >= 8 then date[..8] else date, date + "_" + norm]
                 && msg.date == date && msg.norm == norm
                 && Packets.NumberOf(data[193..197]) == Some(msg.width) && IsTenth(msg.width, job.info.width)
                 && Packets.NumberOf(data[197..201]) == Some(msg.height) && IsTenth(msg.height, job.info.height)
  {
    TenthFact(d.width);
    TenthFact(d.height);
    hide Packets.ReceiveInstruction, Packets.NumberOf, RemoveSpace, Normalizer.Normal, Tenth, IsTenth;
    Packets.InstructionBytes(data, d);
  }

  /**
   An instruction packet, received: the stacker and the inference job work on the same
   directory exactly when its standard is not blank.
   */
  lemma {:induction false} PacketToDirectories(data: string, d: Packets.Dispatch)
    ensures Packets.ReceiveInstruction(data) == Some(d) ==>
              (JobOf(InfoOf(d)).dir == RelDir(MessageOf(d)) <==> NonBlank(d.mtStandRaw))
  {
    hide Packets.ReceiveInstruction, Normalizer.Normal, JobOf, InfoOf, RelDir, MessageOf, NonBlank;
    if Packets.ReceiveInstruction(data) == Some(d) {
      SameDirectory(d);
      Packets.ReceivedStandard(data, d);
      Normalizer.EmptyWhenBlank(d.mtStandRaw);
    }
  }

  /** The copy is made from the file the stacker wrote, under the name it was given when it was scored. */
  lemma CopyOfFiled(date: string, norm: string, camera: string, n: nat)
    requires '_' !in camera
    ensures var row := ImageName(camera, n);
            LabelName.CopyDir(date, norm, row) == [LabelName.Take8(date), date + "_" + norm] + ["camera_" + camera]
  {
    LabelName.RowNames(camera, Packets.Decimal(n));
  }

  lemma LabelFinds(date: string, raw: string, mtNo: string, camera: string, n: nat, defect: string)
    requires NonBlank(raw) && '_' !in date && '_' !in mtNo && '_' !in camera
    ensures var row, standard := ImageName(camera, n), Normalizer.Normal(raw);
            var image := LabelName.Label(date, standard, mtNo, camera, Packets.Decimal(n), defect);
            var parsed := LabelName.Parse(LabelName.Print(image));
            var dir := LabelName.CopyDir(date, standard, row);
            var plain := forall section <- Normalizer.Kept(Normalizer.Sections(RemoveSpace(raw))) ::
                           '_' !in section && '/' !in section;
            && parsed.Some?
            && (LabelName.Finds(parsed.value, dir, LabelName.Renamed(row)) <==> plain)
            && (LabelName.LabelTarget(parsed.value) == LabelName.Target(dir, image) <==> plain && '_' !in defect)
  {
    OnlyDigits(n);
    assert Packets.Print(n) == Packets.Decimal(n);
    LabelName.NameFindsImage(date, Normalizer.Normal(raw), mtNo, camera, Packets.Decimal(n), defect);
    Normalizer.UnderscoreFrom(raw);
  }

  /**
   From one end to the other: an instruction packet whose standard is not blank, and image n of
   a stream with directory camera_{camera}, which the stacker files as rel + [dirname, row]
   below its targets. The job reads rel; the copy of the defect image is made from that file,
   under the name it was given when it was scored; and a labelled name, whatever the label,
   leads back to it exactly when the sections the normalised standard keeps have no underscore
   and no slash. The image then gets that label exactly when the label has no underscore either.
   */
  lemma {:induction false} InstructionToLabel(data: string, d: Packets.Dispatch, camera: string, dirname: string,
                                              n: nat, defect: string)
    requires NonBlank(d.mtStandRaw) && '_' !in d.date && '_' !in d.mtNo && '_' !in camera
    requires dirname == "camera_" + camera
    ensures var row, rel := ImageName(camera, n), RelDir(MessageOf(d));
            var standard := CopyStandard(d.mtStandNorm, Tenth(d.width), Tenth(d.height));
            var image := LabelName.Label(d.date, standard, d.mtNo, camera, Packets.Decimal(n), defect);
            var parsed := LabelName.Parse(LabelName.Print(image));
            var plain := forall section <- Normalizer.Kept(Normalizer.Sections(RemoveSpace(d.mtStandRaw))) ::
                           '_' !in section && '/' !in section;
            Packets.ReceiveInstruction(data) == Some(d) ==>
              && JobOf(InfoOf(d)).dir == rel
              && LabelName.CopySource(d.date, standard, row) == rel + [dirname] + [LabelName.Renamed(row)]
              && parsed.Some?
              && (LabelName.Finds(parsed.value, rel + [dirname], LabelName.Renamed(row)) <==> plain)
              && (LabelName.LabelTarget(parsed.value) == LabelName.Target(rel + [dirname], image) <==>
                  plain && '_' !in defect)
  {
    if Packets.ReceiveInstruction(data) == Some(d) {
      Packets.ReceivedStandard(data, d);
      Normalizer.NamesADirectory(d.mtStandRaw);
      SameDirectory(d);
      CopyOfFiled(d.date, d.mtStandNorm, camera, n);
      LabelFinds(d.date, d.mtStandRaw, d.mtNo, camera, n, defect);
    }
  }
}
