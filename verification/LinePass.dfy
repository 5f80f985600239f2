/**
 The line signal, the camera latch, the Level2 gate and the stacker together. Every line
 message reaches the latch and the gate before the next message of any kind; a job
 instruction is dispatched to the stacker only while the gate is open, and a camera frame is
 passed on only while streaming is enabled.
 */
module LinePass {
  import opened Wrappers
  import opened LineSignal
  import opened Stacker

  datatype Line = Line(view: View, store: Store)

  /** Idle: something that concerns neither latch nor gate nor stacker. */
  datatype Event =
    | Idle
    | LineMessage(signal: Signal)
    | Instruction(msg: Message, refused: set<Path>)
    | Frame(id: int, camera: string, data: seq<nat>)

  predicate Known(c: Config, e: Event) { e.Frame? ==> e.id in c.streams }

  predicate Ready(c: Config, l: Line) { l.store.counter.Keys == c.streams.Keys }

  /** The instruction is published to the stacker. */
  predicate Dispatches(l: Line, e: Event) { e.Instruction? && !l.view.ignore }

  function Step(c: Config, l: Line, e: Event): Line
    requires Known(c, e) && Ready(c, l)
  {
    match e
    case Idle => l
    case LineMessage(signal) => l.(view := React(l.view, signal))
    case Instruction(msg, refused) => if l.view.ignore then l else l.(store := Dispatched(c, l.store, msg, refused))
    case Frame(id, camera, data) => if l.view.streaming then l.(store := Filed(c, l.store, id, camera, data)) else l
  }

  lemma {:induction false} FileAllFrame(s: Store, ds: seq<Path>, dirname: string, name: string, data: seq<nat>)
    ensures FileAll(s, ds, dirname, name, data).active == s.active
    ensures FileAll(s, ds, dirname, name, data).counter == s.counter
  {
    if ds != [] {
      FileAllFrame(s, ds[..|ds| - 1], dirname, name, data);
    }
  }

  lemma StepReady(c: Config, l: Line, e: Event)
    requires Known(c, e) && Ready(c, l)
    ensures Ready(c, Step(c, l, e))
    ensures !Dispatches(l, e) ==> Step(c, l, e).store.active == l.store.active
  {
    match e
    case Idle =>
    case LineMessage(_) =>
    case Instruction(msg, refused) =>
      if msg.Job? {
        OpenTargetsCounter(l.store.(active := []), c.targets, msg, refused);
      }
    case Frame(id, camera, data) =>
      FileAllFrame(l.store, l.store.active, c.streams[id], ImageName(camera, l.store.counter[id] + 1), data);
  }

  /** The states of a run, from l on. */
  ghost predicate Trace(c: Config, l: Line, events: seq<Event>, states: seq<Line>) {
    && |states| == |events| + 1 && states[0] == l
    && forall n {:trigger events[n]} :: 0 <= n < |events| ==>
         Known(c, events[n]) && Ready(c, states[n]) && states[n + 1] == Step(c, states[n], events[n])
  }

  /**
   One pass, one directory: from a state that an enabling message has just led to, as long as
   every line message is online and streaming stays enabled, no instruction is dispatched, so
   every frame of the pass is filed into the directories that were active at its start.
   */
  lemma {:induction false} OnePassOneDirectory(c: Config, l: Line, enabling: Signal, events: seq<Event>,
                                               states: seq<Line>)
    requires enabling.hmd1 && enabling.online && l.view == React(l.view, enabling)
    requires Trace(c, l, events, states)
    requires forall n {:trigger events[n]} :: 0 <= n < |events| ==> events[n].LineMessage? ==> events[n].signal.online
    requires forall n {:trigger states[n]} :: 0 <= n < |events| ==> states[n].view.streaming
    ensures forall n :: 0 <= n < |events| ==> !Dispatches(states[n], events[n]) && states[n].view.ignore
    ensures forall n :: 0 <= n <= |events| ==> states[n].store.active == l.store.active
  {
    for n := 0 to |events|
      invariant forall k :: 0 <= k < n ==> !Dispatches(states[k], events[k]) && states[k].view.ignore
      invariant forall k :: 0 <= k <= n ==> states[k].store.active == l.store.active
      invariant states[n].view.streaming ==> states[n].view.ignore
    {
      assert Known(c, events[n]) && states[n].view.streaming;
      StepReady(c, states[n], events[n]);
    }
  }

  /** The frames of one stream, in order. */
  function FramesOf(events: seq<Event>, id: int): seq<Received> {
    if events == [] then []
    else
      var e := events[|events| - 1];
      FramesOf(events[..|events| - 1], id) + if e.Frame? && e.id == id then [Received(e.camera, e.data)] else []
  }

  /** What every stream has received once these events have been filed. */
  function Since(h: History, events: seq<Event>): map<int, seq<Received>> {
    map id | id in h.since :: h.since[id] + FramesOf(events, id)
  }

  lemma FramesSnoc(events: seq<Event>, e: Event, id: int)
    ensures FramesOf(events + [e], id)
         == FramesOf(events, id) + if e.Frame? && e.id == id then [Received(e.camera, e.data)] else []
  {
    assert (events + [e])[..|events|] == events;
  }

  /** A frame more, for its stream. */
  function Later(since: map<int, seq<Received>>, e: Event): map<int, seq<Received>>
    requires e.Frame? ==> e.id in since
  {
    if e.Frame? then since[e.id := since[e.id] + [Received(e.camera, e.data)]] else since
  }

  lemma SinceSnoc(h: History, events: seq<Event>, e: Event)
    requires e.Frame? ==> e.id in h.since
    ensures Since(h, events + [e]) == Later(Since(h, events), e)
  {
    forall id | id in h.since ensures Since(h, events + [e])[id] == Later(Since(h, events), e)[id] {
      FramesSnoc(events, e, id);
      if e.Frame? && e.id == id {
        Onto(h.since[id], FramesOf(events, id), Received(e.camera, e.data));
      }
    }
  }

  lemma Onto(a: seq<Received>, b: seq<Received>, r: Received)
    ensures a + (b + [r]) == a + b + [r]
  {
  }

  lemma FiledStep(c: Config, h: History, l: Line, events: seq<Event>, e: Event)
    requires GoodConfig(c) && Inv(c, History(l.store, Since(h, events)))
    requires Known(c, e) && Ready(c, l) && l.view.streaming && !Dispatches(l, e)
    ensures var t := Step(c, l, e).store; Inv(c, History(t, Since(h, events + [e]))) && Kept(l.store.files, t.files)
  {
    SinceSnoc(h, events, e);
    if e.Frame? {
      StepInv(c, History(l.store, Since(h, events)), ImageMessage(e.id, e.camera, e.data));
    }
  }

  /**
   The images of a pass are on disk: from a state that an enabling message has just led to, as
   long as every line message is online and streaming stays enabled, every frame of every stream
   is filed under each directory active at the start, numbered on from what the stream had there,
   with its data; and no file is changed.
   */
  lemma {:induction false} PassIsFiled(c: Config, h: History, l: Line, enabling: Signal,
                                       events: seq<Event>, states: seq<Line>)
    requires GoodConfig(c) && Inv(c, h) && h.store == l.store
    requires enabling.hmd1 && enabling.online && l.view == React(l.view, enabling)
    requires Trace(c, l, events, states)
    requires forall n {:trigger events[n]} :: 0 <= n < |events| ==> events[n].LineMessage? ==> events[n].signal.online
    requires forall n {:trigger states[n]} :: 0 <= n < |events| ==> states[n].view.streaming
    ensures var t := states[|events|].store;
            && t.active == l.store.active && Kept(l.store.files, t.files)
            && forall d, id :: d in l.store.active && id in c.streams ==>
                 Complete(t.files, d, c.streams[id], h.since[id] + FramesOf(events, id))
  {
    OnePassOneDirectory(c, l, enabling, events, states);
    FiledRun(c, h, l, events, states);
    var t := states[|events|].store;
    forall d, id | d in l.store.active && id in c.streams
      ensures Complete(t.files, d, c.streams[id], h.since[id] + FramesOf(events, id))
    {
      assert Holds(c, t, d, Since(h, events));
    }
  }

  lemma {:induction false} FiledRun(c: Config, h: History, l: Line, events: seq<Event>, states: seq<Line>)
    requires GoodConfig(c) && Inv(c, h) && h.store == l.store && Trace(c, l, events, states)
    requires forall n {:trigger states[n]} :: 0 <= n < |events| ==> states[n].view.streaming
    requires forall n {:trigger events[n]} :: 0 <= n < |events| ==> !Dispatches(states[n], events[n])
    ensures Inv(c, History(states[|events|].store, Since(h, events)))
    ensures Kept(l.store.files, states[|events|].store.files)
  {
    if events == [] {
      forall id | id in h.since ensures Since(h, events)[id] == h.since[id] { }
      assert Since(h, events) == h.since;
    } else {
      var n := |events| - 1;
      var before := events[..n];
      TracePrefix(c, l, events, states, n);
      assert forall k :: 0 <= k < n ==> before[k] == events[k];
      FiledRun(c, h, l, before, states[..n + 1]);
      assert Known(c, events[n]) && states[n].view.streaming;
      FiledStep(c, h, states[n], before, events[n]);
      assert events == before + [events[n]];
    }
  }

  /** All the line messages of a run, in order. */
  function Signals(events: seq<Event>): seq<Signal> {
    if events == [] then [] else Signals(events[..|events| - 1]) + SignalsOf(events[|events| - 1])
  }

  function SignalsOf(e: Event): seq<Signal> { if e.LineMessage? then [e.signal] else [] }

  lemma TracePrefix(c: Config, l: Line, events: seq<Event>, states: seq<Line>, n: nat)
    requires Trace(c, l, events, states) && n <= |events|
    ensures Trace(c, l, events[..n], states[..n + 1])
  {
    assert forall k {:trigger events[..n][k]} :: 0 <= k < n ==> events[..n][k] == events[k];
  }

  lemma {:induction false} ViewFollowsSignals(c: Config, l: Line, events: seq<Event>, states: seq<Line>)
    requires Trace(c, l, events, states)
    ensures states[|events|].view == After(l.view, Signals(events))
  {
    if events != [] {
      var n := |events| - 1;
      TracePrefix(c, l, events, states, n);
      ViewFollowsSignals(c, l, events[..n], states[..n + 1]);
      assert Known(c, events[n]) && states[n + 1] == Step(c, states[n], events[n]);
      StepView(c, states[n], events[n], l.view, Signals(events[..n]));
      assert Signals(events) == Signals(events[..n]) + SignalsOf(events[n]);
    }
  }

  lemma StepView(c: Config, l: Line, e: Event, start: View, signals: seq<Signal>)
    requires Known(c, e) && Ready(c, l) && l.view == After(start, signals)
    ensures Step(c, l, e).view == After(start, signals + SignalsOf(e))
  {
    if e.LineMessage? {
      AfterSnoc(start, signals, e.signal);
    } else {
      assert signals + SignalsOf(e) == signals;
    }
  }

  lemma TraceSlice(c: Config, l: Line, events: seq<Event>, states: seq<Line>, a: nat, b: nat)
    requires Trace(c, l, events, states) && a <= b <= |events|
    ensures Trace(c, states[a], events[a..b], states[a..b + 1])
  {
    forall n {:trigger events[a..b][n]} | 0 <= n < b - a
      ensures Known(c, events[a..b][n]) && Ready(c, states[a..b + 1][n])
              && states[a..b + 1][n + 1] == Step(c, states[a..b + 1][n], events[a..b][n])
    {
      assert events[a..b][n] == events[a + n];
    }
  }

  /** The frames a stream had passed on while streaming, since the last complete instruction that was dispatched. */
  function PassedOn(v: View, since: map<int, seq<Received>>, events: seq<Event>): map<int, seq<Received>> {
    if events == [] then since
    else
      var before, e := events[..|events| - 1], events[|events| - 1];
      SinceAfter(PassedOn(v, since, before), After(v, Signals(before)), e)
  }

  function SinceAfter(since: map<int, seq<Received>>, v: View, e: Event): map<int, seq<Received>> {
    if e.Instruction? && !v.ignore && e.msg.Job? then map id | id in since :: []
    else if e.Frame? && v.streaming && e.id in since then Later(since, e)
    else since
  }

  /**
   Over every run of the line, passes and dispatches mixed: no file is ever changed, and under
   every active directory each stream has exactly the frames passed on since the last complete
   instruction that was dispatched, numbered without gaps, with their data.
   */
  lemma {:induction false} LineRun(c: Config, h: History, l: Line, events: seq<Event>, states: seq<Line>)
    requires GoodConfig(c) && Inv(c, h) && h.store == l.store && Trace(c, l, events, states)
    ensures Inv(c, History(states[|events|].store, PassedOn(l.view, h.since, events)))
    ensures Kept(h.store.files, states[|events|].store.files)
  {
    if events != [] {
      var n := |events| - 1;
      var before := events[..n];
      TracePrefix(c, l, events, states, n);
      LineRun(c, h, l, before, states[..n + 1]);
      ViewFollowsSignals(c, l, before, states[..n + 1]);
      assert Known(c, events[n]) && Ready(c, states[n]) && states[n + 1] == Step(c, states[n], events[n]);
      LineStep(c, PassedOn(l.view, h.since, before), states[n], events[n]);
    }
  }

  lemma LineStep(c: Config, since: map<int, seq<Received>>, l: Line, e: Event)
    requires GoodConfig(c) && Inv(c, History(l.store, since)) && Known(c, e) && Ready(c, l)
    ensures var t := Step(c, l, e).store;
            Inv(c, History(t, SinceAfter(since, l.view, e))) && Kept(l.store.files, t.files)
  {
    var h := History(l.store, since);
    if Dispatches(l, e) {
      StepInv(c, h, JobMessage(e.msg, e.refused));
    } else if e.Frame? && l.view.streaming {
      StepInv(c, h, ImageMessage(e.id, e.camera, e.data));
    }
  }

  /**
   Over any run from the start: an instruction reaches the stacker exactly when there was no line
   message yet or the latest one had both detectors off.
   */
  lemma {:induction false} WhenDispatched(c: Config, store: Store, events: seq<Event>, states: seq<Line>,
                                          msg: Message, refused: set<Path>)
    requires Ready(c, Line(START, store)) && Trace(c, Line(START, store), events, states)
    ensures Ready(c, states[|events|])
    ensures var l, signals := states[|events|], Signals(events);
            var open := signals == [] || (!signals[|signals| - 1].hmd1 && !signals[|signals| - 1].hmd2);
            && (Dispatches(l, Instruction(msg, refused)) <==> open)
            && Step(c, l, Instruction(msg, refused)).store
               == if open then Dispatched(c, l.store, msg, refused) else l.store
  {
    ViewFollowsSignals(c, Line(START, store), events, states);
    if events != [] {
      var n := |events| - 1;
      assert Known(c, events[n]);
      StepReady(c, states[n], events[n]);
    }
  }

  /**
   Over any run from the start: an instruction is dispatched in the middle of a pass exactly
   when the latest line message had both detectors off, and then that message was offline.
   */
  lemma {:induction false} WhenAPassIsSplit(c: Config, store: Store, events: seq<Event>, states: seq<Line>,
                                            msg: Message, refused: set<Path>)
    requires Trace(c, Line(START, store), events, states)
    requires states[|events|].view.streaming
    ensures Signals(events) != []
    ensures var last := Signals(events)[|Signals(events)| - 1];
            && (Dispatches(states[|events|], Instruction(msg, refused)) <==> !last.hmd1 && !last.hmd2)
            && (Dispatches(states[|events|], Instruction(msg, refused)) ==> !last.online)
  {
    ViewFollowsSignals(c, Line(START, store), events, states);
    GateWhileStreaming(Signals(events));
  }

  /**
   It happens: the line goes offline between the two detectors and a job instruction comes in
   mid-pass. Every directory the pass was filed into is given up, while streaming goes on.
   */
  lemma {:induction false} OfflineGapSplitsPass(c: Config, store: Store, msg: Message, refused: set<Path>)
    requires GoodConfig(c) && Tree(store) && Ready(c, Line(START, store)) && msg.Job?
    requires forall d :: d in store.active ==> d in store.dirs
    ensures var on, gap := Signal(true, false, true, false), Signal(false, false, false, true);
            var l := Step(c, Step(c, Line(START, store), LineMessage(on)), LineMessage(gap));
            var split := Step(c, l, Instruction(msg, refused));
            && l.view.streaming && l.store.active == store.active && Dispatches(l, Instruction(msg, refused))
            && split.view.streaming && forall d :: d in split.store.active ==> d !in store.active
  {
    OpenTargetsInv(c, store.(active := []), c.targets, msg, refused);
  }

  /** Sampling with publishing on change drives the line into the same view as publishing every sample. */
  lemma {:induction false} SamplesDriveTheLine(c: Config, store: Store, polls: seq<Option<Sample>>, events: seq<Event>,
                                               states: seq<Line>)
    requires Trace(c, Line(START, store), events, states) && Signals(events) == Published(polls)
    ensures states[|events|].view == After(START, Every(polls))
  {
    ViewFollowsSignals(c, Line(START, store), events, states);
    ChangesSuffice(polls);
  }
}
