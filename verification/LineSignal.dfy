/**
 The line signal. Four digital lines are sampled; a message goes out only when a sample
 differs from the one before. The camera grabber latches image streaming on it, the Level2
 interface its online flag and the gate that holds job instructions back.
 */
module LineSignal {
  import opened Wrappers

  datatype Signal = Signal(hmd1: bool, hmd2: bool, online: bool, offline: bool)

  /** What the subscribers remember. */
  datatype View = View(streaming: bool, online: bool, ignore: bool)

  const START := View(false, false, false)

  type Sample = s: seq<nat> | |s| == 4 witness [0, 0, 0, 0]

  const ZEROS: Sample := [0, 0, 0, 0]

  function SignalOf(s: Sample): Signal {
    Signal(s[1] != 0, s[0] != 0, s[3] != 0, s[2] != 0)
  }

  // ----- Publisher -----

  /** The last successful sample, or the zeros the publisher starts from. */
  function Last(polls: seq<Option<Sample>>): Sample {
    if polls == [] then ZEROS
    else if polls[|polls| - 1].Some? then polls[|polls| - 1].value
    else Last(polls[..|polls| - 1])
  }

  function Published(polls: seq<Option<Sample>>): seq<Signal> {
    if polls == [] then []
    else
      var before, r := polls[..|polls| - 1], polls[|polls| - 1];
      Published(before) + if r.Some? && r.value != Last(before) then [SignalOf(r.value)] else []
  }

  /** As if every successful sample were published. */
  function Every(polls: seq<Option<Sample>>): seq<Signal> {
    if polls == [] then []
    else
      var r := polls[|polls| - 1];
      Every(polls[..|polls| - 1]) + if r.Some? then [SignalOf(r.value)] else []
  }

  lemma NoPolls()
    ensures Published([]) == [] && Last([]) == ZEROS
  {
  }

  /** One more poll, read off the polls before it. */
  lemma PollStep(polls: seq<Option<Sample>>)
    requires polls != []
    ensures var before, r := polls[..|polls| - 1], polls[|polls| - 1];
            && Last(polls) == (if r.Some? then r.value else Last(before))
            && Every(polls) == (if r.Some? then Every(before) + [SignalOf(r.value)] else Every(before))
            && Published(polls)
               == if r.Some? && r.value != Last(before) then Published(before) + [SignalOf(r.value)]
                  else Published(before)
  {
  }

  method CopyValues(dst: array<nat>, values: Sample)
    requires dst.Length == 4
    modifies dst
    ensures dst[..] == values
  {
    forall i | 0 <= i < 4 { dst[i] := values[i]; }
  }

  /** The sampling loop over the outcomes of the reads; None is a read that failed. */
  method DaqDioReadTask(polls: seq<Option<Sample>>) returns (published: seq<Signal>)
    ensures published == Published(polls)
  {
    var dioValues, prevDioValues := new nat[4](_ => 0), new nat[4](_ => 0);
    published := [];
    assert prevDioValues[..] == ZEROS;
    hide Published, Last, Every, SignalOf;
    NoPolls();
    assert polls[..0] == [];
    for n := 0 to |polls|
      invariant published == Published(polls[..n])
      invariant prevDioValues[..] == Last(polls[..n])
    {
      assert polls[..n + 1][..n] == polls[..n];
      PollStep(polls[..n + 1]);
      if polls[n].Some? {
        CopyValues(dioValues, polls[n].value);
        if dioValues[..] != prevDioValues[..] {
          published := published + [SignalOf(dioValues[..])];
        }
        CopyValues(prevDioValues, dioValues[..]);
      }
    }
    assert polls[..|polls|] == polls;
  }

  /** The lines read 0 or 1. */
  ghost predicate Binary(polls: seq<Option<Sample>>) {
    forall r <- polls :: r.Some? ==> forall v <- r.value :: v == 0 || v == 1
  }

  lemma {:induction false} LastPublished(polls: seq<Option<Sample>>)
    requires Binary(polls)
    ensures forall v <- Last(polls) :: v == 0 || v == 1
    ensures Published(polls) != [] ==> Published(polls)[|Published(polls)| - 1] == SignalOf(Last(polls))
  {
    if polls != [] {
      LastPublished(polls[..|polls| - 1]);
    }
  }

  lemma BinarySignals(s: Sample, t: Sample)
    requires (forall v <- s :: v == 0 || v == 1) && (forall v <- t :: v == 0 || v == 1)
    ensures SignalOf(s) == SignalOf(t) <==> s == t
  {
    assert s[0] in s && s[1] in s && s[2] in s && s[3] in s;
    assert t[0] in t && t[1] in t && t[2] in t && t[3] in t;
  }

  /** No two messages in a row are the same. */
  lemma {:induction false} PublishedDiffer(polls: seq<Option<Sample>>, k: nat)
    requires Binary(polls) && k + 1 < |Published(polls)|
    ensures Published(polls)[k] != Published(polls)[k + 1]
  {
    var before, r := polls[..|polls| - 1], polls[|polls| - 1];
    if k + 1 < |Published(before)| {
      PublishedDiffer(before, k);
    } else {
      LastPublished(before);
      BinarySignals(r.value, Last(before));
    }
  }

  // ----- Subscribers -----

  function Latch(streaming: bool, s: Signal): bool {
    if s.hmd1 && s.online then true else if !s.hmd2 && s.online then false else streaming
  }

  function React(v: View, s: Signal): View {
    View(Latch(v.streaming, s), s.online, s.hmd1 || s.hmd2)
  }

  function After(v: View, signals: seq<Signal>): View {
    if signals == [] then v else React(After(v, signals[..|signals| - 1]), signals[|signals| - 1])
  }

  /** No message from the k-th on is online with both detectors off. */
  ghost predicate NoneEnds(signals: seq<Signal>, k: nat) {
    forall j {:trigger signals[j]} :: k <= j < |signals| ==> signals[j].hmd1 || signals[j].hmd2 || !signals[j].online
  }

  /**
   Images stream exactly when they did and nothing has ended it, or when some message had the first
   detector on while online and none after it has ended it.
   */
  lemma {:induction false} StreamsWhen(v: View, signals: seq<Signal>)
    ensures After(v, signals).streaming <==>
              || (v.streaming && NoneEnds(signals, 0))
              || exists i: nat :: i < |signals| && signals[i].hmd1 && signals[i].online && NoneEnds(signals, i + 1)
  {
    if signals != [] {
      var n := |signals| - 1;
      var before := signals[..n];
      StreamsWhen(v, before);
      forall k: nat | k <= n
        ensures NoneEnds(signals, k) <==>
                NoneEnds(before, k) && (signals[n].hmd1 || signals[n].hmd2 || !signals[n].online)
      {
        assert forall j :: 0 <= j < n ==> before[j] == signals[j];
      }
      assert NoneEnds(signals, n + 1);
      if i: nat :| i < n && before[i].hmd1 && before[i].online && NoneEnds(before, i + 1) {
        assert signals[i] == before[i];
      }
      if i: nat :| i < n && signals[i].hmd1 && signals[i].online && NoneEnds(signals, i + 1) {
        assert before[i] == signals[i];
      }
    }
  }

  class CameraGrabber {
    var imageStreamEnable: bool

    constructor ()
      ensures imageStreamEnable == START.streaming
    {
      imageStreamEnable := false;
    }

    method ImageStreamControlTask(signals: seq<Signal>)
      modifies this
      ensures imageStreamEnable == After(View(old(imageStreamEnable), false, false), signals).streaming
      ensures imageStreamEnable <==>
          || (old(imageStreamEnable) && NoneEnds(signals, 0))
          || exists i: nat :: i < |signals| && signals[i].hmd1 && signals[i].online && NoneEnds(signals, i + 1)
    {
      StreamsWhen(View(imageStreamEnable, false, false), signals);
      ghost var v := View(imageStreamEnable, false, false);
      for n := 0 to |signals|
        invariant imageStreamEnable == After(v, signals[..n]).streaming
      {
        assert signals[..n + 1][..n] == signals[..n];
        var s := signals[n];
        if s.hmd1 && s.online {
          imageStreamEnable := true;
        } else if !s.hmd2 && s.online {
          imageStreamEnable := false;
        }
      }
      assert signals[..|signals|] == signals;
    }
  }

  class Level2Gate {
    var isOnline: bool
    var ignore: bool

    constructor ()
      ensures isOnline == START.online && ignore == START.ignore
    {
      isOnline, ignore := false, false;
    }

    method LineCheckWork(signals: seq<Signal>)
      modifies this
      ensures var v := After(View(false, old(isOnline), old(ignore)), signals);
          isOnline == v.online && ignore == v.ignore
      ensures signals == [] ==> isOnline == old(isOnline) && ignore == old(ignore)
      ensures signals != [] ==> var last := signals[|signals| - 1];
          (isOnline <==> last.online) && (ignore <==> last.hmd1 || last.hmd2)
    {
      ghost var v := View(false, isOnline, ignore);
      for n := 0 to |signals|
        invariant isOnline == After(v, signals[..n]).online && ignore == After(v, signals[..n]).ignore
      {
        assert signals[..n + 1][..n] == signals[..n];
        isOnline := signals[n].online;
        if signals[n].hmd1 || signals[n].hmd2 {
          ignore := true;
        } else {
          ignore := false;
        }
      }
      assert signals[..|signals|] == signals;
    }
  }

  lemma AfterSnoc(v: View, signals: seq<Signal>, s: Signal)
    ensures After(v, signals + [s]) == React(After(v, signals), s)
  {
    assert (signals + [s])[..|signals|] == signals;
  }

  /** A message that repeats what the subscribers last reacted to changes nothing. */
  lemma ReactAgain(v: View, s: Signal)
    ensures React(React(v, s), s) == React(v, s)
  {
  }

  /**
   Publishing on change only loses nothing: the latch, the online flag and the gate end as if
   every sample had been published, the zeros at the start included.
   */
  lemma {:induction false} ChangesSuffice(polls: seq<Option<Sample>>)
    ensures After(START, Published(polls)) == After(START, Every(polls))
    ensures React(After(START, Every(polls)), SignalOf(Last(polls))) == After(START, Every(polls))
  {
    if polls != [] {
      var before, r := polls[..|polls| - 1], polls[|polls| - 1];
      ChangesSuffice(before);
      PollStep(polls);
      hide Published, Every, Last, After, React, SignalOf;
      if r.Some? {
        AfterSnoc(START, Published(before), SignalOf(r.value));
        AfterSnoc(START, Every(before), SignalOf(r.value));
        ReactAgain(After(START, Every(before)), SignalOf(r.value));
      }
    }
  }

  // ----- From the lines to the view -----

  /** No read from the k-th on finds line 3 on and lines 0 and 1 off. */
  ghost predicate NoReadEnds(polls: seq<Option<Sample>>, k: nat) {
    forall j {:trigger polls[j]} :: k <= j < |polls| && polls[j].Some? ==>
      var v := polls[j].value; v[0] != 0 || v[1] != 0 || v[3] == 0
  }

  /** The i-th read is the last one that did not fail. */
  ghost predicate LastRead(polls: seq<Option<Sample>>, i: nat) {
    i < |polls| && polls[i].Some? && forall j {:trigger polls[j]} :: i < j < |polls| ==> polls[j].None?
  }

  /** This line was on at the last read that did not fail. */
  ghost predicate LastShows(polls: seq<Option<Sample>>, line: nat)
    requires line < 4
  {
    exists i: nat :: LastRead(polls, i) && polls[i].value[line] != 0
  }

  /** Line 1, with line 3, switches the stream on at the i-th read, and nothing has switched it off since. */
  ghost predicate SwitchedOn(polls: seq<Option<Sample>>, i: nat) {
    && i < |polls| && polls[i].Some? && polls[i].value[1] != 0 && polls[i].value[3] != 0
    && NoReadEnds(polls, i + 1)
  }

  lemma SwitchedOnSnoc(polls: seq<Option<Sample>>, r: Option<Sample>)
    ensures (exists i :: SwitchedOn(polls + [r], i)) <==>
              if r.None? then exists i :: SwitchedOn(polls, i)
              else if r.value[1] != 0 && r.value[3] != 0 then true
              else !(r.value[0] == 0 && r.value[1] == 0 && r.value[3] != 0) && exists i :: SwitchedOn(polls, i)
  {
    var all := polls + [r];
    assert forall j :: 0 <= j < |polls| ==> all[j] == polls[j];
    assert NoReadEnds(all, |all|);
    if r.Some? && r.value[1] != 0 && r.value[3] != 0 {
      assert SwitchedOn(all, |polls|);
    }
    forall i: nat | i < |polls|
      ensures SwitchedOn(all, i) <==>
                SwitchedOn(polls, i) && !(r.Some? && r.value[0] == 0 && r.value[1] == 0 && r.value[3] != 0)
    {
      if SwitchedOn(all, i) {
        assert all[|polls|] == r;
        assert NoReadEnds(polls, i + 1);
      }
    }
  }

  lemma LastShowsSnoc(polls: seq<Option<Sample>>, r: Option<Sample>, line: nat)
    requires line < 4
    ensures LastShows(polls + [r], line) <==> if r.Some? then r.value[line] != 0 else LastShows(polls, line)
  {
    var all := polls + [r];
    assert forall j :: 0 <= j < |polls| ==> all[j] == polls[j];
    assert all[|polls|] == r;
    forall i: nat ensures LastRead(all, i) <==> if r.Some? then i == |polls| else LastRead(polls, i) {
    }
    assert r.Some? ==> LastRead(all, |polls|);
    if i: nat :| LastRead(polls, i) && polls[i].value[line] != 0 {
      assert r.None? ==> LastRead(all, i);
    }
  }

  lemma {:induction false} EveryDecides(polls: seq<Option<Sample>>)
    ensures var v := After(START, Every(polls));
            && (v.streaming <==> exists i :: SwitchedOn(polls, i))
            && (v.online <==> LastShows(polls, 3)) && (v.ignore <==> LastShows(polls, 0) || LastShows(polls, 1))
  {
    if polls != [] {
      var before, r := polls[..|polls| - 1], polls[|polls| - 1];
      EveryDecides(before);
      PollStep(polls);
      hide Every, Published, After, LastShows, SwitchedOn;
      assert polls == before + [r];
      SwitchedOnSnoc(before, r);
      LastShowsSnoc(before, r, 0);
      LastShowsSnoc(before, r, 1);
      LastShowsSnoc(before, r, 3);
      if r.Some? {
        AfterSnoc(START, Every(before), SignalOf(r.value));
      }
    }
  }

  /** The last read that did not fail found this, or there was none and this is four zeros. */
  ghost predicate LastValue(polls: seq<Option<Sample>>, s: Sample) {
    || (exists i: nat :: LastRead(polls, i) && polls[i].value == s)
    || ((forall i: nat :: !LastRead(polls, i)) && s == [0, 0, 0, 0])
  }

  lemma {:induction false} LastIs(polls: seq<Option<Sample>>, s: Sample)
    ensures LastValue(polls, s) <==> s == Last(polls)
  {
    if polls != [] {
      var before, n := polls[..|polls| - 1], |polls| - 1;
      LastIs(before, s);
      if polls[n].Some? {
        assert LastRead(polls, n);
        OneLastRead(polls, n);
      } else {
        forall i: nat ensures LastRead(polls, i) <==> LastRead(before, i) {
          SameReads(polls, i);
        }
      }
    }
  }

  lemma OneLastRead(polls: seq<Option<Sample>>, n: nat)
    requires LastRead(polls, n)
    ensures forall i: nat :: LastRead(polls, i) ==> i == n
  {
    forall i: nat | LastRead(polls, i) ensures i == n {
      assert polls[i].Some? && polls[n].Some?;
    }
  }

  lemma SameReads(polls: seq<Option<Sample>>, i: nat)
    requires polls != [] && polls[|polls| - 1].None?
    ensures LastRead(polls, i) <==> LastRead(polls[..|polls| - 1], i)
  {
    var before := polls[..|polls| - 1];
    assert forall j :: 0 <= j < |before| ==> before[j] == polls[j];
  }

  /**
   A read is published, as these four flags, exactly when it does not fail and differs from the
   last one that did not.
   */
  lemma {:induction false} SentWhen(polls: seq<Option<Sample>>, r: Option<Sample>)
    ensures Published(polls + [r])
         == Published(polls)
            + if r.None? || LastValue(polls, r.value) then []
              else [Signal(r.value[1] != 0, r.value[0] != 0, r.value[3] != 0, r.value[2] != 0)]
  {
    if r.Some? {
      LastIs(polls, r.value);
    }
    assert (polls + [r])[..|polls|] == polls;
  }

  /**
   What the lines mean, over every sequence of samples and failed reads: images stream exactly when
   line 1 was found on together with line 3 and no later read found line 3 on and lines 0 and 1 off;
   the line is online exactly when line 3 was on, and instructions are held back exactly when line 0
   or 1 was on, at the last read that did not fail.
   */
  lemma {:induction false} LinesDecide(polls: seq<Option<Sample>>)
    ensures var v := After(START, Published(polls));
            && (v.streaming <==> exists i :: SwitchedOn(polls, i))
            && (v.online <==> LastShows(polls, 3)) && (v.ignore <==> LastShows(polls, 0) || LastShows(polls, 1))
  {
    ChangesSuffice(polls);
    EveryDecides(polls);
  }

  // ----- Passes -----

  /** Both detectors off, online: the message that starts the inference of a piece. */
  predicate Starts(s: Signal) { !s.hmd1 && !s.hmd2 && s.online }

  /** A message ends the pass that is running exactly when it starts the inference. */
  lemma EndsPass(s: Signal)
    ensures !Latch(true, s) <==> Starts(s)
  {
  }

  /**
   While images stream the gate is open exactly when the latest message has both detectors
   off, and then the line is offline: an online message with both off ends the pass.
   */
  lemma {:induction false} GateWhileStreaming(signals: seq<Signal>)
    requires After(START, signals).streaming
    ensures signals != []
    ensures var last := signals[|signals| - 1];
            && (!After(START, signals).ignore <==> !last.hmd1 && !last.hmd2)
            && (!After(START, signals).ignore ==> !last.online)
  {
  }
}
