/**
 The client that reports to Level2: a loop that creates a socket, connects it, and while
 connected sends alive, alarm and job-complete packets, dropping the socket on the first
 send that fails. The network decides the outcome of every connect and send.
 */
module Level2Client {
  import opened Wrappers

  /** What the environment does during one turn of the loop: packets that entered the queues, and outcomes. */
  datatype Turn<P> = Turn(alarms: seq<P>, jobs: seq<P>, connects: bool, aliveOk: bool, alarmOk: bool, jobOk: bool)

  /** What can be seen of the client. Round marks a turn of the loop that starts connected. */
  datatype Event<P> =
    | Created(id: nat)
    | Connected(id: nat)
    | Refused(id: nat)
    | Closed(id: nat)
    | Round(id: nat)
    | Alive(id: nat, count: nat, ok: bool)
    | Alarm(id: nat, packet: P, ok: bool)
    | Job(id: nat, packet: P, ok: bool)

  // ----- What an observer accepts -----

  datatype Link = Down | Fresh | Up | Broken

  /** sockets: created so far. owing: the next event has to be an alive packet. */
  datatype Monitor = Monitor(link: Link, sockets: nat, rounds: nat, alives: nat, owing: bool)

  datatype Verdict = Rejected | Accepted(m: Monitor)

  const START := Monitor(Down, 0, 0, 0, false)

  /** An alive packet is due when the connected rounds before this one are a positive multiple of the period. */
  predicate Due(period: int, rounds: nat) {
    period <= 0 || (rounds > 0 && rounds % period == 0)
  }

  function Observe<P>(period: int, m: Monitor, e: Event<P>): Verdict {
    var current := !m.link.Down? && m.sockets == e.id + 1;
    match e
    case Created(id) =>
      if m.link.Down? && id == m.sockets && !m.owing then Accepted(m.(link := Fresh, sockets := id + 1)) else Rejected
    case Connected(_) =>
      if m.link.Fresh? && current then Accepted(m.(link := Up)) else Rejected
    case Refused(_) =>
      if m.link.Fresh? && current then Accepted(m.(link := Broken)) else Rejected
    case Closed(_) =>
      if current && !m.owing then Accepted(m.(link := Down)) else Rejected
    case Round(_) =>
      if m.link.Up? && current && !m.owing
      then Accepted(m.(rounds := m.rounds + 1, owing := Due(period, m.rounds))) else Rejected
    case Alive(_, count, ok) =>
      if m.link.Up? && current && m.owing && count == m.alives % 10000
      then Accepted(m.(link := if ok then Up else Broken, alives := m.alives + 1, owing := false)) else Rejected
    case Alarm(_, _, ok) =>
      if m.link.Up? && current && !m.owing then Accepted(m.(link := if ok then Up else Broken)) else Rejected
    case Job(_, _, ok) =>
      if m.link.Up? && current && !m.owing then Accepted(m.(link := if ok then Up else Broken)) else Rejected
  }

  function Watch<P>(period: int, trace: seq<Event<P>>): Verdict {
    if trace == [] then Accepted(START)
    else
      var v := Watch(period, trace[..|trace| - 1]);
      if v.Rejected? then v else Observe(period, v.m, trace[|trace| - 1])
  }

  // ----- What the queues see -----

  function JobAttempts<P>(trace: seq<Event<P>>): seq<P> {
    if trace == [] then []
    else JobAttempts(trace[..|trace| - 1]) + if trace[|trace| - 1].Job? then [trace[|trace| - 1].packet] else []
  }

  function AlarmAttempts<P>(trace: seq<Event<P>>): seq<P> {
    if trace == [] then []
    else AlarmAttempts(trace[..|trace| - 1]) + if trace[|trace| - 1].Alarm? then [trace[|trace| - 1].packet] else []
  }

  function JobsPushed<P>(turns: seq<Turn<P>>): seq<P> {
    if turns == [] then [] else JobsPushed(turns[..|turns| - 1]) + turns[|turns| - 1].jobs
  }

  function AlarmsPushed<P>(turns: seq<Turn<P>>): seq<P> {
    if turns == [] then [] else AlarmsPushed(turns[..|turns| - 1]) + turns[|turns| - 1].alarms
  }

  // ----- The client -----

  /** socket: the current one, numbered in the order of creation. sockets: created so far. */
  datatype Client<P> = Client(trace: seq<Event<P>>, alarms: seq<P>, jobs: seq<P>, socket: Option<nat>,
                              isConnected: bool, aliveTime: int, sockets: nat, aliveCounter: nat)

  function Launched<P>(): Client<P> { Client([], [], [], None, false, 0, 0, 0) }

  /** A send, and the close that follows it when it fails. */
  function Sent<P>(e: Event<P>): seq<Event<P>>
    requires e.Alive? || e.Alarm? || e.Job?
  {
    if e.ok then [e] else [e, Closed(e.id)]
  }

  function Send<P>(c: Client<P>, e: Event<P>): Client<P>
    requires e.Alive? || e.Alarm? || e.Job?
  {
    c.(trace := c.trace + Sent(e), socket := if e.ok then c.socket else None, isConnected := e.ok)
  }

  predicate Online<P>(c: Client<P>) { c.socket.Some? && c.isConnected }

  /** Without a connection: create the socket, or connect the one there is. */
  function Reconnect<P>(c: Client<P>, turn: Turn<P>): Client<P> {
    if c.socket.None? then
      c.(trace := c.trace + [Created(c.sockets)], socket := Some(c.sockets), sockets := c.sockets + 1)
    else if turn.connects then c.(trace := c.trace + [Connected(c.socket.value)], isConnected := true)
    else c.(trace := c.trace + [Refused(c.socket.value), Closed(c.socket.value)], socket := None)
  }

  function AlivePart<P>(period: int, c: Client<P>, turn: Turn<P>): Client<P>
    requires Online(c)
  {
    var r := c.(trace := c.trace + [Round(c.socket.value)]);
    var s := if r.aliveTime < period then r
             else Send(r, Alive(c.socket.value, c.aliveCounter, turn.aliveOk))
                    .(aliveTime := 0, aliveCounter := if c.aliveCounter + 1 > 9999 then 0 else c.aliveCounter + 1);
    s.(aliveTime := s.aliveTime + 1)
  }

  function AlarmPart<P>(c: Client<P>, turn: Turn<P>): Client<P> {
    if !Online(c) || c.alarms == [] then c
    else Send(c.(alarms := c.alarms[1..]), Alarm(c.socket.value, c.alarms[0], turn.alarmOk))
  }

  function JobPart<P>(c: Client<P>, turn: Turn<P>): Client<P> {
    if !Online(c) || c.jobs == [] then c
    else Send(c.(jobs := c.jobs[1..]), Job(c.socket.value, c.jobs[0], turn.jobOk))
  }

  function Step<P>(period: int, c: Client<P>, turn: Turn<P>): Client<P> {
    var q := c.(alarms := c.alarms + turn.alarms, jobs := c.jobs + turn.jobs);
    if !Online(q) then Reconnect(q, turn) else JobPart(AlarmPart(AlivePart(period, q, turn), turn), turn)
  }

  function After<P>(period: int, c: Client<P>, turns: seq<Turn<P>>): Client<P> {
    if turns == [] then c else Step(period, After(period, c, turns[..|turns| - 1]), turns[|turns| - 1])
  }

  /** The socket that is left at the end is closed. */
  function Finished<P>(c: Client<P>): seq<Event<P>> {
    c.trace + if c.socket.Some? then [Closed(c.socket.value)] else []
  }

  /** The connected half of a turn: alive packet, alarm, job packet, each only while the socket is still there. */
  method DoRound<P>(period: int, turn: Turn<P>, ghost c: Client<P>, trace0: seq<Event<P>>, alarms0: seq<P>,
                    jobs0: seq<P>, socket0: Option<nat>, aliveTime0: int, ghost sockets: nat, aliveCounter0: nat)
    returns (trace: seq<Event<P>>, alarms: seq<P>, jobs: seq<P>, socket: Option<nat>, isConnected: bool,
        aliveTime: int, aliveCounter: nat)
    requires Online(c) && c == Client(trace0, alarms0, jobs0, socket0, true, aliveTime0, sockets, aliveCounter0)
    ensures Client(trace, alarms, jobs, socket, isConnected, aliveTime, sockets, aliveCounter)
         == JobPart(AlarmPart(AlivePart(period, c, turn), turn), turn)
  {
    trace, alarms, jobs, socket, isConnected := trace0 + [Round(socket0.value)], alarms0, jobs0, socket0, true;
    aliveTime, aliveCounter := aliveTime0, aliveCounter0;
    if aliveTime >= period {
      trace := trace + Sent(Alive(socket.value, aliveCounter, turn.aliveOk));
      aliveCounter := aliveCounter + 1;
      if aliveCounter > 9999 {
        aliveCounter := 0;
      }
      if !turn.aliveOk {
        socket, isConnected := None, false;
      }
      aliveTime := 0;
    }
    aliveTime := aliveTime + 1;
    ghost var r := AlivePart(period, c, turn);
    assert Client(trace, alarms, jobs, socket, isConnected, aliveTime, sockets, aliveCounter) == r;
    if socket.Some? && isConnected && alarms != [] {
      trace := trace + Sent(Alarm(socket.value, alarms[0], turn.alarmOk));
      alarms := alarms[1..];
      if !turn.alarmOk {
        socket, isConnected := None, false;
      }
    }
    ghost var s := AlarmPart(r, turn);
    assert Client(trace, alarms, jobs, socket, isConnected, aliveTime, sockets, aliveCounter) == s;
    if socket.Some? && isConnected && jobs != [] {
      trace := trace + Sent(Job(socket.value, jobs[0], turn.jobOk));
      jobs := jobs[1..];
      if !turn.jobOk {
        socket, isConnected := None, false;
      }
    }
  }

  lemma NoTurns<P>(period: int)
    ensures After<P>(period, Launched(), []) == Client([], [], [], None, false, 0, 0, 0)
  {
  }

  lemma OneTurn<P>(period: int, turns: seq<Turn<P>>, n: nat)
    requires n < |turns|
    ensures After(period, Launched(), turns[..n + 1]) == Step(period, After(period, Launched(), turns[..n]), turns[n])
  {
    assert turns[..n + 1][..n] == turns[..n];
  }

  /** The loop of the source. */
  method DoClientWork<P>(interval: int, turns: seq<Turn<P>>)
    returns (trace: seq<Event<P>>, alarms: seq<P>, jobs: seq<P>)
    ensures var c := After(interval * 10, Launched(), turns);
            trace == Finished(c) && alarms == c.alarms && jobs == c.jobs
  {
    var period := interval * 10;
    var socket: Option<nat>, isConnected, aliveTime := None, false, 0;
    var sockets: nat, aliveCounter: nat := 0, 0;
    trace, alarms, jobs := [], [], [];
    assert turns[..0] == [];
    NoTurns<P>(period);
    hide After, AlivePart, AlarmPart, JobPart;
    for n := 0 to |turns|
      invariant Client(trace, alarms, jobs, socket, isConnected, aliveTime, sockets, aliveCounter)
             == After(period, Launched(), turns[..n])
    {
      OneTurn(period, turns, n);
      var turn := turns[n];
      alarms, jobs := alarms + turn.alarms, jobs + turn.jobs;
      if socket.None? {
        trace, socket, sockets := trace + [Created(sockets)], Some(sockets), sockets + 1;
      } else if !isConnected {
        // the alive time reset in the callback is a variable of that block only
        if turn.connects {
          trace, isConnected := trace + [Connected(socket.value)], true;
        } else {
          trace, socket := trace + [Refused(socket.value), Closed(socket.value)], None;
        }
      } else {
        ghost var q := Client(trace, alarms, jobs, socket, isConnected, aliveTime, sockets, aliveCounter);
        trace, alarms, jobs, socket, isConnected, aliveTime, aliveCounter :=
          DoRound(period, turn, q, trace, alarms, jobs, socket, aliveTime, sockets, aliveCounter);
      }
    }
    assert turns[..|turns|] == turns;
    if socket.Some? {
      trace := trace + [Closed(socket.value)];
    }
  }

  // ----- The observer accepts every run -----

  /** aliveTime counts the connected rounds since the last multiple of the period. */
  ghost predicate Counting(period: int, aliveTime: int, rounds: nat) {
    && aliveTime >= 0
    && if period <= 0 then true
       else if rounds == 0 then aliveTime == 0
       else 1 <= aliveTime <= period && exists q: nat :: rounds == q * period + aliveTime
  }

  lemma CountingStep(period: int, aliveTime: int, rounds: nat)
    requires Counting(period, aliveTime, rounds)
    ensures aliveTime >= period <==> Due(period, rounds)
    ensures Counting(period, if aliveTime >= period then 1 else aliveTime + 1, rounds + 1)
  {
    if period > 0 && rounds > 0 {
      var q: nat :| rounds == q * period + aliveTime;
      if aliveTime >= period {
        assert rounds == (q + 1) * period + 0;
        Remainder(period, q + 1, 0);
        assert rounds + 1 == (q + 1) * period + 1;
      } else {
        Remainder(period, q, aliveTime);
        assert rounds + 1 == q * period + (aliveTime + 1);
      }
    } else if period > 0 {
      assert rounds + 1 == 0 * period + 1;
    }
  }

  lemma Remainder(d: int, q: nat, r: nat)
    requires 0 <= r < d
    ensures (q * d + r) % d == r
  {
    var n := q * d + r;
    var k := n / d - q;
    assert k * d == r - n % d;
    assert k >= 1 ==> k * d >= d;
    assert k <= -1 ==> k * d <= -d;
  }

  /** What the observer knows about a client with this socket, connection and counter. */
  ghost predicate Tracked<P>(period: int, c: Client<P>, rounds: nat) {
    && (c.isConnected ==> c.socket.Some?)
    && (c.socket.Some? ==> c.sockets == c.socket.value + 1)
    && var v := Watch(period, c.trace);
       && v.Accepted? && !v.m.owing
       && v.m.link == (if c.socket.None? then Down else if c.isConnected then Up else Fresh)
       && v.m.sockets == c.sockets && v.m.alives % 10000 == c.aliveCounter && v.m.rounds == rounds
  }

  lemma Logged<P>(period: int, trace: seq<Event<P>>, e: Event<P>)
    ensures Watch(period, trace).Accepted? ==> Watch(period, trace + [e]) == Observe(period, Watch(period, trace).m, e)
    ensures JobAttempts(trace + [e]) == JobAttempts(trace) + if e.Job? then [e.packet] else []
    ensures AlarmAttempts(trace + [e]) == AlarmAttempts(trace) + if e.Alarm? then [e.packet] else []
  {
    assert (trace + [e])[..|trace|] == trace;
  }

  /** What is tried on both queues, and what is still waiting. */
  ghost predicate Accounts<P>(c: Client<P>, alarms: seq<P>, jobs: seq<P>) {
    JobAttempts(c.trace) + c.jobs == jobs && AlarmAttempts(c.trace) + c.alarms == alarms
  }

  lemma LoggedSent<P>(period: int, trace: seq<Event<P>>, e: Event<P>)
    requires e.Alive? || e.Alarm? || e.Job?
    ensures JobAttempts(trace + Sent(e)) == JobAttempts(trace) + if e.Job? then [e.packet] else []
    ensures AlarmAttempts(trace + Sent(e)) == AlarmAttempts(trace) + if e.Alarm? then [e.packet] else []
    ensures Watch(period, trace).Accepted? && Observe(period, Watch(period, trace).m, e).Accepted? ==>
              Watch(period, trace + Sent(e))
              == if e.ok then Observe(period, Watch(period, trace).m, e)
                 else Observe<P>(period, Observe(period, Watch(period, trace).m, e).m, Closed(e.id))
  {
    Logged(period, trace, e);
    Logged(period, trace + [e], Closed(e.id));
    assert trace + [e, Closed(e.id)] == trace + [e] + [Closed(e.id)];
  }

  lemma ReconnectTracked<P>(period: int, c: Client<P>, turn: Turn<P>, rounds: nat, alarms: seq<P>, jobs: seq<P>)
    requires Tracked(period, c, rounds) && Accounts(c, alarms, jobs) && !Online(c)
    ensures Tracked(period, Reconnect(c, turn), rounds) && Accounts(Reconnect(c, turn), alarms, jobs)
  {
    hide Watch, JobAttempts, AlarmAttempts;
    if c.socket.None? {
      Logged(period, c.trace, Created(c.sockets));
    } else if turn.connects {
      Logged(period, c.trace, Connected(c.socket.value));
    } else {
      var id := c.socket.value;
      Logged(period, c.trace, Refused(id));
      Logged(period, c.trace + [Refused(id)], Closed(id));
      assert c.trace + [Refused(id), Closed(id)] == c.trace + [Refused(id)] + [Closed(id)];
    }
  }

  /** A connected round, up to where an alive packet may have to follow. */
  lemma RoundSeen<P>(period: int, c: Client<P>, rounds: nat)
    requires Tracked(period, c, rounds) && Online(c)
    ensures var t := c.trace + [Round(c.socket.value)];
            && Watch(period, t)
               == Accepted(Watch(period, c.trace).m.(rounds := rounds + 1, owing := Due(period, rounds)))
            && JobAttempts(t) == JobAttempts(c.trace) && AlarmAttempts(t) == AlarmAttempts(c.trace)
  {
    Logged(period, c.trace, Round(c.socket.value));
  }

  lemma CounterStep(n: nat)
    ensures (n + 1) % 10000 == if n % 10000 + 1 > 9999 then 0 else n % 10000 + 1
  {
  }

  lemma AliveTracked<P>(period: int, c: Client<P>, turn: Turn<P>, rounds: nat, alarms: seq<P>, jobs: seq<P>)
    requires Tracked(period, c, rounds) && Accounts(c, alarms, jobs) && Online(c)
    requires c.aliveTime >= period <==> Due(period, rounds)
    ensures var t := AlivePart(period, c, turn); Tracked(period, t, rounds + 1) && Accounts(t, alarms, jobs)
  {
    RoundSeen(period, c, rounds);
    hide Watch, JobAttempts, AlarmAttempts, Sent, Due;
    var id := c.socket.value;
    if c.aliveTime >= period {
      CounterStep(Watch(period, c.trace).m.alives);
      LoggedSent(period, c.trace + [Round(id)], Alive(id, c.aliveCounter, turn.aliveOk));
    }
  }

  lemma AliveCounts<P>(period: int, c: Client<P>, turn: Turn<P>, rounds: nat)
    requires Online(c) && Counting(period, c.aliveTime, rounds)
    ensures c.aliveTime >= period <==> Due(period, rounds)
    ensures Counting(period, AlivePart(period, c, turn).aliveTime, rounds + 1)
  {
    CountingStep(period, c.aliveTime, rounds);
    assert AlivePart(period, c, turn).aliveTime == if c.aliveTime >= period then 1 else c.aliveTime + 1;
  }

  lemma AlarmTracked<P>(period: int, c: Client<P>, turn: Turn<P>, rounds: nat, alarms: seq<P>, jobs: seq<P>)
    requires Tracked(period, c, rounds) && Accounts(c, alarms, jobs)
    ensures Tracked(period, AlarmPart(c, turn), rounds) && Accounts(AlarmPart(c, turn), alarms, jobs)
  {
    hide Watch, JobAttempts, AlarmAttempts, Sent;
    if Online(c) && c.alarms != [] {
      LoggedSent(period, c.trace, Alarm(c.socket.value, c.alarms[0], turn.alarmOk));
    }
  }

  lemma JobTracked<P>(period: int, c: Client<P>, turn: Turn<P>, rounds: nat, alarms: seq<P>, jobs: seq<P>)
    requires Tracked(period, c, rounds) && Accounts(c, alarms, jobs)
    ensures Tracked(period, JobPart(c, turn), rounds) && Accounts(JobPart(c, turn), alarms, jobs)
  {
    hide Watch, JobAttempts, AlarmAttempts, Sent;
    if Online(c) && c.jobs != [] {
      LoggedSent(period, c.trace, Job(c.socket.value, c.jobs[0], turn.jobOk));
    }
  }

  lemma RoundTracked<P>(period: int, c: Client<P>, turn: Turn<P>, rounds: nat, alarms: seq<P>, jobs: seq<P>)
    requires Tracked(period, c, rounds) && Counting(period, c.aliveTime, rounds) && Accounts(c, alarms, jobs) &&
        Online(c)
    ensures var t := JobPart(AlarmPart(AlivePart(period, c, turn), turn), turn);
            Tracked(period, t, rounds + 1) && Counting(period, t.aliveTime, rounds + 1) && Accounts(t, alarms, jobs)
  {
    AliveCounts(period, c, turn, rounds);
    AliveTracked(period, c, turn, rounds, alarms, jobs);
    var r := AlivePart(period, c, turn);
    SendsTracked(period, r, turn, rounds + 1, alarms, jobs);
  }

  lemma SendsTracked<P>(period: int, c: Client<P>, turn: Turn<P>, rounds: nat, alarms: seq<P>, jobs: seq<P>)
    requires Tracked(period, c, rounds) && Accounts(c, alarms, jobs)
    ensures var t := JobPart(AlarmPart(c, turn), turn);
            Tracked(period, t, rounds) && Accounts(t, alarms, jobs) && t.aliveTime == c.aliveTime
  {
    AlarmTracked(period, c, turn, rounds, alarms, jobs);
    JobTracked(period, AlarmPart(c, turn), turn, rounds, alarms, jobs);
  }

  lemma StepTracked<P>(period: int, c: Client<P>, turn: Turn<P>, rounds: nat, alarms: seq<P>, jobs: seq<P>)
    returns (after: nat)
    requires Tracked(period, c, rounds) && Counting(period, c.aliveTime, rounds) && Accounts(c, alarms, jobs)
    ensures var t := Step(period, c, turn);
            Tracked(period, t, after) && Counting(period, t.aliveTime, after) &&
                Accounts(t, alarms + turn.alarms, jobs + turn.jobs)
  {
    var q := c.(alarms := c.alarms + turn.alarms, jobs := c.jobs + turn.jobs);
    var a, j := alarms + turn.alarms, jobs + turn.jobs;
    assert Accounts(q, a, j);
    if !Online(q) {
      ReconnectTracked(period, q, turn, rounds, a, j);
      after := rounds;
    } else {
      RoundTracked(period, q, turn, rounds, a, j);
      after := rounds + 1;
    }
  }

  lemma {:induction false} RunTracked<P>(period: int, turns: seq<Turn<P>>) returns (rounds: nat)
    ensures var c := After(period, Launched(), turns);
            Tracked(period, c, rounds) && Counting(period, c.aliveTime, rounds) &&
                Accounts(c, AlarmsPushed(turns), JobsPushed(turns))
  {
    if turns == [] {
      rounds := 0;
    } else {
      var before := turns[..|turns| - 1];
      rounds := RunTracked(period, before);
      rounds := StepTracked(period, After(period, Launched(), before), turns[|turns| - 1], rounds,
          AlarmsPushed(before), JobsPushed(before));
    }
  }

  /**
   Over every run, with any outcomes of connects and sends: the trace is one the observer
   accepts and it ends with no socket; every job packet pushed is attempted once, in push
   order, or is still queued; and so is every alarm.
   */
  lemma {:induction false} ClientRun<P>(period: int, turns: seq<Turn<P>>)
    ensures var c := After(period, Launched(), turns);
            var trace := Finished(c);
            && Watch(period, trace).Accepted? && Watch(period, trace).m.link.Down? && !Watch(period, trace).m.owing
            && JobAttempts(trace) + c.jobs == JobsPushed(turns)
            && AlarmAttempts(trace) + c.alarms == AlarmsPushed(turns)
            && (c.isConnected ==> c.socket.Some?)
  {
    var rounds := RunTracked(period, turns);
    var c := After(period, Launched(), turns);
    hide After, Watch, JobAttempts, AlarmAttempts, JobsPushed, AlarmsPushed, Counting;
    if c.socket.Some? {
      Logged(period, c.trace, Closed(c.socket.value));
    } else {
      assert Finished(c) == c.trace;
    }
  }

  // ----- Progress -----

  lemma AliveTries<P>(period: int, c: Client<P>, turn: Turn<P>)
    requires Online(c)
    ensures var t := AlivePart(period, c, turn);
            && AlarmAttempts(t.trace) == AlarmAttempts(c.trace)
            && JobAttempts(t.trace) == JobAttempts(c.trace) && t.jobs == c.jobs && t.alarms == c.alarms
            && (Online(t) <==> c.aliveTime < period || turn.aliveOk)
  {
    var id := c.socket.value;
    Logged(period, c.trace, Round(id));
    LoggedSent(period, c.trace + [Round(id)], Alive(id, c.aliveCounter, turn.aliveOk));
  }

  lemma SendsTry<P>(period: int, c: Client<P>, turn: Turn<P>)
    requires c.jobs != []
    ensures JobAttempts(JobPart(AlarmPart(c, turn), turn).trace)
            == JobAttempts(c.trace) + if Online(c) && (c.alarms == [] || turn.alarmOk) then [c.jobs[0]] else []
  {
    if Online(c) && c.alarms != [] {
      LoggedSent(period, c.trace, Alarm(c.socket.value, c.alarms[0], turn.alarmOk));
    }
    var s := AlarmPart(c, turn);
    if Online(s) {
      LoggedSent(period, s.trace, Job(s.socket.value, s.jobs[0], turn.jobOk));
    }
  }

  /**
   A connected turn attempts the oldest job packet exactly when neither the alive packet nor the
   alarm before it fails.
   */
  lemma {:induction false} JobProgress<P>(period: int, c: Client<P>, turn: Turn<P>)
    requires Online(c) && c.jobs + turn.jobs != []
    ensures var sent := (c.aliveTime < period || turn.aliveOk) && (c.alarms + turn.alarms == [] || turn.alarmOk);
            JobAttempts(Step(period, c, turn).trace)
            == JobAttempts(c.trace) + if sent then [(c.jobs + turn.jobs)[0]] else []
  {
    var q := c.(alarms := c.alarms + turn.alarms, jobs := c.jobs + turn.jobs);
    AliveTries(period, q, turn);
    SendsTry(period, AlivePart(period, q, turn), turn);
  }

  /** And the oldest alarm exactly when the alive packet does not fail. */
  lemma {:induction false} AlarmProgress<P>(period: int, c: Client<P>, turn: Turn<P>)
    requires Online(c) && c.alarms + turn.alarms != []
    ensures AlarmAttempts(Step(period, c, turn).trace)
            == AlarmAttempts(c.trace)
               + if c.aliveTime < period || turn.aliveOk then [(c.alarms + turn.alarms)[0]] else []
  {
    var q := c.(alarms := c.alarms + turn.alarms, jobs := c.jobs + turn.jobs);
    AliveTries(period, q, turn);
    var r := AlivePart(period, q, turn);
    if Online(r) {
      LoggedSent(period, r.trace, Alarm(r.socket.value, r.alarms[0], turn.alarmOk));
    }
    var s := AlarmPart(r, turn);
    if Online(s) && s.jobs != [] {
      LoggedSent(period, s.trace, Job(s.socket.value, s.jobs[0], turn.jobOk));
    }
  }

  /** The sends a turn adds to the trace end as the network has it in that turn. */
  ghost predicate EndAs<P>(trace: seq<Event<P>>, n: nat, turn: Turn<P>) {
    forall k {:trigger trace[k]} :: n <= k < |trace| ==>
      && (trace[k].Alive? ==> trace[k].ok == turn.aliveOk)
      && (trace[k].Alarm? ==> trace[k].ok == turn.alarmOk)
      && (trace[k].Job? ==> trace[k].ok == turn.jobOk)
  }

  lemma EndAsSent<P>(trace: seq<Event<P>>, n: nat, e: Event<P>, turn: Turn<P>)
    requires IsSend(e) && EndAs(trace, n, turn) && EndAs([e], 0, turn)
    ensures EndAs(trace + Sent(e), n, turn) && trace <= trace + Sent(e)
  {
    assert [e][0] == e;
  }

  lemma {:induction false} TurnsOutcomes<P>(period: int, c: Client<P>, turn: Turn<P>)
    ensures var t := Step(period, c, turn); c.trace <= t.trace && EndAs(t.trace, |c.trace|, turn)
  {
    var q := c.(alarms := c.alarms + turn.alarms, jobs := c.jobs + turn.jobs);
    if Online(q) {
      var n, id := |c.trace|, q.socket.value;
      assert EndAs(q.trace + [Round(id)], n, turn);
      OutcomeOf(Alive(id, q.aliveCounter, turn.aliveOk), turn);
      hide Sent, EndAs;
      if q.aliveTime >= period {
        EndAsSent(q.trace + [Round(id)], n, Alive(id, q.aliveCounter, turn.aliveOk), turn);
      }
      SendsEndAs(AlivePart(period, q, turn), n, turn);
    }
  }

  lemma OutcomeOf<P>(e: Event<P>, turn: Turn<P>)
    requires IsSend(e) && e.ok == (if e.Alive? then turn.aliveOk else if e.Alarm? then turn.alarmOk else turn.jobOk)
    ensures EndAs([e], 0, turn)
  {
  }

  lemma SendsEndAs<P>(r: Client<P>, n: nat, turn: Turn<P>)
    requires EndAs(r.trace, n, turn)
    ensures var t := JobPart(AlarmPart(r, turn), turn); r.trace <= t.trace && EndAs(t.trace, n, turn)
  {
    hide Sent, EndAs;
    if Online(r) && r.alarms != [] {
      OutcomeOf(Alarm(r.socket.value, r.alarms[0], turn.alarmOk), turn);
      EndAsSent(r.trace, n, Alarm(r.socket.value, r.alarms[0], turn.alarmOk), turn);
    }
    var s := AlarmPart(r, turn);
    if Online(s) && s.jobs != [] {
      OutcomeOf(Job(s.socket.value, s.jobs[0], turn.jobOk), turn);
      EndAsSent(s.trace, n, Job(s.socket.value, s.jobs[0], turn.jobOk), turn);
    }
  }

  /** The network lets everything through. */
  predicate Healthy<P>(turn: Turn<P>) {
    turn.connects && turn.aliveOk && turn.alarmOk && turn.jobOk
  }

  /** Turns before the client is connected, when the network is well. */
  function Wait<P>(c: Client<P>): nat {
    if c.socket.None? then 2 else if !c.isConnected then 1 else 0
  }

  lemma HealthyRound<P>(period: int, c: Client<P>, turn: Turn<P>)
    requires Online(c) && Healthy(turn)
    ensures var t := JobPart(AlarmPart(AlivePart(period, c, turn), turn), turn);
            Online(t) && |t.jobs| == if c.jobs == [] then 0 else |c.jobs| - 1
  {
  }

  lemma HealthyStep<P>(period: int, c: Client<P>, turn: Turn<P>)
    requires (c.isConnected ==> c.socket.Some?) && Healthy(turn)
    ensures var t, held := Step(period, c, turn), |c.jobs| + |turn.jobs|;
            && (t.isConnected ==> t.socket.Some?)
            && Wait(t) == (if Wait(c) == 0 then 0 else Wait(c) - 1)
            && |t.jobs| == if Wait(c) > 0 || held == 0 then held else held - 1
  {
    var q := c.(alarms := c.alarms + turn.alarms, jobs := c.jobs + turn.jobs);
    if Online(q) {
      HealthyRound(period, q, turn);
    }
  }

  /** How many job packets were pushed. */
  function Arrived<P>(turns: seq<Turn<P>>): nat {
    if turns == [] then 0 else Arrived(turns[..|turns| - 1]) + |turns[|turns| - 1].jobs|
  }

  lemma ArrivedSuffix<P>(turns: seq<Turn<P>>, k: nat)
    requires k < |turns|
    ensures Arrived(turns[k..]) == Arrived(turns[..|turns| - 1][k..]) + |turns[|turns| - 1].jobs|
  {
    assert turns[k..][..|turns| - k - 1] == turns[..|turns| - 1][k..];
  }

  /**
   The queue has at most m packets: neither the packets held and pushed since the start, less one
   for every connected turn, nor those pushed in the last turns, less one for every turn, exceed m.
   */
  ghost predicate BacklogWithin<P>(held: nat, w: nat, turns: seq<Turn<P>>, m: int) {
    && held + Arrived(turns) - (|turns| - w) <= m
    && forall k: nat {:trigger turns[k..]} :: w <= k <= |turns| ==> Arrived(turns[k..]) - (|turns| - k) <= m
  }

  lemma BacklogStep<P>(held: nat, w: nat, turns: seq<Turn<P>>, m: nat)
    requires w < |turns|
    ensures var before, a := turns[..|turns| - 1], |turns[|turns| - 1].jobs|;
            BacklogWithin(held, w, turns, m) <==> a <= m + 1 && BacklogWithin(held, w, before, m + 1 - a)
  {
    var n := |turns| - 1;
    var before, a := turns[..n], |turns[n].jobs|;
    assert turns[n + 1..] == [];
    assert turns[n..] == [turns[n]] && Arrived([turns[n]]) == a by {
      assert [turns[n]][..0] == [];
    }
    forall k: nat | k <= n ensures Arrived(turns[k..]) == Arrived(before[k..]) + a {
      ArrivedSuffix(turns, k);
    }
    if BacklogWithin(held, w, turns, m) {
      assert Arrived(turns[n..]) - 1 <= m;
      forall k: nat | w <= k <= n ensures Arrived(before[k..]) - (n - k) <= m + 1 - a {
        assert Arrived(turns[k..]) - (n + 1 - k) <= m;
      }
    }
    if a <= m + 1 && BacklogWithin(held, w, before, m + 1 - a) {
      forall k: nat | w <= k <= n + 1 ensures Arrived(turns[k..]) - (n + 1 - k) <= m {
        if k <= n {
          assert Arrived(before[k..]) - (n - k) <= m + 1 - a;
        }
      }
    }
  }

  /**
   While the network is well, whatever is pushed meanwhile: the client is connected after at most
   two turns and stays so, nothing leaves the queue before, and from then on its length is exactly
   that of a queue that gets rid of one job packet a turn.
   */
  lemma {:induction false} HealthyLinkDrains<P>(period: int, c: Client<P>, turns: seq<Turn<P>>, m: nat)
    requires (c.isConnected ==> c.socket.Some?) && forall turn <- turns :: Healthy(turn)
    ensures var t := After(period, c, turns);
            && (t.isConnected ==> t.socket.Some?)
            && Wait(t) == (if |turns| <= Wait(c) then Wait(c) - |turns| else 0)
            && (|turns| <= Wait(c) ==> |t.jobs| == |c.jobs| + Arrived(turns))
            && (|turns| >= Wait(c) ==> Online(t) && (|t.jobs| <= m <==> BacklogWithin(|c.jobs|, Wait(c), turns, m)))
    decreases |turns|
  {
    if turns != [] {
      var n := |turns| - 1;
      var before, a := turns[..n], |turns[n].jobs|;
      HealthyLinkDrains(period, c, before, if a <= m + 1 then m + 1 - a else 0);
      assert Healthy(turns[n]);
      HealthyStep(period, After(period, c, before), turns[n]);
      if |turns| > Wait(c) {
        BacklogStep(|c.jobs|, Wait(c), turns, m);
      }
    }
    if |turns| == Wait(c) {
      assert turns[|turns|..] == [];
    }
  }

  /** So a queue nothing is pushed to is empty after one turn for every packet, and the two to connect. */
  lemma {:induction false} QuietQueueEmpties<P>(period: int, c: Client<P>, turns: seq<Turn<P>>)
    requires (c.isConnected ==> c.socket.Some?) && forall turn <- turns :: Healthy(turn) && turn.jobs == []
    requires |turns| >= |c.jobs| + Wait(c)
    ensures After(period, c, turns).jobs == [] && Online(After(period, c, turns))
  {
    forall k: nat | k <= |turns| ensures Arrived(turns[k..]) == 0 {
      NothingArrives(turns[k..]);
    }
    assert turns[0..] == turns;
    HealthyLinkDrains(period, c, turns, 0);
  }

  lemma {:induction false} NothingArrives<P>(turns: seq<Turn<P>>)
    requires forall turn <- turns :: turn.jobs == []
    ensures Arrived(turns) == 0
  {
    if turns != [] {
      NothingArrives(turns[..|turns| - 1]);
    }
  }

  // ----- What acceptance means -----

  function Opened<P>(trace: seq<Event<P>>): seq<nat> {
    if trace == [] then []
    else Opened(trace[..|trace| - 1]) + if trace[|trace| - 1].Created? then [trace[|trace| - 1].id] else []
  }

  function Shut<P>(trace: seq<Event<P>>): seq<nat> {
    if trace == [] then []
    else Shut(trace[..|trace| - 1]) + if trace[|trace| - 1].Closed? then [trace[|trace| - 1].id] else []
  }

  function UpTo(n: nat): seq<nat> { seq(n, i => i) }

  /**
   Sockets are created and closed one after the other, each closed exactly once; none is left when
   the observer ends without one.
   */
  lemma {:induction false} SocketsBalance<P>(period: int, trace: seq<Event<P>>)
    requires Watch(period, trace).Accepted?
    ensures var m := Watch(period, trace).m;
            && Opened(trace) == UpTo(m.sockets)
            && (m.link.Down? ==> Shut(trace) == UpTo(m.sockets))
            && (!m.link.Down? ==> m.sockets > 0 && Shut(trace) == UpTo(m.sockets - 1))
  {
    if trace != [] {
      SocketsBalance(period, trace[..|trace| - 1]);
    }
  }

  predicate IsSend<P>(e: Event<P>) { e.Alive? || e.Alarm? || e.Job? }

  /** A send happens on the current socket, while it is up. */
  lemma SendNeedsUp<P>(period: int, trace: seq<Event<P>>, j: nat)
    requires Watch(period, trace).Accepted? && j < |trace| && IsSend(trace[j])
    ensures Watch(period, trace[..j]).Accepted?
    ensures Watch(period, trace[..j]).m.link.Up? && Watch(period, trace[..j]).m.sockets == trace[j].id + 1
  {
    PrefixAccepted(period, trace, j + 1);
    assert trace[..j + 1][..j] == trace[..j];
  }

  /** A close, or a send that fails, leaves its socket behind for good. */
  lemma EndOfSocket<P>(period: int, trace: seq<Event<P>>, i: nat)
    requires Watch(period, trace).Accepted? && i < |trace|
    requires trace[i].Closed? || (IsSend(trace[i]) && !trace[i].ok)
    ensures var v := Watch(period, trace[..i + 1]);
            v.Accepted? && v.m.sockets == trace[i].id + 1 && (v.m.link.Down? || v.m.link.Broken?)
  {
    PrefixAccepted(period, trace, i + 1);
    assert trace[..i + 1][..i] == trace[..i];
  }

  /** Nothing is sent on a socket before it is connected, after a send on it failed, or after it was closed. */
  lemma {:induction false} SendsOnlyWhileUp<P>(period: int, trace: seq<Event<P>>, i: nat, j: nat)
    requires Watch(period, trace).Accepted? && i < j < |trace| && IsSend(trace[j])
    requires trace[i].id == trace[j].id
    ensures !trace[i].Closed?
    ensures IsSend(trace[i]) ==> trace[i].ok
    ensures exists k: nat :: k < j && trace[k] == Connected(trace[j].id)
  {
    SendNeedsUp(period, trace, j);
    ConnectedBefore(period, trace[..j]);
    hide Watch;
    var k: nat :| k < j && trace[..j][k] == Connected(trace[j].id);
    assert trace[k] == Connected(trace[j].id);
    if trace[i].Closed? || (IsSend(trace[i]) && !trace[i].ok) {
      EndOfSocket(period, trace, i);
      assert trace[..j][..i + 1] == trace[..i + 1];
      StaysDead(period, trace[..j], i + 1);
    }
  }

  lemma {:induction false} PrefixAccepted<P>(period: int, trace: seq<Event<P>>, n: nat)
    requires Watch(period, trace).Accepted? && n <= |trace|
    ensures Watch(period, trace[..n]).Accepted?
  {
    if n < |trace| {
      PrefixAccepted(period, trace[..|trace| - 1], n);
      assert trace[..|trace| - 1][..n] == trace[..n];
    } else {
      assert trace[..n] == trace;
    }
  }

  lemma {:induction false} ConnectedBefore<P>(period: int, trace: seq<Event<P>>)
    requires Watch(period, trace).Accepted?
    requires Watch(period, trace).m.link.Up?
    ensures var m := Watch(period, trace).m;
        m.sockets > 0 && exists k: nat :: k < |trace| && trace[k] == Connected(m.sockets - 1)
  {
    var n := |trace| - 1;
    var m := Watch(period, trace).m;
    if trace[n].Connected? {
      assert trace[n] == Connected(m.sockets - 1);
    } else {
      ConnectedBefore(period, trace[..n]);
      var k: nat :| k < n && trace[..n][k] == Connected(m.sockets - 1);
      assert trace[k] == Connected(m.sockets - 1);
    }
  }

  /** A socket once broken or closed is never up again. */
  lemma {:induction false} StaysDead<P>(period: int, trace: seq<Event<P>>, n: nat)
    requires Watch(period, trace).Accepted? && n <= |trace| && Watch(period, trace[..n]).Accepted?
    ensures var a, b := Watch(period, trace[..n]).m, Watch(period, trace).m;
            && a.sockets <= b.sockets
            && (a.link.Down? || a.link.Broken? ==> (b.link.Up? || b.link.Fresh?) ==> a.sockets < b.sockets)
            && (!a.link.Fresh? ==> b.link.Fresh? ==> a.sockets < b.sockets)
  {
    if n < |trace| {
      assert trace[..|trace| - 1][..n] == trace[..n];
      StaysDead(period, trace[..|trace| - 1], n);
    } else {
      assert trace[..n] == trace;
    }
  }

  predicate IsTry<P>(e: Event<P>) { e.Connected? || e.Refused? }

  /** A socket is tried while it is fresh, and is not fresh afterwards. */
  lemma TryNeedsFresh<P>(period: int, trace: seq<Event<P>>, j: nat)
    requires Watch(period, trace).Accepted? && j < |trace| && IsTry(trace[j])
    ensures Watch(period, trace[..j]).Accepted? && Watch(period, trace[..j + 1]).Accepted?
    ensures var a, b := Watch(period, trace[..j]).m, Watch(period, trace[..j + 1]).m;
            a.link.Fresh? && !b.link.Fresh? && a.sockets == b.sockets == trace[j].id + 1
  {
    PrefixAccepted(period, trace, j + 1);
    assert trace[..j + 1][..j] == trace[..j];
  }

  /** No socket is connected twice: a refused one is given up, a lost one is not connected again. */
  lemma {:induction false} TriedOnce<P>(period: int, trace: seq<Event<P>>, i: nat, j: nat)
    requires Watch(period, trace).Accepted? && i < j < |trace| && IsTry(trace[i]) && IsTry(trace[j])
    ensures trace[i].id < trace[j].id
  {
    TryNeedsFresh(period, trace, i);
    TryNeedsFresh(period, trace, j);
    hide Watch;
    assert trace[..j][..i + 1] == trace[..i + 1];
    StaysDead(period, trace[..j], i + 1);
  }

  // ----- What a turn leaves in the trace -----

  predicate IsMark<P>(e: Event<P>) { e.Created? || e.Connected? || e.Refused? || e.Round? }

  function MarksOf<P>(trace: seq<Event<P>>): seq<Event<P>> {
    if trace == [] then []
    else MarksOf(trace[..|trace| - 1]) + if IsMark(trace[|trace| - 1]) then [trace[|trace| - 1]] else []
  }

  lemma MarksSnoc<P>(trace: seq<Event<P>>, e: Event<P>)
    ensures MarksOf(trace + [e]) == MarksOf(trace) + if IsMark(e) then [e] else []
  {
    assert (trace + [e])[..|trace|] == trace;
  }

  lemma MarksSent<P>(trace: seq<Event<P>>, e: Event<P>)
    requires IsSend(e)
    ensures MarksOf(trace + Sent(e)) == MarksOf(trace)
  {
    MarksSnoc(trace, e);
    MarksSnoc(trace + [e], Closed(e.id));
    assert trace + [e, Closed(e.id)] == trace + [e] + [Closed(e.id)];
  }

  /** The mark a turn leaves. */
  function MarkOf<P>(c: Client<P>, turn: Turn<P>): Event<P> {
    if c.socket.None? then Created(c.sockets)
    else if c.isConnected then Round(c.socket.value)
    else if turn.connects then Connected(c.socket.value) else Refused(c.socket.value)
  }

  lemma RoundMark<P>(period: int, c: Client<P>, turn: Turn<P>)
    requires Online(c)
    ensures MarksOf(JobPart(AlarmPart(AlivePart(period, c, turn), turn), turn).trace)
            == MarksOf(c.trace) + [Round(c.socket.value)]
  {
    var id := c.socket.value;
    MarksSnoc(c.trace, Round(id));
    hide MarksOf, Sent;
    if c.aliveTime >= period {
      MarksSent(c.trace + [Round(id)], Alive(id, c.aliveCounter, turn.aliveOk));
    }
    var r := AlivePart(period, c, turn);
    if Online(r) && r.alarms != [] {
      MarksSent(r.trace, Alarm(r.socket.value, r.alarms[0], turn.alarmOk));
    }
    var s := AlarmPart(r, turn);
    if Online(s) && s.jobs != [] {
      MarksSent(s.trace, Job(s.socket.value, s.jobs[0], turn.jobOk));
    }
  }

  lemma TurnMark<P>(period: int, c: Client<P>, turn: Turn<P>)
    ensures MarksOf(Step(period, c, turn).trace) == MarksOf(c.trace) + [MarkOf(c, turn)]
  {
    var q := c.(alarms := c.alarms + turn.alarms, jobs := c.jobs + turn.jobs);
    if Online(q) {
      RoundMark(period, q, turn);
    } else if q.socket.Some? && !turn.connects {
      var id := q.socket.value;
      MarksSnoc(q.trace, Refused(id));
      MarksSnoc(q.trace + [Refused(id)], Closed(id));
      assert q.trace + [Refused(id), Closed(id)] == q.trace + [Refused(id)] + [Closed(id)];
    } else {
      MarksSnoc(q.trace, MarkOf(c, turn));
    }
  }

  /**
   Over every run each turn leaves exactly one mark, in order: it creates a socket, tries to connect
   it with the outcome of that turn, or is a round of a connected client. None is idle.
   */
  lemma {:induction false} TurnsMarked<P>(period: int, turns: seq<Turn<P>>)
    ensures var marks := MarksOf(After(period, Launched(), turns).trace);
            && |marks| == |turns|
            && forall k :: 0 <= k < |turns| ==>
                 (marks[k].Connected? ==> turns[k].connects) && (marks[k].Refused? ==> !turns[k].connects)
  {
    if turns != [] {
      var before := turns[..|turns| - 1];
      TurnsMarked(period, before);
      TurnMark(period, After(period, Launched(), before), turns[|turns| - 1]);
    }
  }

  /** What a client that never gets through has done after n turns. */
  ghost predicate Refusals<P>(trace: seq<Event<P>>, n: nat) {
    && |trace| == 3 * (n / 2) + n % 2 && (n % 2 == 1 ==> trace[|trace| - 1] == Created(n / 2))
    && forall i: nat {:trigger trace[3 * i]} :: i < n / 2 ==>
         trace[3 * i] == Created(i) && trace[3 * i + 1] == Refused(i) && trace[3 * i + 2] == Closed(i)
  }

  /** The client after n turns without a server. */
  ghost predicate Unserved<P>(c: Client<P>, n: nat) {
    && Refusals(c.trace, n) && c.sockets == (n + 1) / 2 && !c.isConnected
    && c.socket == if n % 2 == 0 then None else Some(n / 2)
  }

  /** A server that is down: every second turn creates the next socket, and the turn after it gives it up. */
  lemma {:induction false} NoServer<P>(period: int, turns: seq<Turn<P>>)
    requires forall turn <- turns :: !turn.connects
    ensures Unserved(After(period, Launched(), turns), |turns|)
  {
    if turns == [] {
      assert Refusals<P>([], 0);
    } else {
      var n := |turns| - 1;
      NoServer(period, turns[..n]);
      assert turns[n] in turns;
      DownStep(period, After(period, Launched(), turns[..n]), turns[n], n);
    }
  }

  lemma DownStep<P>(period: int, b: Client<P>, turn: Turn<P>, n: nat)
    requires Unserved(b, n) && !turn.connects
    ensures Unserved(Step(period, b, turn), n + 1)
  {
    DownTurn(period, b, turn);
    hide Refusals, Step;
    if n % 2 == 0 {
      RefusalsCreate(b.trace, n);
    } else {
      RefusalsRefuse(b.trace, n);
    }
  }

  lemma DownTurn<P>(period: int, b: Client<P>, turn: Turn<P>)
    requires !turn.connects && !b.isConnected
    ensures var t := Step(period, b, turn);
            && !t.isConnected && t.jobs == b.jobs + turn.jobs && t.alarms == b.alarms + turn.alarms
            && (if b.socket.None? then
                  t.trace == b.trace + [Created(b.sockets)] && t.socket == Some(b.sockets) && t.sockets == b.sockets + 1
                else
                  && t.trace == b.trace + [Refused(b.socket.value), Closed(b.socket.value)]
                  && t.socket == None && t.sockets == b.sockets)
  {
  }

  lemma RefusalsCreate<P>(trace: seq<Event<P>>, n: nat)
    requires Refusals(trace, n) && n % 2 == 0
    ensures Refusals(trace + [Created(n / 2)], n + 1)
  {
    var all := trace + [Created(n / 2)];
    assert forall k :: 0 <= k < |trace| ==> all[k] == trace[k];
  }

  lemma RefusalsRefuse<P>(trace: seq<Event<P>>, n: nat)
    requires Refusals(trace, n) && n % 2 == 1
    ensures Refusals(trace + [Refused(n / 2), Closed(n / 2)], n + 1)
  {
    var h := n / 2;
    var all := trace + [Refused(h), Closed(h)];
    assert |trace| == 3 * h + 1 && (n + 1) / 2 == h + 1;
    forall i: nat | i < h + 1
      ensures all[3 * i] == Created(i) && all[3 * i + 1] == Refused(i) && all[3 * i + 2] == Closed(i)
    {
      if i < h {
        assert all[3 * i] == trace[3 * i] && all[3 * i + 1] == trace[3 * i + 1] && all[3 * i + 2] == trace[3 * i + 2];
      }
    }
  }

  /** How many alive packets a number of connected rounds calls for. */
  function Quota(period: int, rounds: nat): nat {
    if rounds == 0 then 0 else if period <= 0 then rounds else (rounds - 1) / period
  }

  /**
   The number of alive packets attempted depends on the connected rounds alone, one for
   every full period, however often the connection was lost and made again in between.
   */
  lemma {:induction false} AliveSchedule<P>(period: int, trace: seq<Event<P>>)
    requires Watch(period, trace).Accepted?
    ensures var m := Watch(period, trace).m; m.alives + (if m.owing then 1 else 0) == Quota(period, m.rounds)
  {
    if trace != [] {
      var n := |trace| - 1;
      AliveSchedule(period, trace[..n]);
      if trace[n].Round? {
        QuotaStep(period, Watch(period, trace[..n]).m.rounds);
      }
    }
  }

  /**
   An alive packet is attempted in a round after a full number of periods: as many as were attempted
   before, and one.
   */
  lemma {:induction false} AliveAt<P>(period: int, trace: seq<Event<P>>)
    requires period > 0 && Watch(period, trace).Accepted? && Watch(period, trace).m.owing
    ensures var m := Watch(period, trace).m; m.rounds == (m.alives + 1) * period + 1
  {
    var n := |trace| - 1;
    var before := Watch(period, trace[..n]).m;
    AliveSchedule(period, trace);
    DueAfter(period, before.rounds);
  }

  lemma DueAfter(period: int, rounds: nat)
    requires period > 0 && Due(period, rounds)
    ensures rounds == Quota(period, rounds + 1) * period
  {
  }

  lemma {:induction false} AlivesGrow<P>(period: int, trace: seq<Event<P>>, n: nat)
    requires Watch(period, trace).Accepted? && n < |trace| && trace[n].Alive?
    ensures Watch(period, trace[..n]).Accepted? && Watch(period, trace).m.alives > Watch(period, trace[..n]).m.alives
  {
    PrefixAccepted(period, trace, n);
    if n < |trace| - 1 {
      assert trace[..|trace| - 1][..n] == trace[..n];
      AlivesGrow(period, trace[..|trace| - 1], n);
    }
  }

  lemma AliveOwing<P>(period: int, trace: seq<Event<P>>, i: nat)
    requires Watch(period, trace).Accepted? && i < |trace| && trace[i].Alive?
    ensures Watch(period, trace[..i]).Accepted? && Watch(period, trace[..i]).m.owing
  {
    PrefixAccepted(period, trace, i + 1);
    assert trace[..i + 1][..i] == trace[..i];
  }

  /** Between two attempts at an alive packet there is a full period of connected rounds. */
  lemma {:induction false} AlivesApart<P>(period: int, trace: seq<Event<P>>, i: nat, j: nat)
    requires period > 0 && Watch(period, trace).Accepted? && i < j < |trace| && trace[i].Alive? && trace[j].Alive?
    ensures Watch(period, trace[..i]).Accepted? && Watch(period, trace[..j]).Accepted?
    ensures Watch(period, trace[..j]).m.rounds >= Watch(period, trace[..i]).m.rounds + period
  {
    AliveOwing(period, trace, i);
    AliveOwing(period, trace, j);
    var a, b := trace[..i], trace[..j];
    assert b[..i] == a && b[i] == trace[i];
    AliveAt(period, a);
    AliveAt(period, b);
    AlivesGrow(period, b, i);
    Spaced(Watch(period, a).m.alives, Watch(period, b).m.alives, period);
  }

  lemma {:induction false} AlivesSame<P>(period: int, trace: seq<Event<P>>, p: nat, q: nat)
    requires Watch(period, trace).Accepted? && p <= q <= |trace|
    requires forall k :: p <= k < q ==> !trace[k].Alive?
    ensures Watch(period, trace[..p]).Accepted? && Watch(period, trace[..q]).Accepted?
    ensures Watch(period, trace[..q]).m.alives == Watch(period, trace[..p]).m.alives
  {
    PrefixAccepted(period, trace, q);
    if p < q {
      AlivesSame(period, trace, p, q - 1);
      assert trace[..q][..q - 1] == trace[..q - 1];
    }
  }

  lemma OwingWhileUp<P>(period: int, trace: seq<Event<P>>)
    requires Watch(period, trace).Accepted? && Watch(period, trace).m.owing
    ensures Watch(period, trace).m.link.Up?
  {
  }

  lemma QuotaBelow(period: int, rounds: nat)
    requires period > 0
    ensures Quota(period, rounds) * period <= rounds
    ensures rounds > 0 ==> Quota(period, rounds) * period < rounds
  {
  }

  /**
   The first alive packet after a connect comes no later than the connected round after a full
   period, and in that round exactly when no connected round came before the connect.
   */
  lemma {:induction false} FirstAliveAfter<P>(period: int, trace: seq<Event<P>>, p: nat, q: nat)
    requires period > 0 && Watch(period, trace).Accepted? && p < q < |trace|
    requires trace[p].Connected? && trace[q].Alive? && forall k :: p < k < q ==> !trace[k].Alive?
    ensures Watch(period, trace[..p]).Accepted? && Watch(period, trace[..q]).Accepted?
    ensures var r0, r1 := Watch(period, trace[..p]).m.rounds, Watch(period, trace[..q]).m.rounds;
            r0 < r1 <= r0 + period + 1 && (r1 == r0 + period + 1 <==> r0 == 0)
  {
    AlivesSame(period, trace, p, q);
    AliveOwing(period, trace, q);
    AliveAt(period, trace[..q]);
    NotOwing(period, trace, p);
    AliveSchedule(period, trace[..p]);
    QuotaBelow(period, Watch(period, trace[..p]).m.rounds);
    QuotaAbove(period, Watch(period, trace[..p]).m.rounds);
    Distribute(Quota(period, Watch(period, trace[..p]).m.rounds), period);
  }

  function Quiet<P>(): Turn<P> { Turn([], [], true, true, true, true) }

  function Quiets<P>(n: nat): seq<Turn<P>> { seq(n, _ => Quiet()) }

  function Rounds<P>(id: nat, n: nat): seq<Event<P>> { seq(n, _ => Round(id)) }

  lemma {:induction false} AfterAppend<P>(period: int, c: Client<P>, a: seq<Turn<P>>, b: seq<Turn<P>>)
    ensures After(period, c, a + b) == After(period, After(period, c, a), b)
    decreases |b|
  {
    if b == [] {
      assert a + b == a;
    } else {
      assert (a + b)[..|a + b| - 1] == a + b[..|b| - 1];
      AfterAppend(period, c, a, b[..|b| - 1]);
    }
  }

  lemma QuietRound<P>(period: int, d: Client<P>)
    requires Online(d) && d.alarms == [] && d.jobs == [] && d.aliveTime < period
    ensures Step(period, d, Quiet())
         == d.(trace := d.trace + [Round(d.socket.value)], aliveTime := d.aliveTime + 1)
  {
  }

  lemma {:induction false} QuietRounds<P>(period: int, c: Client<P>, n: nat)
    requires Online(c) && c.alarms == [] && c.jobs == [] && c.aliveTime + n <= period
    ensures After(period, c, Quiets(n))
         == c.(trace := c.trace + Rounds(c.socket.value, n), aliveTime := c.aliveTime + n)
  {
    if n > 0 {
      QuietRounds(period, c, n - 1);
      assert Quiets<P>(n)[..n - 1] == Quiets(n - 1);
      var d := After(period, c, Quiets(n - 1));
      hide Step;
      QuietRound(period, d);
      assert Rounds<P>(c.socket.value, n - 1) + [Round(c.socket.value)] == Rounds(c.socket.value, n);
    } else {
      assert c.trace + Rounds(c.socket.value, 0) == c.trace;
    }
  }

  /** A connection that breaks in its first round, and the next one. */
  function BrokenOnce<P>(x: P): seq<Turn<P>> {
    [Quiet(), Quiet(), Turn([x], [], true, true, false, true), Quiet(), Quiet()]
  }

  function BrokenTrace<P>(x: P): seq<Event<P>> {
    [Created(0), Connected(0), Round(0), Alarm(0, x, false), Closed(0), Created(1), Connected(1)]
  }

  lemma Reconnected<P>(period: int, x: P)
    requires period > 0
    ensures After(period, Launched(), BrokenOnce(x))
         == Client(BrokenTrace(x), [], [], Some(1), true, 1, 2, 0)
  {
    var quiet: Turn<P> := Quiet();
    var breaks := Turn([x], [], true, true, false, true);
    var c0: Client<P> := Launched();
    var c1, c2 := Step(period, c0, quiet), Step(period, Step(period, c0, quiet), quiet);
    FirstRound(period, x);
    assert BrokenOnce(x) == [quiet] + [quiet] + [breaks] + [quiet] + [quiet];
    hide After, Step;
    AfterOne(period, c0, quiet);
    AfterOne(period, c1, quiet);
    AfterAppend(period, c0, [quiet], [quiet]);
    AfterOne(period, c2, breaks);
    AfterAppend(period, c0, [quiet] + [quiet], [breaks]);
    var c3 := Step(period, c2, breaks);
    AfterOne(period, c3, quiet);
    AfterAppend(period, c0, [quiet] + [quiet] + [breaks], [quiet]);
    var c4 := Step(period, c3, quiet);
    AfterOne(period, c4, quiet);
    AfterAppend(period, c0, [quiet] + [quiet] + [breaks] + [quiet], [quiet]);
    SecondConnect(period, x);
  }

  /** The socket is created, connected, and lost in its first round. */
  lemma FirstRound<P>(period: int, x: P)
    requires period > 0
    ensures var c2 := Step(period, Step(period, Launched(), Quiet()), Quiet());
            Step(period, c2, Turn([x], [], true, true, false, true))
            == Client(BrokenTrace(x)[..5], [], [], None, false, 1, 1, 0)
  {
    FirstConnect<P>(period);
    hide Step;
    RoundBreaks(period, x);
    assert BrokenTrace(x)[..5] == [Created(0), Connected(0)] + [Round(0)] + [Alarm(0, x, false), Closed(0)];
  }

  lemma FirstConnect<P>(period: int)
    ensures Step<P>(period, Step(period, Launched(), Quiet()), Quiet())
         == Client([Created(0), Connected(0)], [], [], Some(0), true, 0, 1, 0)
  {
    var created: seq<Event<P>> := [Created(0)];
    assert created + [Connected(0)] == [Created(0), Connected(0)];
  }

  lemma RoundBreaks<P>(period: int, x: P)
    requires period > 0
    ensures Step(period, Client([Created(0), Connected(0)], [], [], Some(0), true, 0, 1, 0),
                 Turn([x], [], true, true, false, true))
         == Client([Created(0), Connected(0)] + [Round(0)] + [Alarm(0, x, false), Closed(0)],
                   [], [], None, false, 1, 1, 0)
  {
  }

  /** A new one is created and connected. */
  lemma SecondConnect<P>(period: int, x: P)
    ensures var c3 := Client(BrokenTrace(x)[..5], [], [], None, false, 1, 1, 0);
            Step(period, Step(period, c3, Quiet()), Quiet()) == Client(BrokenTrace(x), [], [], Some(1), true, 1, 2, 0)
  {
    assert BrokenTrace(x)[..5] + [Created(1)] + [Connected(1)] == BrokenTrace(x);
  }

  lemma EarlyRun<P>(period: int, x: P)
    requires period > 0
    ensures After(period, Launched(), BrokenOnce(x) + Quiets(period - 1) + [Quiet()]).trace
         == BrokenTrace(x) + Rounds(1, period - 1) + [Round(1)] + [Alive(1, 0, true)]
  {
    Reconnected(period, x);
    hide After, Step, BrokenOnce, BrokenTrace, Quiets, Rounds;
    var first := BrokenOnce(x);
    var c := After(period, Launched(), first);
    QuietRounds(period, c, period - 1);
    AfterAppend(period, Launched(), first, Quiets(period - 1));
    AfterAppend(period, Launched(), first + Quiets(period - 1), [Quiet()]);
    var d := After(period, c, Quiets(period - 1));
    AfterOne(period, d, Quiet());
    LastRound(period, d);
  }

  /**
   A run in which it comes sooner: one connected round was spent on the connection before, so the
   first alive packet of the new one comes in its round number period, not in the one after.
   */
  lemma {:induction false} EarlyAlive<P>(period: int, x: P) returns (turns: seq<Turn<P>>, p: nat, q: nat)
    requires period > 0
    ensures var trace := After(period, Launched(), turns).trace;
            && p < q < |trace| && trace[p] == Connected(1) && trace[q] == Alive(1, 0, true)
            && q == p + period + 1 && forall k :: p < k < q ==> trace[k] == Round(1)
  {
    turns, p, q := BrokenOnce(x) + Quiets(period - 1) + [Quiet()], 6, 7 + period;
    EarlyRun(period, x);
    hide After, BrokenOnce, Quiets;
    EarlyTrace(BrokenTrace(x), period);
    var start, trace := BrokenTrace(x), After(period, Launched(), turns).trace;
    assert start[6] == Connected(1) && trace[..7] == start;
  }

  lemma AfterOne<P>(period: int, c: Client<P>, turn: Turn<P>)
    ensures After(period, c, [turn]) == Step(period, c, turn)
  {
    assert [turn][..0] == [];
  }

  lemma EarlyTrace<P>(start: seq<Event<P>>, period: nat)
    requires period > 0
    ensures var trace := start + Rounds(1, period - 1) + [Round(1)] + [Alive(1, 0, true)];
            && |trace| == |start| + period + 1 && start <= trace && trace[|start| + period] == Alive(1, 0, true)
            && forall k :: |start| <= k < |start| + period ==> trace[k] == Round(1)
  {
  }

  lemma LastRound<P>(period: int, c: Client<P>)
    requires Online(c) && c.alarms == [] && c.jobs == [] && c.aliveTime == period
    ensures Step(period, c, Quiet()).trace
         == c.trace + [Round(c.socket.value)] + [Alive(c.socket.value, c.aliveCounter, true)]
  {
  }

  lemma Distribute(q: nat, d: int)
    ensures (q + 1) * d == q * d + d
  {
  }

  lemma QuotaAbove(period: int, rounds: nat)
    requires period > 0
    ensures rounds <= Quota(period, rounds) * period + period
  {
  }

  lemma NotOwing<P>(period: int, trace: seq<Event<P>>, p: nat)
    requires Watch(period, trace).Accepted? && p < |trace| && trace[p].Connected?
    ensures Watch(period, trace[..p]).Accepted? && !Watch(period, trace[..p]).m.owing
  {
    PrefixAccepted(period, trace, p + 1);
    assert trace[..p + 1][..p] == trace[..p];
    if Watch(period, trace[..p]).m.owing {
      OwingWhileUp(period, trace[..p]);
    }
  }

  lemma {:induction false} Spaced(a: nat, b: nat, d: nat)
    requires a < b
    ensures (b + 1) * d >= (a + 1) * d + d
  {
    if a + 1 < b {
      Spaced(a, b - 1, d);
    }
    assert (b + 1) * d == b * d + d;
  }

  lemma QuotaStep(period: int, rounds: nat)
    ensures Quota(period, rounds + 1) == Quota(period, rounds) + if Due(period, rounds) then 1 else 0
  {
    if period > 0 && rounds > 0 {
      var q, r := (rounds - 1) / period, (rounds - 1) % period;
      assert rounds == q * period + (r + 1);
      if r + 1 < period {
        Quotient(period, q, r + 1);
      } else {
        assert rounds == (q + 1) * period + 0;
        Quotient(period, q + 1, 0);
      }
    }
  }

  lemma Quotient(d: int, q: nat, r: nat)
    requires 0 <= r < d
    ensures (q * d + r) % d == r && (q * d + r) / d == q
  {
    Remainder(d, q, r);
    var k := (q * d + r) / d - q;
    assert k * d == 0;
  }
}
