/**
 The lens driver: registers of two bytes behind a USB bridge, a busy bit that rises when a
 move starts and falls when it ends, a budget of polls for it, and for each axis a cached
 position. Every transfer's outcome is the environment's; one lens operation at a time.
 */
module Lens {

  type Byte = b: nat | b < 256
  type U16 = w: nat | w < 65536

  const SUCCESS := 0
  const LOWHI_ERROR := 0x50
  const HILOW_ERROR := 0x51
  const LOW_HIGH_WAIT := 20
  const WAIT_MAG := 1100
  const MINIMUM_WAIT := 2000
  const FOCUS_MASK: U16 := 0x0004
  const IRIS_MASK: U16 := 0x0008
  const DATA_LENGTH := 2
  const INIT_RUN_BIT: U16 := 0x0001
  const STATUS1: U16 := 0x0042
  const STATUS2: U16 := 0x0044
  const FOCUS_POSITION_VAL: U16 := 0x2000
  const FOCUS_INITIALIZE: U16 := 0x2008
  const IRIS_POSITION_VAL: U16 := 0x3000
  const IRIS_INITIALIZE: U16 := 0x3008

  // ----- Two-byte registers -----

  function Word(hi: Byte, lo: Byte): U16 { hi * 256 + lo }

  function High8(w: U16): Byte { w / 256 }

  function Low8(w: U16): Byte { w % 256 }

  /** What is written as two bytes is read back as it was, and the bytes of what is read are the bytes written. */
  lemma WordRoundTrip(w: U16, hi: Byte, lo: Byte)
    ensures Word(High8(w), Low8(w)) == w
    ensures High8(Word(hi, lo)) == hi && Low8(Word(hi, lo)) == lo
  {
  }

  /** What a write sends: the two bytes of the register's address, then the two bytes of the value. */
  function Command(segment: U16, data: U16): seq<Byte> {
    [High8(segment), Low8(segment), High8(data), Low8(data)]
  }

  /** The device reads off a command what was meant, and different commands look different. */
  lemma CommandTells(segment: U16, data: U16, segment2: U16, data2: U16)
    ensures var c := Command(segment, data);
            |c| == 4 && 256 * (c[0] as int) + c[1] == segment && 256 * (c[2] as int) + c[3] == data
    ensures Command(segment, data) == Command(segment2, data2) <==> segment == segment2 && data == data2
  {
    WordRoundTrip(segment, 0, 0);
    WordRoundTrip(segment2, 0, 0);
    WordRoundTrip(data, 0, 0);
    WordRoundTrip(data2, 0, 0);
    assert Command(segment, data) == Command(segment2, data2) ==>
      && Command(segment, data)[0] == Command(segment2, data2)[0]
      && Command(segment, data)[1] == Command(segment2, data2)[1]
      && Command(segment, data)[2] == Command(segment2, data2)[2]
      && Command(segment, data)[3] == Command(segment2, data2)[3];
  }

  // ----- One read of two bytes -----

  /** A response of the bridge. A successful one delivers 1 to 61 bytes. */
  datatype Response = Failed(code: int) | Data(bytes: seq<Byte>)

  /**
   A read of a register, and the outcomes of the calls it makes: three requests, then responses
   until there are two bytes.
   */
  datatype Transfer = Transfer(register: U16, write: int, read: int, force: int, responses: nat -> Response)

  ghost predicate Proper(t: Transfer) {
    forall i {:trigger t.responses(i)} ::
      match t.responses(i) case Failed(code) => code != SUCCESS case Data(bytes) => 1 <= |bytes| <= 61
  }

  datatype Outcome = Error(code: int) | Delivered(bytes: seq<Byte>)

  /** What a read comes to: two responses are always enough. */
  function Reading(t: Transfer): Outcome {
    if t.write != SUCCESS then Error(t.write)
    else if t.read != SUCCESS then Error(t.read)
    else if t.force != SUCCESS then Error(t.force)
    else
      match t.responses(0)
      case Failed(code) => Error(code)
      case Data(first) =>
        if |first| >= 2 then Delivered(first)
        else
          match t.responses(1)
          case Failed(code) => Error(code)
          case Data(second) => Delivered(first + second)
  }

  lemma ReadingSize(t: Transfer)
    requires Proper(t)
    ensures Reading(t).Delivered? ==> 2 <= |Reading(t).bytes| <= 62
    ensures Reading(t).Error? ==> Reading(t).code != SUCCESS
  {
    assert t.responses(0) == t.responses(0) && t.responses(1) == t.responses(1);
  }

  predicate Delivers(t: Transfer) { Reading(t).Delivered? && |Reading(t).bytes| >= 2 }

  /**
   A read delivers exactly when the three requests go out and the first response has two bytes or a
   second one comes, all of them in order; else its code is that of the first call that fails.
   */
  lemma {:induction false} ReadingTells(t: Transfer)
    requires Proper(t)
    ensures var first, second := t.responses(0), t.responses(1);
            && (Delivers(t) <==> t.write == 0 && t.read == 0 && t.force == 0 && first.Data?
                                 && (|first.bytes| >= 2 || second.Data?))
            && (Delivers(t) ==> 256 * (Reading(t).bytes[0] as int) + Reading(t).bytes[1] == WordOf(t)
                                && Reading(t).bytes[0] == first.bytes[0]
                                && Reading(t).bytes[1]
                                   == if |first.bytes| >= 2 then first.bytes[1] else second.bytes[0])
            && (!Delivers(t) ==> Reading(t) == Error(if t.write != 0 then t.write else if t.read != 0 then t.read
                                                    else if t.force != 0 then t.force
                                                    else if first.Failed? then first.code else second.code))
  {
    assert t.responses(0) == t.responses(0) && t.responses(1) == t.responses(1);
  }

  predicate Fails(t: Transfer, code: int) { code != SUCCESS && Reading(t) == Error(code) }

  function WordOf(t: Transfer): U16
    requires Delivers(t)
  {
    Word(Reading(t).bytes[0], Reading(t).bytes[1])
  }

  // ----- Waiting for the busy bit -----

  /** The bits of a word under a mask. */
  function Masked(w: U16, mask: U16): nat { ((w as bv16) & (mask as bv16)) as nat }

  predicate AllSet(t: Transfer, mask: U16) { Delivers(t) && Masked(WordOf(t), mask) == mask }

  predicate AllClear(t: Transfer, mask: U16) { Delivers(t) && Masked(WordOf(t), mask) == 0 }

  /** The third bit is the focus's, the fourth the iris's. */
  lemma BusyBits(t: Transfer)
    requires Delivers(t)
    ensures AllSet(t, FOCUS_MASK) <==> WordOf(t) / 4 % 2 == 1
    ensures AllClear(t, FOCUS_MASK) <==> WordOf(t) / 4 % 2 == 0
    ensures AllSet(t, IRIS_MASK) <==> WordOf(t) / 8 % 2 == 1
    ensures AllClear(t, IRIS_MASK) <==> WordOf(t) / 8 % 2 == 0
  {
    hide Reading;
  }

  /** A stream of status reads. */
  type Polls = nat -> Transfer

  ghost predicate AllProper(segment: U16, polls: Polls) {
    forall k {:trigger polls(k)} :: Proper(polls(k)) && polls(k).register == segment
  }

  ghost predicate Good(polls: Polls, n: nat) {
    forall k {:trigger polls(k)} :: 0 <= k < n ==> Delivers(polls(k))
  }

  /** Read i is the first with the bits set, and no read up to it failed. */
  ghost predicate Rises(polls: Polls, mask: U16, i: nat) {
    && Good(polls, i + 1) && AllSet(polls(i), mask)
    && forall k {:trigger polls(k)} :: 0 <= k < i ==> !AllSet(polls(k), mask)
  }

  ghost predicate NoneClear(polls: Polls, mask: U16, from: nat, to: int) {
    forall k {:trigger polls(k)} :: from <= k < to ==> !AllClear(polls(k), mask)
  }

  datatype WaitResult = Done | LowHigh | HighLow | ReadError(code: int)

  function CodeOf(r: WaitResult): int {
    match r case Done => SUCCESS case LowHigh => LOWHI_ERROR case HighLow => HILOW_ERROR case ReadError(code) => code
  }

  /**
   It rises at read i, within 19 reads, and read j, one of the next waitTime - 1, is the first with
   the bits clear.
   */
  ghost predicate WaitSucceeds(polls: Polls, mask: U16, waitTime: int, i: nat, j: nat) {
    && i < 19 && Rises(polls, mask, i)
    && i < j <= i + waitTime - 1 && Good(polls, j + 1)
    && AllClear(polls(j), mask) && NoneClear(polls, mask, i + 1, j)
  }

  /** None of the first 19 reads has the bits set, and the first 20 all deliver. */
  ghost predicate NeverRises(polls: Polls, mask: U16) {
    Good(polls, 20) && forall k {:trigger polls(k)} :: 0 <= k < 19 ==> !AllSet(polls(k), mask)
  }

  /** It rises at read i, and none of the next waitTime - 1 reads has the bits clear. */
  ghost predicate NeverFalls(polls: Polls, mask: U16, waitTime: int, i: nat) {
    && i < 19 && Rises(polls, mask, i)
    && Good(polls, i + 1 + (if waitTime < 1 then 1 else waitTime)) && NoneClear(polls, mask, i + 1, i + waitTime)
  }

  lemma RisesOnce(polls: Polls, mask: U16, i: nat)
    requires Rises(polls, mask, i)
    ensures forall k: nat {:trigger Rises(polls, mask, k)} :: Rises(polls, mask, k) ==> k == i
    ensures i < LOW_HIGH_WAIT - 1 ==> !NeverRises(polls, mask)
  {
    forall k: nat | Rises(polls, mask, k) ensures k == i {
      assert AllSet(polls(k), mask) && AllSet(polls(i), mask);
    }
    assert AllSet(polls(i), mask);
  }

  /** After the first rise, success and failure to fall are decided by the reads that follow it. */
  lemma AfterRise(polls: Polls, mask: U16, waitTime: int, i: nat)
    requires i < LOW_HIGH_WAIT - 1 && Rises(polls, mask, i)
    ensures !NeverRises(polls, mask)
    ensures (exists k, j :: WaitSucceeds(polls, mask, waitTime, k, j)) <==>
        exists j :: WaitSucceeds(polls, mask, waitTime, i, j)
    ensures (exists k :: NeverFalls(polls, mask, waitTime, k)) <==> NeverFalls(polls, mask, waitTime, i)
  {
    RisesOnce(polls, mask, i);
    forall k: nat, j: nat | WaitSucceeds(polls, mask, waitTime, k, j) ensures k == i {
      assert Rises(polls, mask, k);
    }
  }

  lemma WithoutRise(polls: Polls, mask: U16, waitTime: int)
    requires forall i {:trigger Rises(polls, mask, i)} :: 0 <= i < LOW_HIGH_WAIT - 1 ==> !Rises(polls, mask, i)
    ensures !exists k, j :: WaitSucceeds(polls, mask, waitTime, k, j)
    ensures !exists k :: NeverFalls(polls, mask, waitTime, k)
  {
    forall k: nat, j: nat ensures !WaitSucceeds(polls, mask, waitTime, k, j) && !NeverFalls(polls, mask, waitTime, k) {
      assert k < LOW_HIGH_WAIT - 1 ==> !Rises(polls, mask, k);
    }
  }

  /** 1100 ms per 1000 ms of rated time, and never less than 2000. */
  function WaitCalc(moveValue: U16, speedPPS: int): int
    requires speedPPS > 0
  {
    var waitTime := WAIT_MAG * moveValue / speedPPS;
    if MINIMUM_WAIT > waitTime then MINIMUM_WAIT else waitTime
  }

  // ----- The object -----

  /** What the environment does during one move or initialisation: landed is where the axis ends up. */
  datatype Script = Script(write: int, polls: Polls, position: Transfer, status: Transfer, landed: U16)

  /**
   The script answers for the registers the driver reads, and the position register is stable
   while the lens is idle: a read of it that succeeds delivers where the axis is.
   */
  ghost predicate Honest(script: Script, position: U16) {
    && AllProper(0x0042, script.polls) && Proper(script.position) && Proper(script.status)
    && script.position.register == position && script.status.register == 0x0044
    && (Delivers(script.position) ==> WordOf(script.position) == script.landed)
  }

  /** The write went out, the busy bit rose and fell in time, and the position was read. */
  ghost predicate Completes(script: Script, mask: U16, waitTime: int) {
    && script.write == SUCCESS && Delivers(script.position)
    && exists i, j :: WaitSucceeds(script.polls, mask, waitTime, i, j)
  }

  /** What a move or initialisation answers: the code of the first thing that goes wrong, or 0. */
  ghost predicate Answers(script: Script, mask: U16, waitTime: int, retval: int) {
    && (script.write != 0 ==> retval == script.write)
    && (script.write == 0 ==>
          && (NeverRises(script.polls, mask) ==> retval == 0x50)
          && ((exists i :: NeverFalls(script.polls, mask, waitTime, i)) ==> retval == 0x51)
          && ((exists i, j :: WaitSucceeds(script.polls, mask, waitTime, i, j)) ==>
                retval == match Reading(script.position) case Error(code) => code case Delivered(_) => 0))
  }

  /** Some call of the operation fails with this code. */
  ghost predicate Errs(script: Script, code: int) {
    || script.write == code || Reading(script.position) == Error(code)
    || exists k {:trigger script.polls(k)} :: Reading(script.polls(k)) == Error(code)
  }

  /** Nothing fails, and the busy bit is seen to rise in time. */
  ghost predicate Works(script: Script, mask: U16) {
    && script.write == SUCCESS && Delivers(script.position)
    && (forall k {:trigger script.polls(k)} :: Delivers(script.polls(k)))
    && exists i: nat {:trigger Rises(script.polls, mask, i)} :: i < 19 && Rises(script.polls, mask, i)
  }

  function Distance(a: U16, b: U16): U16 { if a < b then b - a else a - b }

  /** The difference as an unsigned short. */
  function Span(max: U16, min: U16): U16 { (max - min) % 65536 }

  class ControlImpl {
    var receivedData: array<Byte>
    var focusCurrentAddr: U16
    var irisCurrentAddr: U16
    var focusMinAddr: U16
    var focusMaxAddr: U16
    var irisMinAddr: U16
    var irisMaxAddr: U16
    var focusSpeedPPS: U16
    var irisSpeedPPS: U16
    var status2: U16
    // the registers of the device
    ghost var focusRegister: U16
    ghost var irisRegister: U16
    // what was sent to it, write by write
    ghost var written: seq<seq<Byte>>

    ghost predicate Valid()
      reads this
    {
      receivedData.Length == 80 && focusSpeedPPS > 0 && irisSpeedPPS > 0
    }

    constructor (focusSpeed: U16, irisSpeed: U16)
      requires focusSpeed > 0 && irisSpeed > 0
      ensures Valid() && fresh(receivedData) && focusSpeedPPS == focusSpeed && irisSpeedPPS == irisSpeed
    {
      receivedData := new Byte[80](_ => 0);
      focusCurrentAddr, irisCurrentAddr, focusMinAddr, focusMaxAddr, irisMinAddr, irisMaxAddr := 0, 0, 0, 0, 0, 0;
      focusSpeedPPS, irisSpeedPPS, status2 := focusSpeed, irisSpeed, 0;
      focusRegister, irisRegister, written := 0, 0, [];
    }

    /** Reads two bytes or more: the loop ends and stays inside both buffers; a failed read leaves the buffer alone. */
    method UsbRead(segment: U16, t: Transfer) returns (retval: int)
      requires Proper(t) && t.register == segment && receivedData.Length == 80
      modifies receivedData
      ensures retval == match Reading(t) case Error(code) => code case Delivered(_) => SUCCESS
      ensures retval == SUCCESS <==> Delivers(t)
      ensures retval != SUCCESS ==> Fails(t, retval)
      ensures Delivers(t) ==> Word(receivedData[0], receivedData[1]) == WordOf(t)
      ensures !Delivers(t) ==> receivedData[..] == old(receivedData[..])
    {
      ReadingSize(t);
      if t.write != SUCCESS { return t.write; }
      if t.read != SUCCESS { return t.read; }
      if t.force != SUCCESS { return t.force; }
      var receiveData := new Byte[128](_ => 0);
      var totalBytesRead: Byte := 0;
      ghost var got: seq<Byte> := [];
      var calls := 0;
      while true
        invariant calls <= 1 && totalBytesRead == |got| == calls
        invariant calls == 1 ==> t.responses(0).Data? && got == t.responses(0).bytes
        invariant receiveData[..totalBytesRead] == got
        invariant receivedData[..] == old(receivedData[..])
        invariant fresh(receiveData) && receiveData.Length == 128
        decreases 2 - calls
      {
        var response := t.responses(calls);
        if response.Failed? {
          return response.code;
        }
        var bytes := response.bytes;
        CopyIn(receiveData, totalBytesRead, bytes);
        got := got + bytes;
        totalBytesRead := totalBytesRead + |bytes|;
        calls := calls + 1;
        if totalBytesRead >= DATA_LENGTH {
          break;
        }
      }
      assert got == Reading(t).bytes;
      CopyIn(receivedData, 0, receiveData[..totalBytesRead]);
      assert receivedData[0] == receivedData[..totalBytesRead][0];
      assert receivedData[1] == receivedData[..totalBytesRead][1];
      return SUCCESS;
    }

    static method CopyIn(buffer: array<Byte>, at: nat, bytes: seq<Byte>)
      requires at + |bytes| <= buffer.Length
      modifies buffer
      ensures buffer[..at + |bytes|] == old(buffer[..at]) + bytes
    {
      forall i | 0 <= i < |bytes| { buffer[at + i] := bytes[i]; }
    }

    function UsbRead2Bytes(): U16
      requires receivedData.Length == 80
      reads this, receivedData
    {
      Word(receivedData[0], receivedData[1])
    }

    /** Waits for the bits of the mask to be set and then to be clear; used counts the reads. */
    method StatusWait(segment: U16, polls: Polls, mask: U16, waitTime: int) returns (result: WaitResult, used: nat)
      requires AllProper(segment, polls) && receivedData.Length == 80
      modifies receivedData
      ensures result.Done? <==> exists i, j :: WaitSucceeds(polls, mask, waitTime, i, j)
      ensures result.LowHigh? <==> NeverRises(polls, mask)
      ensures result.HighLow? <==> exists i :: NeverFalls(polls, mask, waitTime, i)
      ensures result.ReadError? ==>
          used > 0 && Good(polls, used - 1) && Fails(polls(used - 1), result.code)
      ensures used <= if waitTime < 1 then 20 else 19 + waitTime
    {
      hide WaitSucceeds, NeverFalls, NeverRises, Rises;
      result, used := WaitHigh(segment, polls, mask);
      if result.Done? {
        var i: nat := used - 1;
        AfterRise(polls, mask, waitTime, i);
        result, used := WaitLow(segment, polls, mask, waitTime, i);
      } else {
        WithoutRise(polls, mask, waitTime);
      }
    }

    /** The first of the two loops. */
    method WaitHigh(segment: U16, polls: Polls, mask: U16) returns (result: WaitResult, used: nat)
      requires AllProper(segment, polls) && receivedData.Length == 80
      modifies receivedData
      ensures 0 < used <= LOW_HIGH_WAIT && !result.HighLow?
      ensures result.Done? ==> used < LOW_HIGH_WAIT && Rises(polls, mask, used - 1)
      ensures result.LowHigh? <==> NeverRises(polls, mask)
      ensures result.ReadError? ==> Good(polls, used - 1) && Fails(polls(used - 1), result.code)
      ensures !result.Done? ==> forall i {:trigger Rises(polls, mask, i)} :: 0 <= i < LOW_HIGH_WAIT - 1 ==>
          !Rises(polls, mask, i)
    {
      hide Reading, Proper, Fails, WordOf, Masked, Word;
      var tmp := 0;
      while true
        invariant 0 <= tmp < LOW_HIGH_WAIT && Good(polls, tmp)
        invariant forall k {:trigger polls(k)} :: 0 <= k < tmp ==> !AllSet(polls(k), mask)
        decreases LOW_HIGH_WAIT - tmp
      {
        assert Proper(polls(tmp));
        var retval := UsbRead(segment, polls(tmp));
        if retval != SUCCESS {
          return ReadError(retval), tmp + 1;
        }
        var readStatus := UsbRead2Bytes();
        tmp := tmp + 1;
        if tmp >= LOW_HIGH_WAIT {
          return LowHigh, tmp;
        }
        if Masked(readStatus, mask) == mask {
          return Done, tmp;
        }
      }
    }

    /** The second loop, after the bits were first seen set at read i. */
    method WaitLow(segment: U16, polls: Polls, mask: U16, waitTime: int, i: nat) returns (result: WaitResult, used: nat)
      requires AllProper(segment, polls) && receivedData.Length == 80
      requires i < LOW_HIGH_WAIT - 1 && Rises(polls, mask, i)
      modifies receivedData
      ensures !result.LowHigh? && used <= if waitTime < 1 then i + 2 else i + 1 + waitTime
      ensures result.Done? <==> exists j :: WaitSucceeds(polls, mask, waitTime, i, j)
      ensures result.HighLow? <==> NeverFalls(polls, mask, waitTime, i)
      ensures result.ReadError? ==>
          used > 0 && Good(polls, used - 1) && Fails(polls(used - 1), result.code)
    {
      hide Reading, Proper, Fails, WordOf, Masked, Word;
      var tmp := 0;
      var at := i + 1;
      while true
        invariant 0 <= tmp && (tmp == 0 || tmp < waitTime) && at == i + 1 + tmp
        invariant Good(polls, at) && NoneClear(polls, mask, i + 1, at)
        decreases waitTime - tmp
      {
        assert Proper(polls(at));
        var retval := UsbRead(segment, polls(at));
        if retval != SUCCESS {
          return ReadError(retval), at + 1;
        }
        var readStatus := UsbRead2Bytes();
        tmp, at := tmp + 1, at + 1;
        if tmp >= waitTime {
          return HighLow, at;
        }
        if Masked(readStatus, mask) == 0 {
          assert WaitSucceeds(polls, mask, waitTime, i, at - 1);
          return Done, at;
        }
      }
    }

    /** Sends the register's address and the value. */
    method UsbWrite(segment: U16, data: U16, outcome: int) returns (retval: int)
      modifies this`written
      ensures retval == outcome && written == old(written) + [Command(segment, data)]
    {
      var sendData := [High8(segment), Low8(segment), High8(data), Low8(data)];
      written := written + [sendData];
      retval := outcome;
    }

    /** Waits for the axis and reads where it is. */
    method WaitAndRead(segment: U16, mask: U16, waitTime: int, script: Script) returns (retval: int)
      requires Honest(script, segment) && receivedData.Length == 80
      modifies receivedData
      ensures script.write == SUCCESS ==> (retval == SUCCESS <==> Completes(script, mask, waitTime))
      ensures script.write == SUCCESS ==> Answers(script, mask, waitTime, retval)
      ensures retval == HILOW_ERROR ==>
                Errs(script, HILOW_ERROR) || exists i :: NeverFalls(script.polls, mask, waitTime, i)
      ensures retval == SUCCESS ==> Word(receivedData[0], receivedData[1]) == script.landed
    {
      var result, used := StatusWait(STATUS1, script.polls, mask, waitTime);
      retval := CodeOf(result);
      if retval == SUCCESS {
        retval := UsbRead(segment, script.position);
      }
    }

    method DeviceMove(segment: U16, addrData0: U16, mask: U16, waitTime: int, script: Script)
      returns (retval: int, addrData: U16)
      requires Honest(script, segment) && receivedData.Length == 80
      modifies this`written, receivedData
      ensures written == old(written) + [Command(segment, addrData0)]
      ensures retval == SUCCESS <==> Completes(script, mask, waitTime)
      ensures Answers(script, mask, waitTime, retval)
      ensures retval == HILOW_ERROR ==>
                Errs(script, HILOW_ERROR) || exists i :: NeverFalls(script.polls, mask, waitTime, i)
      ensures addrData == if retval == SUCCESS then script.landed else addrData0
    {
      addrData := addrData0;
      retval := UsbWrite(segment, addrData0, script.write);
      if retval == SUCCESS {
        retval := WaitAndRead(segment, mask, waitTime, script);
        if retval == SUCCESS {
          addrData := UsbRead2Bytes();
        }
      }
    }

    /**
     Focus: the cache is the device's register after a success and untouched after a failure; the
     iris is left alone.
     */
    method FocusMove(addrData: U16, script: Script) returns (retval: int)
      requires Valid() && Honest(script, 0x2000)
      modifies this`written, this`focusCurrentAddr, this`focusRegister, receivedData
      ensures Valid() && focusRegister == script.landed
      ensures written == old(written) + [Command(FOCUS_POSITION_VAL, addrData)]
      ensures retval == SUCCESS <==>
          Completes(script, 0x0004, WaitCalc(Distance(addrData, old(focusCurrentAddr)), focusSpeedPPS))
      ensures Answers(script, 0x0004, WaitCalc(Distance(addrData, old(focusCurrentAddr)), focusSpeedPPS), retval)
      ensures Rated(script.polls, 0x0004, Distance(addrData, old(focusCurrentAddr)), focusSpeedPPS) ==>
                && (Works(script, 0x0004) ==> retval == SUCCESS)
                && (retval == HILOW_ERROR ==> Errs(script, HILOW_ERROR))
      ensures focusCurrentAddr == if retval == SUCCESS then focusRegister else old(focusCurrentAddr)
    {
      var waitTime := WaitCalc(Distance(addrData, focusCurrentAddr), focusSpeedPPS);
      RatedMove(script, FOCUS_MASK, Distance(addrData, focusCurrentAddr), focusSpeedPPS);
      var landed;
      retval, landed := DeviceMove(FOCUS_POSITION_VAL, addrData, FOCUS_MASK, waitTime, script);
      focusRegister := script.landed;
      if retval == SUCCESS {
        focusCurrentAddr := landed;
      }
    }

    method IrisMove(addrData: U16, script: Script) returns (retval: int)
      requires Valid() && Honest(script, 0x3000)
      modifies this`written, this`irisCurrentAddr, this`irisRegister, receivedData
      ensures Valid() && irisRegister == script.landed
      ensures written == old(written) + [Command(IRIS_POSITION_VAL, addrData)]
      ensures retval == SUCCESS <==>
          Completes(script, 0x0008, WaitCalc(Distance(addrData, old(irisCurrentAddr)), irisSpeedPPS))
      ensures Answers(script, 0x0008, WaitCalc(Distance(addrData, old(irisCurrentAddr)), irisSpeedPPS), retval)
      ensures Rated(script.polls, 0x0008, Distance(addrData, old(irisCurrentAddr)), irisSpeedPPS) ==>
                && (Works(script, 0x0008) ==> retval == SUCCESS)
                && (retval == HILOW_ERROR ==> Errs(script, HILOW_ERROR))
      ensures irisCurrentAddr == if retval == SUCCESS then irisRegister else old(irisCurrentAddr)
    {
      var waitTime := WaitCalc(Distance(addrData, irisCurrentAddr), irisSpeedPPS);
      RatedMove(script, IRIS_MASK, Distance(addrData, irisCurrentAddr), irisSpeedPPS);
      var landed;
      retval, landed := DeviceMove(IRIS_POSITION_VAL, addrData, IRIS_MASK, waitTime, script);
      irisRegister := script.landed;
      if retval == SUCCESS {
        irisCurrentAddr := landed;
      }
    }

    method Status2ReadSet(t: Transfer) returns (retval: int)
      requires Proper(t) && t.register == STATUS2 && receivedData.Length == 80
      modifies this`status2, receivedData
      ensures retval == SUCCESS <==> Delivers(t)
      ensures status2 == if Delivers(t) then WordOf(t) else old(status2)
    {
      retval := UsbRead(STATUS2, t);
      if retval != SUCCESS {
        return;
      }
      status2 := UsbRead2Bytes();
    }

    method FocusInit(script: Script) returns (retval: int)
      requires Valid() && Honest(script, 0x2000)
      modifies this`written, this`focusCurrentAddr, this`focusRegister, this`status2, receivedData
      ensures Valid() && focusRegister == script.landed
      ensures written == old(written) + [Command(FOCUS_INITIALIZE, INIT_RUN_BIT)]
      ensures retval == SUCCESS <==>
          Completes(script, 0x0004, WaitCalc(Span(focusMaxAddr, focusMinAddr), focusSpeedPPS))
      ensures Answers(script, 0x0004, WaitCalc(Span(focusMaxAddr, focusMinAddr), focusSpeedPPS), retval)
      ensures focusCurrentAddr == if retval == SUCCESS then focusRegister else old(focusCurrentAddr)
    {
      hide WaitSucceeds, NeverFalls, NeverRises, Reading, Proper, WaitCalc, Span;
      var waitTime := WaitCalc(Span(focusMaxAddr, focusMinAddr), focusSpeedPPS);
      retval := UsbWrite(FOCUS_INITIALIZE, INIT_RUN_BIT, script.write);
      focusRegister := script.landed;
      if retval == SUCCESS {
        retval := WaitAndRead(FOCUS_POSITION_VAL, FOCUS_MASK, waitTime, script);
        if retval == SUCCESS {
          focusCurrentAddr := UsbRead2Bytes();
          var ignored := Status2ReadSet(script.status);
        }
      }
    }

    method IrisInit(script: Script) returns (retval: int)
      requires Valid() && Honest(script, 0x3000)
      modifies this`written, this`irisCurrentAddr, this`irisRegister, this`status2, receivedData
      ensures Valid() && irisRegister == script.landed
      ensures written == old(written) + [Command(IRIS_INITIALIZE, INIT_RUN_BIT)]
      ensures retval == SUCCESS <==>
          Completes(script, 0x0008, WaitCalc(Span(irisMaxAddr, irisMinAddr), irisSpeedPPS))
      ensures Answers(script, 0x0008, WaitCalc(Span(irisMaxAddr, irisMinAddr), irisSpeedPPS), retval)
      ensures irisCurrentAddr == if retval == SUCCESS then irisRegister else old(irisCurrentAddr)
    {
      hide WaitSucceeds, NeverFalls, NeverRises, Reading, Proper, WaitCalc, Span;
      var waitTime := WaitCalc(Span(irisMaxAddr, irisMinAddr), irisSpeedPPS);
      retval := UsbWrite(IRIS_INITIALIZE, INIT_RUN_BIT, script.write);
      irisRegister := script.landed;
      if retval == SUCCESS {
        retval := WaitAndRead(IRIS_POSITION_VAL, IRIS_MASK, waitTime, script);
        if retval == SUCCESS {
          irisCurrentAddr := UsbRead2Bytes();
          var ignored := Status2ReadSet(script.status);
        }
      }
    }

    /**
     Reading the focus position sets the cache whether or not the read succeeded: after a failure,
     to whatever was read last.
     */
    method FocusCurrentAddrReadSet(t: Transfer) returns (retval: int)
      requires Proper(t) && t.register == FOCUS_POSITION_VAL && receivedData.Length == 80
      modifies this`focusCurrentAddr, receivedData
      ensures retval == SUCCESS <==> Delivers(t)
      ensures focusCurrentAddr == if Delivers(t) then WordOf(t) else old(UsbRead2Bytes())
    {
      retval := UsbRead(FOCUS_POSITION_VAL, t);
      assert !Delivers(t) ==> receivedData[0] == receivedData[..][0] && receivedData[1] == receivedData[..][1];
      focusCurrentAddr := UsbRead2Bytes();
    }

    /** So does reading the iris position. */
    method IrisCurrentAddrReadSet(t: Transfer) returns (retval: int)
      requires Proper(t) && t.register == IRIS_POSITION_VAL && receivedData.Length == 80
      modifies this`irisCurrentAddr, receivedData
      ensures retval == SUCCESS <==> Delivers(t)
      ensures irisCurrentAddr == if Delivers(t) then WordOf(t) else old(UsbRead2Bytes())
    {
      retval := UsbRead(IRIS_POSITION_VAL, t);
      assert !Delivers(t) ==> receivedData[0] == receivedData[..][0] && receivedData[1] == receivedData[..][1];
      irisCurrentAddr := UsbRead2Bytes();
    }

    method DoOp(op: Op) returns (done: bool)
      requires Valid() && Honest(op.script, PositionRegister(op.axis))
      modifies this`written, this`focusCurrentAddr, this`focusRegister, this`irisCurrentAddr, this`irisRegister,
          this`status2, receivedData
      ensures Valid()
      ensures written == old(written) + [CommandOf(op)]
      ensures focusRegister == if op.axis == Focus then op.script.landed else old(focusRegister)
      ensures irisRegister == if op.axis == Iris then op.script.landed else old(irisRegister)
      ensures focusCurrentAddr == if op.axis == Focus && done then op.script.landed else old(focusCurrentAddr)
      ensures irisCurrentAddr == if op.axis == Iris && done then op.script.landed else old(irisCurrentAddr)
    {
      var retval;
      match op {
        case Move(axis, addr, script) =>
          if axis == Focus {
            retval := FocusMove(addr, script);
          } else {
            retval := IrisMove(addr, script);
          }
        case Initialise(axis, script) =>
          if axis == Focus {
            retval := FocusInit(script);
          } else {
            retval := IrisInit(script);
          }
      }
      done := retval == SUCCESS;
    }

    /** Operations one after the other; ok says which succeeded. */
    method RunOps(ops: seq<Op>) returns (ok: seq<bool>)
      requires Valid() && forall op <- ops :: Honest(op.script, PositionRegister(op.axis))
      modifies this`written, this`focusCurrentAddr, this`focusRegister, this`irisCurrentAddr, this`irisRegister,
          this`status2, receivedData
      ensures Valid() && |ok| == |ops|
      ensures written == old(written) + Commands(ops)
      ensures focusRegister == RegisterAfter(Focus, old(focusRegister), ops)
      ensures irisRegister == RegisterAfter(Iris, old(irisRegister), ops)
      ensures focusCurrentAddr == CacheAfter(Focus, old(focusCurrentAddr), ops, ok)
      ensures irisCurrentAddr == CacheAfter(Iris, old(irisCurrentAddr), ops, ok)
    {
      ok := [];
      assert Commands(ops[..0]) == [];
      assert ops[..0] == [];
      hide RegisterAfter, CacheAfter, Commands, Honest;
      NoOps(ops, focusRegister, irisRegister, focusCurrentAddr, irisCurrentAddr);
      for n := 0 to |ops|
        invariant Valid() && |ok| == n
        invariant written == old(written) + Commands(ops[..n])
        invariant focusRegister == RegisterAfter(Focus, old(focusRegister), ops[..n])
        invariant irisRegister == RegisterAfter(Iris, old(irisRegister), ops[..n])
        invariant focusCurrentAddr == CacheAfter(Focus, old(focusCurrentAddr), ops[..n], ok)
        invariant irisCurrentAddr == CacheAfter(Iris, old(irisCurrentAddr), ops[..n], ok)
      {
        var op := ops[n];
        OpsSnoc(Focus, old(focusRegister), old(focusCurrentAddr), ops, ok, n);
        OpsSnoc(Iris, old(irisRegister), old(irisCurrentAddr), ops, ok, n);
        var done := DoOp(op);
        ok := ok + [done];
      }
      assert ops[..|ops|] == ops;
    }
  }

  // ----- Runs of operations -----

  datatype Axis = Focus | Iris

  datatype Op = Move(axis: Axis, addr: U16, script: Script) | Initialise(axis: Axis, script: Script)

  function PositionRegister(axis: Axis): U16 { if axis == Focus then 0x2000 else 0x3000 }

  function CommandOf(op: Op): seq<Byte> {
    match op
    case Move(axis, addr, _) => Command(PositionRegister(axis), addr)
    case Initialise(axis, _) => Command(if axis == Focus then FOCUS_INITIALIZE else IRIS_INITIALIZE, INIT_RUN_BIT)
  }

  function Commands(ops: seq<Op>): seq<seq<Byte>> {
    seq(|ops|, i requires 0 <= i < |ops| => CommandOf(ops[i]))
  }

  /** Where an axis is: where its last operation, whatever became of it, left it. */
  function RegisterAfter(axis: Axis, start: U16, ops: seq<Op>): U16 {
    if ops == [] then start
    else if ops[|ops| - 1].axis == axis then ops[|ops| - 1].script.landed
    else RegisterAfter(axis, start, ops[..|ops| - 1])
  }

  /** What is cached: where its last successful operation left it. */
  function CacheAfter(axis: Axis, start: U16, ops: seq<Op>, ok: seq<bool>): U16
    requires |ok| == |ops|
  {
    if ops == [] then start
    else if ops[|ops| - 1].axis == axis && ok[|ops| - 1] then ops[|ops| - 1].script.landed
    else CacheAfter(axis, start, ops[..|ops| - 1], ok[..|ok| - 1])
  }

  lemma NoOps(ops: seq<Op>, focus: U16, iris: U16, focusCached: U16, irisCached: U16)
    ensures RegisterAfter(Focus, focus, ops[..0]) == focus && RegisterAfter(Iris, iris, ops[..0]) == iris
    ensures CacheAfter(Focus, focusCached, ops[..0], []) == focusCached
    ensures CacheAfter(Iris, irisCached, ops[..0], []) == irisCached
  {
  }

  /** What one more operation does to an axis, and the command it sends. */
  lemma OpsSnoc(axis: Axis, register: U16, cached: U16, ops: seq<Op>, ok: seq<bool>, n: nat)
    requires n < |ops| && |ok| == n
    ensures Commands(ops[..n + 1]) == Commands(ops[..n]) + [CommandOf(ops[n])]
    ensures RegisterAfter(axis, register, ops[..n + 1])
         == if ops[n].axis == axis then ops[n].script.landed else RegisterAfter(axis, register, ops[..n])
    ensures forall done :: CacheAfter(axis, cached, ops[..n + 1], ok + [done])
                        == if ops[n].axis == axis && done then ops[n].script.landed
                           else CacheAfter(axis, cached, ops[..n], ok)
  {
    assert ops[..n + 1][..n] == ops[..n];
    forall done ensures (ok + [done])[..n] == ok { }
  }

  /** The last operation on an axis succeeded, or there was none. */
  predicate LastSucceeded(axis: Axis, ops: seq<Op>, ok: seq<bool>)
    requires |ok| == |ops|
  {
    ops == []
    || if ops[|ops| - 1].axis == axis then ok[|ops| - 1] else LastSucceeded(axis, ops[..|ops| - 1], ok[..|ok| - 1])
  }

  /** Over every sequence of operations: cache and register agree whenever the last operation on the axis succeeded. */
  lemma {:induction false} CacheAgrees(axis: Axis, start: U16, ops: seq<Op>, ok: seq<bool>)
    requires |ok| == |ops| && LastSucceeded(axis, ops, ok)
    ensures CacheAfter(axis, start, ops, ok) == RegisterAfter(axis, start, ops)
  {
    if ops != [] && ops[|ops| - 1].axis != axis {
      CacheAgrees(axis, start, ops[..|ops| - 1], ok[..|ok| - 1]);
    }
  }

  /** Operations on an axis that all fail, and any on the other, leave its cache as it is. */
  lemma {:induction false} FailuresKeepCache(axis: Axis, start: U16, ops: seq<Op>, ok: seq<bool>)
    requires |ok| == |ops| && forall n :: 0 <= n < |ops| && ops[n].axis == axis ==> !ok[n]
    ensures CacheAfter(axis, start, ops, ok) == start
  {
    if ops != [] {
      FailuresKeepCache(axis, start, ops[..|ops| - 1], ok[..|ok| - 1]);
    }
  }

  // ----- The budget -----

  /** Milliseconds for a move at a speed in steps per second, rounded up. */
  function RatedTime(moveValue: U16, speedPPS: int): int
    requires speedPPS > 0
  {
    (1000 * moveValue + speedPPS - 1) / speedPPS
  }

  /** The budget exactly: the rated time and a tenth, in whole milliseconds rounded down, but at least 2000. */
  lemma BudgetExact(moveValue: U16, speedPPS: int)
    requires speedPPS > 0
    ensures var w := WaitCalc(moveValue, speedPPS);
            if 2000 * speedPPS <= 1100 * moveValue
            then w >= 2000 && w * speedPPS <= 1100 * moveValue < (w + 1) * speedPPS
            else w == 2000
  {
    var n := 1100 * moveValue;
    assert n / speedPPS * speedPPS <= n < (n / speedPPS + 1) * speedPPS;
    if 2000 * speedPPS <= n {
      QuotientAtLeast(n, speedPPS, 2000);
    } else if n / speedPPS >= 2000 {
      TimesGrows(2000, n / speedPPS, speedPPS);
    }
  }

  /** The length of a move is the distance of its ends; that of an initialisation the span, as an unsigned short. */
  lemma Lengths(a: U16, b: U16)
    ensures (a + Distance(a, b) == b || b + Distance(a, b) == a) && Distance(a, b) == Distance(b, a)
    ensures (b + Span(a, b)) % 65536 == a && (b <= a ==> Span(a, b) == a - b)
  {
  }

  /** What goes over the wire for every operation. */
  lemma OnTheWire(op: Op)
    ensures CommandOf(op)
         == match op
            case Move(Focus, addr, _) => [0x20, 0x00, addr / 256, addr % 256]
            case Move(Iris, addr, _) => [0x30, 0x00, addr / 256, addr % 256]
            case Initialise(Focus, _) => [0x20, 0x08, 0x00, 0x01]
            case Initialise(Iris, _) => [0x30, 0x08, 0x00, 0x01]
  {
  }

  lemma QuotientAtLeast(n: int, d: int, q: int)
    requires d > 0 && q * d <= n
    ensures n / d >= q
  {
    var r := n / d;
    if r + 1 <= q {
      assert n < (r + 1) * d;
      TimesGrows(r + 1, q, d);
    }
  }

  lemma {:induction false} TimesGrows(a: int, b: int, d: int)
    requires a <= b && d > 0
    ensures a * d <= b * d
    decreases b - a
  {
    if a < b {
      TimesGrows(a, b - 1, d);
      assert b * d == (b - 1) * d + d;
    }
  }

  lemma QuotientAtMost(n: nat, d: int)
    requires d > 0
    ensures 0 <= n / d <= n
  {
    var r := n / d;
    assert r * d <= n;
    assert r >= 0 ==> r * d >= r;
  }

  /** From 31 ms on, the ten per cent on top are worth more than two. */
  lemma TenPercent(c: int, s: int, m: int)
    requires s > 0 && c >= 31 && c * s <= 1000 * m + s - 1
    ensures (c + 2) * s <= 1100 * m
  {
    var p := c * s;
    assert (c + 2) * s == p + 2 * s;
    assert p >= 31 * s;
  }

  /** The budget fits a 32-bit int, its intermediate product too, and exceeds the rated time by more than one poll. */
  lemma {:induction false} BudgetSound(moveValue: U16, speedPPS: int)
    requires speedPPS > 0
    ensures WAIT_MAG * moveValue <= 0x7fffffff && 0 <= WaitCalc(moveValue, speedPPS) <= 0x7fffffff
    ensures WaitCalc(moveValue, speedPPS) > RatedTime(moveValue, speedPPS) + 1
  {
    var n := WAIT_MAG * moveValue;
    var c := RatedTime(moveValue, speedPPS);
    QuotientAtMost(n, speedPPS);
    if c >= 1999 {
      assert c * speedPPS <= 1000 * moveValue + speedPPS - 1;
      TenPercent(c, speedPPS, moveValue);
      QuotientAtLeast(n, speedPPS, c + 2);
    }
  }

  lemma RatedTimeCovers(moveValue: U16, speedPPS: int)
    requires speedPPS > 0
    ensures RatedTime(moveValue, speedPPS) >= 0 && RatedTime(moveValue, speedPPS) * speedPPS >= 1000 * moveValue
  {
    var n := 1000 * moveValue + speedPPS - 1;
    assert n == (n / speedPPS) * speedPPS + n % speedPPS;
    QuotientAtMost(n, speedPPS);
  }

  /** Poll k lasts at least a millisecond. */
  ghost predicate Lasts(time: nat -> real, k: nat) { time(k + 1) >= time(k) + 1.0 }

  /**
   The lens is clear from its rated time on, counted from read i, which first saw it busy: every
   later read that delivers says so. Every poll after that one lasts at least a millisecond.
   Times are in milliseconds.
   */
  ghost predicate WithinRating(polls: Polls, mask: U16, moveValue: U16, speedPPS: int, time: nat -> real, i: nat) {
    && time(i + 1) >= time(i)
    && (forall k: nat {:trigger Lasts(time, k)} :: k > i ==> Lasts(time, k))
    && forall k: nat {:trigger polls(k)} ::
         k > i && (time(k) - time(i)) * speedPPS as real >= 1000.0 * moveValue as real && Delivers(polls(k)) ==>
           AllClear(polls(k), mask)
  }

  lemma LateAfterRating(moveValue: U16, speedPPS: int, time: nat -> real, i: nat) returns (k: nat)
    requires speedPPS > 0 && time(i + 1) >= time(i)
    requires forall k: nat {:trigger Lasts(time, k)} :: k > i ==> Lasts(time, k)
    ensures k == i + 1 + RatedTime(moveValue, speedPPS) && k > i
    ensures (time(k) - time(i)) * speedPPS as real >= 1000.0 * moveValue as real
  {
    var c := RatedTime(moveValue, speedPPS);
    RatedTimeCovers(moveValue, speedPPS);
    k := i + 1 + c;
    PollsLast(time, i, c);
    LongEnough(time(k) - time(i), c, speedPPS, moveValue);
  }

  /** Such a lens never runs out of its budget. */
  lemma {:induction false} RatedLensNeverTimesOut(polls: Polls, mask: U16, moveValue: U16, speedPPS: int,
                                                  time: nat -> real, i: nat)
    requires speedPPS > 0 && WithinRating(polls, mask, moveValue, speedPPS, time, i)
    ensures !NeverFalls(polls, mask, WaitCalc(moveValue, speedPPS), i)
  {
    BudgetSound(moveValue, speedPPS);
    var k := LateAfterRating(moveValue, speedPPS, time, i);
    ClearBeforeEnd(polls, mask, WaitCalc(moveValue, speedPPS), i, k);
  }

  ghost predicate RatedBy(polls: Polls, mask: U16, moveValue: U16, speedPPS: int, time: nat -> real) {
    forall i: nat {:trigger Rises(polls, mask, i)} :: i < LOW_HIGH_WAIT - 1 && Rises(polls, mask, i) ==>
      WithinRating(polls, mask, moveValue, speedPPS, time, i)
  }

  /** The lens makes moves of this length within its rating, whatever the times of the polls are. */
  ghost predicate Rated(polls: Polls, mask: U16, moveValue: U16, speedPPS: int) {
    exists time: nat -> real :: RatedBy(polls, mask, moveValue, speedPPS, time)
  }

  lemma {:induction false} RatedNeverFalls(polls: Polls, mask: U16, moveValue: U16, speedPPS: int)
    requires speedPPS > 0 && Rated(polls, mask, moveValue, speedPPS)
    ensures forall i: nat {:trigger NeverFalls(polls, mask, WaitCalc(moveValue, speedPPS), i)} ::
              !NeverFalls(polls, mask, WaitCalc(moveValue, speedPPS), i)
  {
    var time :| RatedBy(polls, mask, moveValue, speedPPS, time);
    forall i: nat ensures !NeverFalls(polls, mask, WaitCalc(moveValue, speedPPS), i) {
      if i < LOW_HIGH_WAIT - 1 && Rises(polls, mask, i) {
        RatedLensNeverTimesOut(polls, mask, moveValue, speedPPS, time, i);
      }
    }
  }

  /** The first clear read among those from lo on, if there is one before hi. */
  lemma {:induction false} FirstClear(polls: Polls, mask: U16, lo: nat, hi: nat) returns (j: nat)
    requires lo < hi && !NoneClear(polls, mask, lo, hi)
    ensures lo <= j < hi && AllClear(polls(j), mask) && NoneClear(polls, mask, lo, j)
  {
    j := lo;
    while !AllClear(polls(j), mask)
      invariant lo <= j < hi && NoneClear(polls, mask, lo, j)
      decreases hi - j
    {
      j := j + 1;
    }
  }

  lemma FallsInTime(polls: Polls, mask: U16, waitTime: int, i: nat)
    requires i < LOW_HIGH_WAIT - 1 && Rises(polls, mask, i) && waitTime > 1 && !NeverFalls(polls, mask, waitTime, i)
    requires forall k {:trigger polls(k)} :: Delivers(polls(k))
    ensures exists j :: WaitSucceeds(polls, mask, waitTime, i, j)
  {
    var j := FirstClear(polls, mask, i + 1, i + waitTime);
    assert WaitSucceeds(polls, mask, waitTime, i, j);
  }

  /** What the rating means for a move. */
  lemma {:induction false} RatedMove(script: Script, mask: U16, moveValue: U16, speedPPS: int)
    requires speedPPS > 0
    ensures Rated(script.polls, mask, moveValue, speedPPS) ==>
              && !(exists i :: NeverFalls(script.polls, mask, WaitCalc(moveValue, speedPPS), i))
              && (Works(script, mask) ==> Completes(script, mask, WaitCalc(moveValue, speedPPS)))
  {
    if Rated(script.polls, mask, moveValue, speedPPS) {
      RatedNeverFalls(script.polls, mask, moveValue, speedPPS);
      if Works(script, mask) {
        var i: nat :| i < LOW_HIGH_WAIT - 1 && Rises(script.polls, mask, i);
        BudgetSound(moveValue, speedPPS);
        FallsInTime(script.polls, mask, WaitCalc(moveValue, speedPPS), i);
      }
    }
  }

  lemma ClearBeforeEnd(polls: Polls, mask: U16, waitTime: int, i: nat, k: nat)
    requires i < k < i + waitTime && (Delivers(polls(k)) ==> AllClear(polls(k), mask))
    ensures !NeverFalls(polls, mask, waitTime, i)
  {
  }

  lemma LongEnough(elapsed: real, c: int, s: int, m: int)
    requires elapsed >= c as real && s > 0 && c * s >= 1000 * m
    ensures elapsed * s as real >= 1000.0 * m as real
  {
    assert elapsed * s as real >= c as real * s as real;
    assert c as real * s as real == (c * s) as real;
  }

  lemma {:induction false} PollsLast(time: nat -> real, i: nat, n: nat)
    requires time(i + 1) >= time(i) && forall k: nat {:trigger Lasts(time, k)} :: k > i ==> Lasts(time, k)
    ensures time(i + 1 + n) - time(i) >= n as real
  {
    if n > 0 {
      PollsLast(time, i, n - 1);
      assert Lasts(time, i + n);
    }
  }
}
