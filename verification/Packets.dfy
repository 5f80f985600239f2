/**
 Packets exchanged with Level2: fixed-width text fields, one after the other without gaps.
 A generator copies padded text into the fields of a buffer; a receiver takes the fields
 apart again.
 */
module Packets {
  import opened Wrappers
  import opened Text
  import Normalizer

  // ----- Layouts -----

  /** cTcCode, cDate, cTcLength, cLotNo, cMtNo, cMtTypeCd, cMtStand, cCount, cSpare */
  const JOB_COMPLETE: seq<nat> := [4, 14, 6, 15, 15, 2, 30, 5, 10]

  /** cTcCode, cDate, cTcLength, cCount, cWork, cSpare */
  const ALIVE: seq<nat> := [4, 14, 6, 4, 2, 20]

  /** The job instruction, TC code 1001. */
  const INSTRUCTION: seq<nat> :=
    [4, 14, 6, 15, 15, 6, 6, 5, 2, 30, 16, 30, 6, 4, 6, 6, 4, 1, 1, 4, 4, 4, 4, 4, 4, 3, 3, 3, 3, 1, 6, 292]

  const DATE := 1
  const LOT_NO := 3
  const MT_NO := 4
  const MT_TYPE_CD := 8
  const MT_STAND := 9
  const FM_SPEED := 16
  const STAND_SIZE1 := 23
  const STAND_SIZE2 := 24
  const STAND_SIZE3 := 25
  const STAND_SIZE4 := 26
  const FM_LENGTH := 30

  /** Where field i begins. */
  function Offset(layout: seq<nat>, i: nat): nat
    requires i <= |layout|
  {
    if i == 0 then 0 else Offset(layout, i - 1) + layout[i - 1]
  }

  function Concat(values: seq<string>): string {
    if values == [] then "" else Concat(values[..|values| - 1]) + values[|values| - 1]
  }

  ghost predicate Fills(layout: seq<nat>, values: seq<string>) {
    |values| == |layout| && forall i :: 0 <= i < |values| ==> |values[i]| == layout[i]
  }

  lemma {:induction false} OffsetGrows(layout: seq<nat>, i: nat, j: nat)
    requires i <= j <= |layout|
    ensures Offset(layout, i) <= Offset(layout, j)
  {
    if i < j {
      OffsetGrows(layout, i, j - 1);
    }
  }

  /** The bytes of field i. */
  function Field(layout: seq<nat>, packet: string, i: nat): (r: string)
    requires i < |layout| && |packet| == Offset(layout, |layout|)
    ensures |r| == layout[i]
  {
    OffsetGrows(layout, i + 1, |layout|);
    packet[Offset(layout, i)..Offset(layout, i + 1)]
  }

  lemma FieldBytes(layout: seq<nat>, packet: string, i: nat)
    requires i < |layout| && |packet| == Offset(layout, |layout|)
    ensures Offset(layout, i) <= Offset(layout, i + 1) <= |packet|
    ensures Field(layout, packet, i) == packet[Offset(layout, i)..Offset(layout, i + 1)]
  {
    OffsetGrows(layout, i + 1, |layout|);
  }

  /** Fields written one after the other tile the packet, and each is read back as it was written. */
  lemma {:induction false} FieldsTile(layout: seq<nat>, values: seq<string>, i: nat)
    requires Fills(layout, values) && i < |layout|
    ensures |Concat(values)| == Offset(layout, |layout|)
    ensures Field(layout, Concat(values), i) == values[i]
  {
    ConcatPrefix(layout, values, |values|);
    ConcatPrefix(layout, values, i + 1);
    ConcatPrefix(layout, values, i);
    assert values[..|values|] == values;
    assert values[..i + 1][..i] == values[..i];
    OffsetGrows(layout, i + 1, |layout|);
    var p := Concat(values);
    assert p[..Offset(layout, i + 1)] == Concat(values[..i]) + values[i];
    assert p[Offset(layout, i)..Offset(layout, i + 1)] == p[..Offset(layout, i + 1)][Offset(layout, i)..];
  }

  /** Field i is the bytes from a to b. */
  lemma BytesOf(layout: seq<nat>, values: seq<string>, i: nat, a: nat, b: nat)
    requires Fills(layout, values) && i < |layout| && Offset(layout, i) == a && Offset(layout, i + 1) == b
    ensures |Concat(values)| == Offset(layout, |layout|) && a <= b <= |Concat(values)|
    ensures Concat(values)[a..b] == values[i]
  {
    FieldsTile(layout, values, i);
    FieldBytes(layout, Concat(values), i);
  }

  lemma {:induction false} ConcatPrefix(layout: seq<nat>, values: seq<string>, n: nat)
    requires Fills(layout, values) && n <= |values|
    ensures |Concat(values[..n])| == Offset(layout, n)
    ensures Concat(values[..n]) <= Concat(values)
  {
    ConcatLength(layout, values, n);
    ConcatLength(layout, values, |values|);
    ConcatMonotone(values, n, |values|);
    assert values[..|values|] == values;
  }

  lemma {:induction false} ConcatLength(layout: seq<nat>, values: seq<string>, n: nat)
    requires Fills(layout, values) && n <= |values|
    ensures |Concat(values[..n])| == Offset(layout, n)
  {
    if n > 0 {
      ConcatLength(layout, values, n - 1);
      assert values[..n][..n - 1] == values[..n - 1];
    }
  }

  lemma {:induction false} ConcatMonotone(values: seq<string>, m: nat, n: nat)
    requires m <= n <= |values|
    ensures Concat(values[..m]) <= Concat(values[..n])
  {
    if m < n {
      ConcatMonotone(values, m, n - 1);
      assert values[..n][..n - 1] == values[..n - 1];
    }
  }

  lemma FirstOffset(layout: seq<nat>)
    ensures Offset(layout, 0) == 0
  {
  }

  /** The next field begins where this one ends. */
  lemma NextOffset(layout: seq<nat>, i: nat)
    requires i < |layout|
    ensures Offset(layout, i + 1) == Offset(layout, i) + layout[i]
  {
  }

  /** Where the fields of an instruction begin. */
  lemma OffsetsTo5()
    ensures Offset(INSTRUCTION, 1) == 4
    ensures Offset(INSTRUCTION, 2) == 18
    ensures Offset(INSTRUCTION, 3) == 24
    ensures Offset(INSTRUCTION, 4) == 39
    ensures Offset(INSTRUCTION, 5) == 54
  {
    hide Offset;
    FirstOffset(INSTRUCTION);
    NextOffset(INSTRUCTION, 0);
    NextOffset(INSTRUCTION, 1);
    NextOffset(INSTRUCTION, 2);
    NextOffset(INSTRUCTION, 3);
    NextOffset(INSTRUCTION, 4);
  }

  lemma OffsetsTo10()
    ensures Offset(INSTRUCTION, 6) == 60
    ensures Offset(INSTRUCTION, 7) == 66
    ensures Offset(INSTRUCTION, 8) == 71
    ensures Offset(INSTRUCTION, 9) == 73
    ensures Offset(INSTRUCTION, 10) == 103
  {
    OffsetsTo5();
    hide Offset;
    NextOffset(INSTRUCTION, 5);
    NextOffset(INSTRUCTION, 6);
    NextOffset(INSTRUCTION, 7);
    NextOffset(INSTRUCTION, 8);
    NextOffset(INSTRUCTION, 9);
  }

  lemma OffsetsTo17()
    ensures Offset(INSTRUCTION, 11) == 119
    ensures Offset(INSTRUCTION, 12) == 149
    ensures Offset(INSTRUCTION, 13) == 155
    ensures Offset(INSTRUCTION, 14) == 159
    ensures Offset(INSTRUCTION, 15) == 165
    ensures Offset(INSTRUCTION, 16) == 171
    ensures Offset(INSTRUCTION, 17) == 175
  {
    OffsetsTo10();
    hide Offset;
    NextOffset(INSTRUCTION, 10);
    NextOffset(INSTRUCTION, 11);
    NextOffset(INSTRUCTION, 12);
    NextOffset(INSTRUCTION, 13);
    NextOffset(INSTRUCTION, 14);
    NextOffset(INSTRUCTION, 15);
    NextOffset(INSTRUCTION, 16);
  }

  lemma OffsetsTo24()
    ensures Offset(INSTRUCTION, 18) == 176
    ensures Offset(INSTRUCTION, 19) == 177
    ensures Offset(INSTRUCTION, 20) == 181
    ensures Offset(INSTRUCTION, 21) == 185
    ensures Offset(INSTRUCTION, 22) == 189
    ensures Offset(INSTRUCTION, 23) == 193
    ensures Offset(INSTRUCTION, 24) == 197
  {
    OffsetsTo17();
    hide Offset;
    NextOffset(INSTRUCTION, 17);
    NextOffset(INSTRUCTION, 18);
    NextOffset(INSTRUCTION, 19);
    NextOffset(INSTRUCTION, 20);
    NextOffset(INSTRUCTION, 21);
    NextOffset(INSTRUCTION, 22);
    NextOffset(INSTRUCTION, 23);
  }

  lemma OffsetsTo31()
    ensures Offset(INSTRUCTION, 25) == 201
    ensures Offset(INSTRUCTION, 26) == 204
    ensures Offset(INSTRUCTION, 27) == 207
    ensures Offset(INSTRUCTION, 28) == 210
    ensures Offset(INSTRUCTION, 29) == 213
    ensures Offset(INSTRUCTION, 30) == 214
    ensures Offset(INSTRUCTION, 31) == 220
  {
    OffsetsTo24();
    hide Offset;
    NextOffset(INSTRUCTION, 24);
    NextOffset(INSTRUCTION, 25);
    NextOffset(INSTRUCTION, 26);
    NextOffset(INSTRUCTION, 27);
    NextOffset(INSTRUCTION, 28);
    NextOffset(INSTRUCTION, 29);
    NextOffset(INSTRUCTION, 30);
  }

  lemma InstructionSize()
    ensures Offset(INSTRUCTION, 32) == 512
  {
    OffsetsTo31();
    NextOffset(INSTRUCTION, 31);
  }

  /** Where the fields of a job-complete packet begin. */
  lemma JobCompleteOffsets()
    ensures Offset(JOB_COMPLETE, 0) == 0 && Offset(JOB_COMPLETE, 1) == 4 && Offset(JOB_COMPLETE, 2) == 18
    ensures Offset(JOB_COMPLETE, 3) == 24 && Offset(JOB_COMPLETE, 4) == 39 && Offset(JOB_COMPLETE, 5) == 54
    ensures Offset(JOB_COMPLETE, 6) == 56 && Offset(JOB_COMPLETE, 7) == 86 && Offset(JOB_COMPLETE, 8) == 91
    ensures Offset(JOB_COMPLETE, 9) == 101
  {
    hide Offset;
    FirstOffset(JOB_COMPLETE);
    NextOffset(JOB_COMPLETE, 0);
    NextOffset(JOB_COMPLETE, 1);
    NextOffset(JOB_COMPLETE, 2);
    NextOffset(JOB_COMPLETE, 3);
    NextOffset(JOB_COMPLETE, 4);
    NextOffset(JOB_COMPLETE, 5);
    NextOffset(JOB_COMPLETE, 6);
    NextOffset(JOB_COMPLETE, 7);
    NextOffset(JOB_COMPLETE, 8);
  }

  /** Where the fields of an alive packet begin. */
  lemma AliveOffsets()
    ensures Offset(ALIVE, 0) == 0 && Offset(ALIVE, 1) == 4 && Offset(ALIVE, 2) == 18 && Offset(ALIVE, 3) == 24
    ensures Offset(ALIVE, 4) == 28 && Offset(ALIVE, 5) == 30 && Offset(ALIVE, 6) == 50
  {
    hide Offset;
    FirstOffset(ALIVE);
    NextOffset(ALIVE, 0);
    NextOffset(ALIVE, 1);
    NextOffset(ALIVE, 2);
    NextOffset(ALIVE, 3);
    NextOffset(ALIVE, 4);
    NextOffset(ALIVE, 5);
  }

  lemma {:induction false} PacketSizes()
    ensures Offset(JOB_COMPLETE, 9) == 101
    ensures Offset(ALIVE, 6) == 50
    ensures Offset(INSTRUCTION, 32) == 512
  {
    InstructionSize();
    JobCompleteOffsets();
    AliveOffsets();
  }

  // ----- Numbers -----

  function Digit(d: nat): char
    requires d < 10
  {
    '0' + d as char
  }

  function Decimal(n: nat): string {
    if n < 10 then [Digit(n)] else Decimal(n / 10) + [Digit(n % 10)]
  }

  /** A stream prints a negative number with its sign. */
  function Print(n: int): string {
    if n < 0 then "-" + Decimal(-n) else Decimal(n)
  }

  predicate AllDigits(s: string) { forall i :: 0 <= i < |s| ==> IsDigit(s[i]) }

  function Value(s: string): nat
    requires AllDigits(s)
  {
    if s == "" then 0 else 10 * Value(s[..|s| - 1]) + (s[|s| - 1] - '0') as nat
  }

  function Pow10(k: nat): nat { if k == 0 then 1 else 10 * Pow10(k - 1) }

  function Repeat(c: char, k: nat): string { seq(k, _ => c) }

  /** setw with left adjustment and blanks. */
  function PadRight(s: string, w: nat): (r: string)
    ensures |r| >= w
  {
    if |s| < w then s + Repeat(' ', w - |s|) else s
  }

  /** setw with right adjustment and a fill. */
  function PadLeft(s: string, w: nat, fill: char): (r: string)
    ensures |r| >= w
  {
    if |s| < w then Repeat(fill, w - |s|) + s else s
  }

  lemma {:induction false} DecimalFact(n: nat)
    ensures AllDigits(Decimal(n)) && Value(Decimal(n)) == n && Decimal(n) != ""
  {
    if n >= 10 {
      DecimalFact(n / 10);
      assert Decimal(n)[..|Decimal(n)| - 1] == Decimal(n / 10);
    }
  }

  lemma {:induction false} ValueBound(s: string)
    requires AllDigits(s)
    ensures Value(s) < Pow10(|s|)
  {
    if s != "" {
      ValueBound(s[..|s| - 1]);
    }
  }

  /** A number has at most k digits exactly when it is below 10 to the k. */
  lemma {:induction false} DecimalLength(n: nat, k: nat)
    requires k > 0
    ensures |Decimal(n)| <= k <==> n < Pow10(k)
  {
    if n >= 10 {
      if k == 1 {
        DecimalFact(n / 10);
      } else {
        DecimalLength(n / 10, k - 1);
      }
    } else {
      PowPositive(k - 1);
    }
  }

  lemma {:induction false} PowPositive(k: nat)
    ensures Pow10(k) >= 1
  {
    if k > 0 { PowPositive(k - 1); }
  }

  lemma {:induction false} ZerosCountNothing(k: nat, s: string)
    requires AllDigits(s)
    ensures AllDigits(Repeat('0', k) + s) && Value(Repeat('0', k) + s) == Value(s)
  {
    if s == "" {
      if k > 0 {
        ZerosCountNothing(k - 1, "");
        assert Repeat('0', k) + s == Repeat('0', k);
        assert Repeat('0', k)[..k - 1] == Repeat('0', k - 1) + "";
      }
    } else {
      ZerosCountNothing(k, s[..|s| - 1]);
      assert (Repeat('0', k) + s)[..k + |s| - 1] == Repeat('0', k) + s[..|s| - 1];
    }
  }

  // ----- Job complete -----

  datatype JobComplete = JobComplete(lotNo: string, mtNo: string, mtTypeCd: string, mtStand: string, frames: int)

  /** What memcpy takes of the text for a field of width w. */
  function Cut(s: string, w: nat): string
    requires |s| >= w
  {
    s[..w]
  }

  function TextField(s: string, w: nat): (r: string)
    ensures |r| == w
  {
    Cut(PadRight(s, w), w)
  }

  function Padded(n: int, w: nat, fill: char): (r: string)
    ensures |r| == w
  {
    Cut(PadLeft(Print(n), w, fill), w)
  }

  function NumberField(n: int, w: nat): string { Padded(n, w, '0') }

  function JobCompleteFields(now: string, job: JobComplete): seq<string>
    requires |now| == 14
  {
    ["1101", now, NumberField(101, 6), TextField(job.lotNo, 15), TextField(job.mtNo, 15), TextField(job.mtTypeCd, 2),
     TextField(job.mtStand, 30), NumberField(job.frames, 5), Repeat('0', 10)]
  }

  function WithoutTrailingBlanks(s: string): string {
    if s != "" && s[|s| - 1] == ' ' then WithoutTrailingBlanks(s[..|s| - 1]) else s
  }

  predicate EndsBlank(s: string) { s != "" && s[|s| - 1] == ' ' }

  /** The reader of a job-complete packet: text without the padding, the count as decimal digits. */
  function DecodeJobComplete(packet: string): Option<JobComplete>
    requires |packet| == Offset(JOB_COMPLETE, |JOB_COMPLETE|)
  {
    var count := Field(JOB_COMPLETE, packet, 7);
    if !AllDigits(count) then None
    else Some(JobComplete(WithoutTrailingBlanks(Field(JOB_COMPLETE, packet, 3)),
                          WithoutTrailingBlanks(Field(JOB_COMPLETE, packet, 4)),
                          WithoutTrailingBlanks(Field(JOB_COMPLETE, packet, 5)),
                          WithoutTrailingBlanks(Field(JOB_COMPLETE, packet, 6)),
                          Value(count)))
  }

  predicate TextFits(s: string, w: nat) { |s| <= w && !EndsBlank(s) }

  lemma {:induction false} TrailingBlanks(s: string, k: nat)
    ensures WithoutTrailingBlanks(s + Repeat(' ', k)) == WithoutTrailingBlanks(s)
  {
    if k == 0 {
      assert s + Repeat(' ', 0) == s;
    } else {
      assert (s + Repeat(' ', k))[..|s| + k - 1] == s + Repeat(' ', k - 1);
      TrailingBlanks(s, k - 1);
    }
  }

  lemma {:induction false} TrimShortens(s: string)
    ensures |WithoutTrailingBlanks(s)| <= |s|
    ensures WithoutTrailingBlanks(s) == s <==> !EndsBlank(s)
  {
    if EndsBlank(s) {
      TrimShortens(s[..|s| - 1]);
    }
  }

  /** A text field gives its text back exactly when the text fits and does not end in a blank. */
  lemma {:induction false} TextFieldBack(s: string, w: nat)
    ensures WithoutTrailingBlanks(TextField(s, w)) == s <==> TextFits(s, w)
  {
    TrimShortens(TextField(s, w));
    TrimShortens(s);
    if |s| <= w {
      TrailingBlanks(s, w - |s|);
      assert TextField(s, w) == s + Repeat(' ', w - |s|);
    }
  }

  /** A number field gives its number back exactly when it is not negative and has at most w digits. */
  lemma {:induction false} NumberFieldBack(n: int, w: nat)
    requires w > 0
    ensures AllDigits(NumberField(n, w)) && Value(NumberField(n, w)) == n <==> 0 <= n < Pow10(w)
  {
    var f := NumberField(n, w);
    if n < 0 {
      var p := PadLeft(Print(n), w, '0');
      var at := if |Print(n)| < w then w - |Print(n)| else 0;
      assert p[at] == '-' && f[at] == p[at];
    } else {
      DecimalFact(n);
      DecimalLength(n, w);
      if |Decimal(n)| <= w {
        ZerosCountNothing(w - |Decimal(n)|, Decimal(n));
        assert f == Repeat('0', w - |Decimal(n)|) + Decimal(n);
      } else {
        assert f == Decimal(n)[..w];
        hide Decimal, Value, PadLeft, Padded, Pow10;
        ValueBound(f);
      }
    }
  }

  lemma JobCompleteFills(now: string, job: JobComplete)
    requires |now| == 14
    ensures Fills(JOB_COMPLETE, JobCompleteFields(now, job))
  {
  }

  predicate JobFits(job: JobComplete) {
    && TextFits(job.lotNo, 15) && TextFits(job.mtNo, 15) && TextFits(job.mtTypeCd, 2) && TextFits(job.mtStand, 30)
    && 0 <= job.frames <= 99999
  }

  /** The packet has 101 bytes, and the job is read back exactly when all of its fields fit. */
  lemma {:induction false} JobCompleteRoundTrip(now: string, job: JobComplete)
    requires |now| == 14
    ensures var packet := Concat(JobCompleteFields(now, job));
            && |packet| == 101 == Offset(JOB_COMPLETE, |JOB_COMPLETE|)
            && (DecodeJobComplete(packet) == Some(job) <==> JobFits(job))
            && Field(JOB_COMPLETE, packet, 0) == "1101" && Field(JOB_COMPLETE, packet, 1) == now
            && Field(JOB_COMPLETE, packet, 2) == "000101"
  {
    var values := JobCompleteFields(now, job);
    JobCompleteFills(now, job);
    PacketSizes();
    FieldsTile(JOB_COMPLETE, values, 0);
    forall i: nat | i < 9 ensures Field(JOB_COMPLETE, Concat(values), i) == values[i] {
      FieldsTile(JOB_COMPLETE, values, i);
    }
    TextFieldBack(job.lotNo, 15);
    TextFieldBack(job.mtNo, 15);
    TextFieldBack(job.mtTypeCd, 2);
    TextFieldBack(job.mtStand, 30);
    NumberFieldBack(job.frames, 5);
    assert Pow10(5) == 100000 by { assert Pow10(3) == 1000; }
    Length101();
  }

  /** Which bytes of a job-complete packet are which field. */
  lemma {:induction false} JobCompleteBytes(now: string, job: JobComplete)
    requires |now| == 14
    ensures var p := Concat(JobCompleteFields(now, job));
            && |p| == 101 && p[..4] == "1101" && p[4..18] == now && p[18..24] == "000101"
            && p[24..39] == TextField(job.lotNo, 15) && p[39..54] == TextField(job.mtNo, 15)
            && p[54..56] == TextField(job.mtTypeCd, 2) && p[56..86] == TextField(job.mtStand, 30)
            && p[86..91] == NumberField(job.frames, 5) && p[91..] == "0000000000"
  {
    var v := JobCompleteFields(now, job);
    var p := Concat(v);
    JobCompleteFills(now, job);
    Length101();
    assert Repeat('0', 10) == "0000000000";
    hide Concat, Offset, TextField, NumberField, Repeat;
    JobCompleteOffsets();
    BytesOf(JOB_COMPLETE, v, 0, 0, 4);
    BytesOf(JOB_COMPLETE, v, 1, 4, 18);
    BytesOf(JOB_COMPLETE, v, 2, 18, 24);
    BytesOf(JOB_COMPLETE, v, 3, 24, 39);
    BytesOf(JOB_COMPLETE, v, 4, 39, 54);
    BytesOf(JOB_COMPLETE, v, 5, 54, 56);
    BytesOf(JOB_COMPLETE, v, 6, 56, 86);
    BytesOf(JOB_COMPLETE, v, 7, 86, 91);
    BytesOf(JOB_COMPLETE, v, 8, 91, 101);
  }

  lemma Length101()
    ensures NumberField(101, 6) == "000101"
  {
    assert Decimal(1) == "1" && Decimal(10) == "10" && Decimal(101) == "101";
  }

  /** memcpy of n bytes of src to offset at. */
  method MemCpy(dst: array<char>, at: nat, src: string, n: nat)
    requires n <= |src| && at + n <= dst.Length
    modifies dst
    ensures dst[..at + n] == old(dst[..at]) + src[..n]
  {
    for i := 0 to n
      invariant dst[..at + i] == old(dst[..at]) + src[..i]
    {
      dst[at + i] := src[i];
      assert dst[..at + i + 1] == dst[..at + i] + [src[i]];
    }
  }

  /** Fills the next field of a packet. */
  method WriteField(packet: array<char>, at: nat, src: string, n: nat, ghost v: seq<string>, ghost k: nat)
    requires n <= |src| && at + n <= packet.Length && k < |v| && v[k] == src[..n]
    requires packet[..at] == Concat(v[..k])
    modifies packet
    ensures packet[..at + n] == Concat(v[..k + 1])
  {
    MemCpy(packet, at, src, n);
    assert v[..k + 1][..k] == v[..k];
  }

  /** The three fields every packet starts with: its code, the time and its length. */
  method WriteHeader(packet: array<char>, code: string, now: string, length: nat, ghost v: seq<string>)
    requires |code| == 4 && |now| == 14 && packet.Length >= 24 && |v| >= 3
    requires v[..3] == [code, now, NumberField(length, 6)]
    modifies packet
    ensures packet[..24] == Concat(v[..3])
  {
    assert packet[..0] == Concat(v[..0]);
    assert v[0] == v[..3][0] && v[1] == v[..3][1] && v[2] == v[..3][2];
    hide Concat, PadLeft, Print;
    WriteField(packet, 0, code, 4, v, 0);
    WriteField(packet, 4, now, 14, v, 1);
    WriteField(packet, 18, PadLeft(Print(length), 6, '0'), 6, v, 2);
  }

  method GeneratePacketJobComplete(now: string, job: JobComplete) returns (packet: array<char>)
    requires |now| == 14
    ensures fresh(packet) && packet[..] == Concat(JobCompleteFields(now, job))
  {
    packet := new char[101];
    ghost var v := JobCompleteFields(now, job);
    hide Concat, PadLeft, PadRight, Print;
    WriteHeader(packet, "1101", now, 101, v);
    WriteField(packet, 24, PadRight(job.lotNo, 15), 15, v, 3);
    WriteField(packet, 39, PadRight(job.mtNo, 15), 15, v, 4);
    WriteField(packet, 54, PadRight(job.mtTypeCd, 2), 2, v, 5);
    WriteField(packet, 56, PadRight(job.mtStand, 30), 30, v, 6);
    WriteField(packet, 86, PadLeft(Print(job.frames), 5, '0'), 5, v, 7);
    WriteField(packet, 91, Repeat('0', 10), 10, v, 8);
    assert v[..9] == v && packet[..] == packet[..101];
  }

  // ----- Alive -----

  function AliveFields(now: string, count: nat, working: bool): seq<string>
    requires |now| == 14
  {
    ["1199", now, NumberField(50, 6), NumberField(count, 4), if working then "01" else "99", Repeat('0', 20)]
  }

  /** The generator of alive packets and its counter, which never leaves 0..9999. */
  class AliveGenerator {
    var counter: nat
    ghost var generated: nat

    ghost predicate Valid()
      reads this
    {
      counter == generated % 10000
    }

    constructor ()
      ensures Valid() && generated == 0
    {
      counter, generated := 0, 0;
    }

    method GeneratePacketAlive(now: string, working: bool) returns (packet: array<char>)
      requires Valid() && |now| == 14
      modifies this
      ensures Valid() && generated == old(generated) + 1 && fresh(packet)
      ensures packet[..] == Concat(AliveFields(now, old(generated) % 10000, working))
    {
      packet := FillAlive(now, counter, working);
      counter := counter + 1;
      if counter > 9999 {
        counter := 0;
      }
      generated := generated + 1;
    }
  }

  method FillAlive(now: string, counter: nat, working: bool) returns (packet: array<char>)
    requires |now| == 14
    ensures fresh(packet) && packet[..] == Concat(AliveFields(now, counter, working))
  {
    packet := new char[50];
    ghost var v := AliveFields(now, counter, working);
    hide Concat, PadLeft, PadRight, Print;
    WriteHeader(packet, "1199", now, 50, v);
    WriteField(packet, 24, PadLeft(Print(counter), 4, '0'), 4, v, 3);
    WriteField(packet, 28, if working then "01" else "99", 2, v, 4);
    WriteField(packet, 30, Repeat('0', 20), 20, v, 5);
    assert v[..6] == v && packet[..] == packet[..50];
  }

  /** The n-th alive packet has 50 bytes and carries n modulo 10000 as four digits. */
  lemma {:induction false} AliveCarriesCount(now: string, n: nat, working: bool)
    requires |now| == 14
    ensures var packet := Concat(AliveFields(now, n % 10000, working));
            && |packet| == 50 == Offset(ALIVE, |ALIVE|)
            && var count := Field(ALIVE, packet, 3);
               |count| == 4 && AllDigits(count) && Value(count) == n % 10000
  {
    var values := AliveFields(now, n % 10000, working);
    NumberFieldBack(50, 6);
    NumberFieldBack(n % 10000, 4);
    assert Pow10(4) == 10000 by { assert Pow10(2) == 100; }
    PacketSizes();
    FieldsTile(ALIVE, values, 3);
  }

  /** Which bytes of an alive packet are which field. */
  lemma {:induction false} AliveBytes(now: string, n: nat, working: bool)
    requires |now| == 14
    ensures var p := Concat(AliveFields(now, n % 10000, working));
            && |p| == 50 && p[..4] == "1199" && p[4..18] == now && p[18..24] == "000050"
            && p[24..28] == NumberField(n % 10000, 4) && p[28..30] == (if working then "01" else "99")
            && p[30..] == "00000000000000000000"
  {
    var v := AliveFields(now, n % 10000, working);
    var p := Concat(v);
    Length50();
    assert Repeat('0', 20) == "00000000000000000000";
    AliveFills(now, n % 10000, working);
    hide Concat, Offset, NumberField, Repeat;
    AliveOffsets();
    BytesOf(ALIVE, v, 0, 0, 4);
    BytesOf(ALIVE, v, 1, 4, 18);
    BytesOf(ALIVE, v, 2, 18, 24);
    BytesOf(ALIVE, v, 3, 24, 28);
    BytesOf(ALIVE, v, 4, 28, 30);
    BytesOf(ALIVE, v, 5, 30, 50);
  }

  lemma AliveFills(now: string, count: nat, working: bool)
    requires |now| == 14
    ensures Fills(ALIVE, AliveFields(now, count, working))
  {
  }

  lemma Length50()
    ensures NumberField(50, 6) == "000050"
  {
    assert Decimal(5) == "5" && Decimal(50) == "50";
  }

  // ----- Job instruction -----

  /** stoi: a sign, then as many digits as there are; None where it throws. White space is gone before. */
  function Stoi(s: string): Option<int> {
    var sign := if s != "" && (s[0] == '-' || s[0] == '+') then 1 else 0;
    var d := DigitsFrom(s, sign);
    if d == sign then None
    else Some(if s[0] == '-' then 0 - Value(s[sign..d]) else Value(s[sign..d]))
  }

  function DigitsFrom(s: string, i: nat): (d: nat)
    requires i <= |s|
    ensures i <= d <= |s| && AllDigits(s[i..d]) && (d < |s| ==> !IsDigit(s[d]))
    decreases |s| - i
  {
    if i < |s| && IsDigit(s[i]) then
      var d := DigitsFrom(s, i + 1);
      assert s[i..d] == [s[i]] + s[i + 1..d];
      d
    else i
  }

  /** What the receiver publishes of an instruction. */
  datatype Dispatch = Dispatch(date: string, lotNo: string, mtNo: string, mtTypeCd: string,
                               mtStandRaw: string, mtStandNorm: string,
                               height: int, width: int, t1: int, t2: int, fmLength: int, fmSpeed: int)

  /** The fields of a packet of the instruction's length. */
  function FieldsOf(data: string): (r: seq<string>)
    requires |data| == Offset(INSTRUCTION, |INSTRUCTION|)
    ensures Fills(INSTRUCTION, r)
  {
    seq(32, i requires 0 <= i < 32 => Field(INSTRUCTION, data, i))
  }

  function NumberIn(fields: seq<string>, i: nat): Option<int>
    requires i < |fields|
  {
    Stoi(RemoveSpace(fields[i]))
  }

  function TextIn(fields: seq<string>, i: nat): string
    requires i < |fields|
  {
    RemoveSpace(fields[i])
  }

  /** The number fields have to parse, or an exception ends the branch. */
  function Assemble(date: string, lotNo: string, mtNo: string, mtTypeCd: string, raw: string, norm: string,
                    height: Option<int>, width: Option<int>, t1: Option<int>, t2: Option<int>,
                    fmLength: Option<int>, fmSpeed: Option<int>): Option<Dispatch>
  {
    if height.None? || width.None? || t1.None? || t2.None? || fmLength.None? || fmSpeed.None? then None
    else Some(Dispatch(date, lotNo, mtNo, mtTypeCd, raw, norm,
                       height.value, width.value, t1.value, t2.value, fmLength.value, fmSpeed.value))
  }

  /** The 1001 branch of the receiver. */
  function ReadInstruction(fields: seq<string>): Option<Dispatch>
    requires |fields| == 32
  {
    Assemble(TextIn(fields, DATE), TextIn(fields, LOT_NO), TextIn(fields, MT_NO), TextIn(fields, MT_TYPE_CD),
             fields[MT_STAND], Normalizer.Normal(fields[MT_STAND]),
             NumberIn(fields, STAND_SIZE2), NumberIn(fields, STAND_SIZE1),
             NumberIn(fields, STAND_SIZE3), NumberIn(fields, STAND_SIZE4),
             NumberIn(fields, FM_LENGTH), NumberIn(fields, FM_SPEED))
  }

  /** Packets of another code or length are dropped. */
  function ReceiveInstruction(data: string): Option<Dispatch> {
    InstructionSize();
    if |data| == 512 && data[..4] == "1001" then ReadInstruction(FieldsOf(data)) else None
  }

  /** Field i of a received instruction is the bytes from a to b. */
  lemma ReceivedBytes(data: string, i: nat, a: nat, b: nat)
    requires |data| == 512 == Offset(INSTRUCTION, |INSTRUCTION|) && i < 32
    requires Offset(INSTRUCTION, i) == a && Offset(INSTRUCTION, i + 1) == b
    ensures a <= b <= 512 && FieldsOf(data)[i] == data[a..b]
  {
    FieldBytes(INSTRUCTION, data, i);
  }

  /** The number a text begins with once its white space is gone. */
  function NumberOf(text: string): Option<int> { Stoi(RemoveSpace(text)) }

  lemma FieldsRead(data: string)
    requires |data| == 512 == Offset(INSTRUCTION, |INSTRUCTION|)
    ensures var v := FieldsOf(data);
            && v[DATE] == data[4..18] && v[LOT_NO] == data[24..39] && v[MT_NO] == data[39..54]
            && v[MT_TYPE_CD] == data[71..73] && v[MT_STAND] == data[73..103] && v[FM_SPEED] == data[171..175]
            && v[STAND_SIZE1] == data[193..197] && v[STAND_SIZE2] == data[197..201]
            && v[STAND_SIZE3] == data[201..204] && v[STAND_SIZE4] == data[204..207] && v[FM_LENGTH] == data[214..220]
  {
    hide Offset, FieldsOf;
    OffsetsTo5();
    OffsetsTo10();
    OffsetsTo17();
    OffsetsTo24();
    OffsetsTo31();
    ReceivedBytes(data, DATE, 4, 18);
    ReceivedBytes(data, LOT_NO, 24, 39);
    ReceivedBytes(data, MT_NO, 39, 54);
    ReceivedBytes(data, MT_TYPE_CD, 71, 73);
    ReceivedBytes(data, MT_STAND, 73, 103);
    ReceivedBytes(data, FM_SPEED, 171, 175);
    ReceivedBytes(data, STAND_SIZE1, 193, 197);
    ReceivedBytes(data, STAND_SIZE2, 197, 201);
    ReceivedBytes(data, STAND_SIZE3, 201, 204);
    ReceivedBytes(data, STAND_SIZE4, 204, 207);
    ReceivedBytes(data, FM_LENGTH, 214, 220);
  }

  /**
   Which bytes of an instruction packet are received as what: a packet is received exactly when it
   has 512 bytes, the code and six numbers, and then every part of what is published is told by its
   bytes.
   */
  lemma {:induction false} InstructionBytes(data: string, d: Dispatch)
    ensures ReceiveInstruction(data) == Some(d) <==>
              && |data| == 512 && data[..4] == "1001"
              && d.date == RemoveSpace(data[4..18]) && d.lotNo == RemoveSpace(data[24..39])
              && d.mtNo == RemoveSpace(data[39..54]) && d.mtTypeCd == RemoveSpace(data[71..73])
              && d.mtStandRaw == data[73..103] && d.mtStandNorm == Normalizer.Normal(data[73..103])
              && NumberOf(data[171..175]) == Some(d.fmSpeed) && NumberOf(data[214..220]) == Some(d.fmLength)
              && NumberOf(data[193..197]) == Some(d.width) && NumberOf(data[197..201]) == Some(d.height)
              && NumberOf(data[201..204]) == Some(d.t1) && NumberOf(data[204..207]) == Some(d.t2)
  {
    if |data| == 512 && data[..4] == "1001" {
      InstructionSize();
      FieldsRead(data);
      var v := FieldsOf(data);
      hide Offset, Stoi, RemoveSpace, Assemble, Normalizer.Normal, FieldsOf;
      Assembled(d, TextIn(v, DATE), TextIn(v, LOT_NO), TextIn(v, MT_NO), TextIn(v, MT_TYPE_CD),
                v[MT_STAND], Normalizer.Normal(v[MT_STAND]),
                NumberIn(v, STAND_SIZE2), NumberIn(v, STAND_SIZE1), NumberIn(v, STAND_SIZE3),
                NumberIn(v, STAND_SIZE4), NumberIn(v, FM_LENGTH), NumberIn(v, FM_SPEED));
    }
  }

  /** The raw standard is the whole field, the short form that of the field. */
  lemma ReceivedStandard(data: string, d: Dispatch)
    ensures ReceiveInstruction(data) == Some(d) ==>
              |data| == 512 && d.mtStandRaw == data[73..103] && d.mtStandNorm == Normalizer.Normal(d.mtStandRaw)
  {
    InstructionBytes(data, d);
  }

  lemma {:induction false} BlanksVanish(s: string, k: nat)
    ensures RemoveSpace(s + Repeat(' ', k)) == RemoveSpace(s)
    ensures RemoveSpace(Repeat(' ', k) + s) == RemoveSpace(s)
  {
    Normalizer.AllSpace(Repeat(' ', k));
    RemoveSpaceAppend(s, Repeat(' ', k));
    RemoveSpaceAppend(Repeat(' ', k), s);
  }

  /** A padded text field is read back exactly when the text fits and has no white space. */
  lemma {:induction false} TextRead(s: string, w: nat)
    ensures RemoveSpace(TextField(s, w)) == s <==> |s| <= w && Spaceless(s)
  {
    RemoveSpaceSpaceless(s);
    RemoveSpaceSpaceless(TextField(s, w));
    if |s| <= w {
      BlanksVanish(s, w - |s|);
      assert TextField(s, w) == s + Repeat(' ', w - |s|);
    } else {
      RemoveSpaceShortens(TextField(s, w));
    }
  }

  lemma {:induction false} RemoveSpaceShortens(s: string)
    ensures |RemoveSpace(s)| <= |s|
  {
    if s != "" {
      RemoveSpaceShortens(s[1..]);
    }
  }

  lemma DigitsSpaceless(s: string)
    requires AllDigits(s)
    ensures RemoveSpace(s) == s
  {
    RemoveSpaceSpaceless(s);
  }

  lemma StoiDigits(s: string)
    requires AllDigits(s) && s != ""
    ensures Stoi(s) == Some(Value(s))
  {
    var d := DigitsFrom(s, 0);
    assert d == |s|;
    assert s[0..d] == s;
  }

  /** A sign or none, digits, and whatever follows them: the number is that of the digits, with the sign. */
  lemma {:induction false} StoiTells(sign: string, digits: string, rest: string)
    requires sign == "" || sign == "-" || sign == "+"
    requires AllDigits(digits) && (rest == "" || !IsDigit(rest[0]))
    requires sign == "" && digits == "" && rest != "" ==> rest[0] != '-' && rest[0] != '+'
    ensures Stoi(sign + digits + rest)
         == if digits == "" then None else Some(if sign == "-" then 0 - Value(digits) else Value(digits))
  {
    hide Stoi, DigitsFrom, Value;
    var t, n := sign + digits + rest, |sign|;
    StoiText(sign, digits, rest);
    StoiFrom(t, n);
    DigitsEnd(t, n, DigitsFrom(t, n), n + |digits|);
  }

  /** The sign, the digits and their end, in the text. */
  lemma StoiText(sign: string, digits: string, rest: string)
    requires sign == "" || sign == "-" || sign == "+"
    requires AllDigits(digits) && (rest == "" || !IsDigit(rest[0]))
    requires sign == "" && digits == "" && rest != "" ==> rest[0] != '-' && rest[0] != '+'
    ensures var t, n := sign + digits + rest, |sign|;
            && n == (if t != "" && (t[0] == '-' || t[0] == '+') then 1 else 0)
            && n + |digits| <= |t| && t[n..n + |digits|] == digits
            && (forall k :: n <= k < n + |digits| ==> IsDigit(t[k]))
            && (n + |digits| < |t| ==> !IsDigit(t[n + |digits|])) && (t != "" ==> (t[0] == '-' <==> sign == "-"))
  {
    var t, n := sign + digits + rest, |sign|;
    if sign == "" && digits != "" {
      assert t[0] == digits[0] && IsDigit(digits[0]);
    }
  }

  lemma StoiFrom(t: string, n: nat)
    requires n <= |t| && n == if t != "" && (t[0] == '-' || t[0] == '+') then 1 else 0
    ensures var d := DigitsFrom(t, n);
            Stoi(t) == if d == n then None else Some(if t[0] == '-' then 0 - Value(t[n..d]) else Value(t[n..d]))
  {
  }

  lemma DigitsEnd(t: string, i: nat, d: nat, e: nat)
    requires i <= d <= |t| && i <= e <= |t| && AllDigits(t[i..d]) && (d < |t| ==> !IsDigit(t[d]))
    requires (forall k :: i <= k < e ==> IsDigit(t[k])) && (e < |t| ==> !IsDigit(t[e]))
    ensures d == e
  {
    assert forall k :: i <= k < d ==> t[i..d][k - i] == t[k];
  }

  /** What stoi makes of a text with a minus sign before its digits. */
  lemma StoiMinus(s: string)
    requires AllDigits(s)
    ensures Stoi("-" + s) == if s == "" then None else Some(0 - Value(s))
  {
    var t := "-" + s;
    hide Stoi;
    StoiSigned(t);
    MinusDigits(s, DigitsFrom(t, 1));
    assert t[1..|t|] == s;
  }

  lemma StoiSigned(t: string)
    requires t != "" && t[0] == '-'
    ensures var d := DigitsFrom(t, 1); Stoi(t) == if d == 1 then None else Some(0 - Value(t[1..d]))
  {
  }

  lemma MinusDigits(s: string, d: nat)
    requires AllDigits(s) && 1 <= d <= 1 + |s| && (d < 1 + |s| ==> !IsDigit(("-" + s)[d]))
    ensures d == 1 + |s|
  {
    assert forall i :: 0 <= i < |s| ==> ("-" + s)[i + 1] == s[i];
  }

  lemma MinusSpaceless(s: string)
    requires AllDigits(s)
    ensures RemoveSpace("-" + s) == "-" + s
  {
    RemoveSpaceSpaceless("-" + s);
  }

  lemma ZerosThenMinus(k: nat, s: string, d: nat)
    requires var t := Repeat('0', k) + ("-" + s); d <= |t| && AllDigits(t[0..d]) && (d < |t| ==> !IsDigit(t[d]))
    ensures d == k && (Repeat('0', k) + ("-" + s))[0..d] == Repeat('0', k)
  {
    var t := Repeat('0', k) + ("-" + s);
    assert t[k] == '-' && forall i :: 0 <= i < k ==> t[i] == '0';
    assert forall i :: 0 <= i < d ==> t[0..d][i] == t[i];
  }

  /** Zeros before a minus sign: the sign ends the number. */
  lemma StoiZerosMinus(k: nat, s: string)
    requires k > 0
    ensures Stoi(Repeat('0', k) + ("-" + s)) == Some(0)
  {
    var t := Repeat('0', k) + ("-" + s);
    assert t[0] == '0';
    ZerosThenMinus(k, s, DigitsFrom(t, 0));
    ZerosCountNothing(k, "");
    assert Repeat('0', k) + "" == Repeat('0', k);
  }

  lemma ZerosMinusSpaceless(k: nat, s: string)
    requires AllDigits(s)
    ensures RemoveSpace(Repeat('0', k) + ("-" + s)) == Repeat('0', k) + ("-" + s)
  {
    RemoveSpaceSpaceless(Repeat('0', k) + ("-" + s));
  }

  /** A number survives its field when it fits, and a negative one when no zero comes before its sign. */
  predicate NumberFits(n: int, w: nat, fill: char) {
    |Print(n)| <= w && (n >= 0 || fill == ' ' || |Print(n)| == w)
  }

  lemma PaddedAs(n: int, w: nat, fill: char)
    requires |Print(n)| <= w
    ensures Padded(n, w, fill) == Repeat(fill, w - |Print(n)|) + Print(n)
  {
  }

  lemma ReadNatural(n: nat, w: nat, fill: char)
    requires |Decimal(n)| <= w && (fill == '0' || fill == ' ')
    ensures Stoi(RemoveSpace(Padded(n, w, fill))) == Some(n)
  {
    var d := Decimal(n);
    DecimalFact(n);
    var k := w - |d|;
    assert Print(n) == d;
    PaddedAs(n, w, fill);
    DigitsSpaceless(d);
    if fill == '0' {
      ZerosCountNothing(k, d);
      DigitsSpaceless(Repeat('0', k) + d);
      StoiDigits(Repeat('0', k) + d);
    } else {
      BlanksVanish(d, k);
      StoiDigits(d);
    }
  }

  lemma ReadMinus(s: string, k: nat, fill: char)
    requires AllDigits(s) && s != "" && (fill == '0' || fill == ' ')
    ensures Stoi(RemoveSpace(Repeat(fill, k) + ("-" + s)))
         == if k == 0 || fill == ' ' then Some(0 - Value(s)) else Some(0)
  {
    if k == 0 {
      assert Repeat(fill, k) + ("-" + s) == "-" + s;
      MinusSpaceless(s);
      StoiMinus(s);
    } else if fill == ' ' {
      BlanksVanish("-" + s, k);
      MinusSpaceless(s);
      StoiMinus(s);
    } else {
      StoiZerosMinus(k, s);
      ZerosMinusSpaceless(k, s);
    }
  }

  lemma ReadNegative(n: int, w: nat, fill: char)
    requires n < 0 && |Print(n)| <= w && (fill == '0' || fill == ' ')
    ensures Stoi(RemoveSpace(Padded(n, w, fill))) == Some(n) <==> fill == ' ' || |Print(n)| == w
  {
    DecimalFact(-n);
    PaddedAs(n, w, fill);
    ReadMinus(Decimal(-n), w - |Print(n)|, fill);
  }

  lemma DigitsCut(n: nat, k: nat)
    requires k < |Decimal(n)| && (k > 0 || n > 0)
    ensures AllDigits(Decimal(n)[..k]) && Value(Decimal(n)[..k]) < n
  {
    DecimalFact(n);
    ValueBound(Decimal(n)[..k]);
    if k > 0 {
      DecimalLength(n, k);
    }
  }

  lemma ReadTooLong(n: int, w: nat, fill: char)
    requires w > 0 && |Print(n)| > w
    ensures Stoi(RemoveSpace(Padded(n, w, fill))) != Some(n)
  {
    if n >= 0 {
      DigitsCut(n, w);
      var s := Decimal(n)[..w];
      assert Padded(n, w, fill) == s;
      DigitsSpaceless(s);
      StoiDigits(s);
    } else {
      DigitsCut(-n, w - 1);
      var s := Decimal(-n)[..w - 1];
      assert Padded(n, w, fill) == "-" + s;
      MinusSpaceless(s);
      StoiMinus(s);
    }
  }

  /** A number field is read back exactly when the number survives it. */
  lemma {:induction false} NumberRead(n: int, w: nat, fill: char)
    requires w > 0 && (fill == '0' || fill == ' ')
    ensures Stoi(RemoveSpace(Padded(n, w, fill))) == Some(n) <==> NumberFits(n, w, fill)
  {
    if |Print(n)| > w {
      ReadTooLong(n, w, fill);
    } else if n >= 0 {
      ReadNatural(n, w, fill);
    } else {
      ReadNegative(n, w, fill);
    }
  }

  predicate IsNumber(i: nat) {
    i == FM_SPEED || i == STAND_SIZE1 || i == STAND_SIZE2 || i == STAND_SIZE3 || i == STAND_SIZE4 || i == FM_LENGTH
  }

  /** The number that field i carries. */
  function Amount(d: Dispatch, i: nat): int
    requires IsNumber(i)
  {
    if i == FM_SPEED then d.fmSpeed
    else if i == STAND_SIZE1 then d.width
    else if i == STAND_SIZE2 then d.height
    else if i == STAND_SIZE3 then d.t1
    else if i == STAND_SIZE4 then d.t2
    else d.fmLength
  }

  /** Field i of a sender's packet; the fields the receiver ignores are taken from other. */
  function SentField(d: Dispatch, fill: nat -> char, other: seq<string>, i: nat): (r: string)
    requires Fills(INSTRUCTION, other) && i < 32
    ensures |r| == INSTRUCTION[i]
  {
    if i == 0 then "1001"
    else if i == DATE then TextField(d.date, 14)
    else if i == LOT_NO then TextField(d.lotNo, 15)
    else if i == MT_NO then TextField(d.mtNo, 15)
    else if i == MT_TYPE_CD then TextField(d.mtTypeCd, 2)
    else if i == MT_STAND then TextField(d.mtStandRaw, 30)
    else if IsNumber(i) then Padded(Amount(d, i), INSTRUCTION[i], fill(i))
    else other[i]
  }

  function SentFields(d: Dispatch, fill: nat -> char, other: seq<string>): (r: seq<string>)
    requires Fills(INSTRUCTION, other)
    ensures Fills(INSTRUCTION, r)
  {
    seq(32, i requires 0 <= i < 32 => SentField(d, fill, other, i))
  }

  predicate Word(s: string, w: nat) { |s| <= w && Spaceless(s) }

  /** What survives the fields of an instruction packet. */
  ghost predicate InstructionFits(d: Dispatch, fill: nat -> char) {
    && Word(d.date, 14) && Word(d.lotNo, 15) && Word(d.mtNo, 15) && Word(d.mtTypeCd, 2) && |d.mtStandRaw| == 30
    && forall i: nat {:trigger IsNumber(i)} :: i < 32 && IsNumber(i) ==>
        NumberFits(Amount(d, i), INSTRUCTION[i], fill(i))
  }

  lemma Assembled(d: Dispatch, date: string, lotNo: string, mtNo: string, mtTypeCd: string, raw: string, norm: string,
                  height: Option<int>, width: Option<int>, t1: Option<int>, t2: Option<int>,
                  fmLength: Option<int>, fmSpeed: Option<int>)
    ensures Assemble(date, lotNo, mtNo, mtTypeCd, raw, norm, height, width, t1, t2, fmLength, fmSpeed) == Some(d) <==>
            && date == d.date && lotNo == d.lotNo && mtNo == d.mtNo && mtTypeCd == d.mtTypeCd
            && raw == d.mtStandRaw && norm == d.mtStandNorm
            && height == Some(d.height) && width == Some(d.width) && t1 == Some(d.t1) && t2 == Some(d.t2)
            && fmLength == Some(d.fmLength) && fmSpeed == Some(d.fmSpeed)
  {
  }

  /** The receiver's view of an instruction, field by field. */
  lemma ReadsFields(d: Dispatch, v: seq<string>)
    requires |v| == 32
    ensures ReadInstruction(v) == Some(d.(mtStandNorm := Normalizer.Normal(d.mtStandRaw))) <==>
            && TextIn(v, DATE) == d.date && TextIn(v, LOT_NO) == d.lotNo && TextIn(v, MT_NO) == d.mtNo
            && TextIn(v, MT_TYPE_CD) == d.mtTypeCd && v[MT_STAND] == d.mtStandRaw
            && forall i: nat {:trigger IsNumber(i)} :: i < 32 && IsNumber(i) ==> NumberIn(v, i) == Some(Amount(d, i))
  {
    hide NumberIn, TextIn, Assemble, Normalizer.Normal;
    assert IsNumber(FM_SPEED) && IsNumber(FM_LENGTH) && IsNumber(STAND_SIZE1);
    assert IsNumber(STAND_SIZE2) && IsNumber(STAND_SIZE3) && IsNumber(STAND_SIZE4);
    Assembled(d.(mtStandNorm := Normalizer.Normal(d.mtStandRaw)),
              TextIn(v, DATE), TextIn(v, LOT_NO), TextIn(v, MT_NO), TextIn(v, MT_TYPE_CD),
              v[MT_STAND], Normalizer.Normal(v[MT_STAND]),
              NumberIn(v, STAND_SIZE2), NumberIn(v, STAND_SIZE1), NumberIn(v, STAND_SIZE3), NumberIn(v, STAND_SIZE4),
              NumberIn(v, FM_LENGTH), NumberIn(v, FM_SPEED));
  }

  lemma WholeField(s: string, w: nat)
    ensures TextField(s, w) == s <==> |s| == w
  {
  }

  lemma SentTexts(d: Dispatch, fill: nat -> char, other: seq<string>, v: seq<string>)
    requires Fills(INSTRUCTION, other) && v == SentFields(d, fill, other)
    ensures TextIn(v, DATE) == d.date <==> Word(d.date, 14)
    ensures TextIn(v, LOT_NO) == d.lotNo <==> Word(d.lotNo, 15)
    ensures TextIn(v, MT_NO) == d.mtNo <==> Word(d.mtNo, 15)
    ensures TextIn(v, MT_TYPE_CD) == d.mtTypeCd <==> Word(d.mtTypeCd, 2)
    ensures v[MT_STAND] == d.mtStandRaw <==> |d.mtStandRaw| == 30
  {
    hide RemoveSpace, PadRight;
    TextRead(d.date, 14);
    TextRead(d.lotNo, 15);
    TextRead(d.mtNo, 15);
    TextRead(d.mtTypeCd, 2);
    WholeField(d.mtStandRaw, 30);
  }

  lemma NumberBack(v: seq<string>, i: nat, n: int, w: nat, fill: char)
    requires i < |v| && v[i] == Padded(n, w, fill) && w > 0 && (fill == '0' || fill == ' ')
    ensures NumberIn(v, i) == Some(n) <==> NumberFits(n, w, fill)
  {
    NumberRead(n, w, fill);
  }

  lemma SentNumber(d: Dispatch, fill: nat -> char, other: seq<string>, v: seq<string>, i: nat)
    requires Fills(INSTRUCTION, other) && v == SentFields(d, fill, other)
    requires i < 32 && IsNumber(i) && (fill(i) == '0' || fill(i) == ' ')
    ensures NumberIn(v, i) == Some(Amount(d, i)) <==> NumberFits(Amount(d, i), INSTRUCTION[i], fill(i))
  {
    NumberBack(v, i, Amount(d, i), INSTRUCTION[i], fill(i));
  }

  /** Taking a packet apart undoes putting its fields together. */
  lemma FieldsBack(values: seq<string>)
    requires Fills(INSTRUCTION, values)
    ensures |Concat(values)| == Offset(INSTRUCTION, |INSTRUCTION|) && FieldsOf(Concat(values)) == values
  {
    FieldsTile(INSTRUCTION, values, 0);
    forall i: nat | i < 32 ensures FieldsOf(Concat(values))[i] == values[i] {
      FieldsTile(INSTRUCTION, values, i);
    }
  }

  lemma CodeFirst(data: string)
    requires |data| == Offset(INSTRUCTION, |INSTRUCTION|) == 512
    ensures data[..4] == FieldsOf(data)[0]
  {
  }

  /**
   An instruction packet, its numbers filled up with zeros or blanks and its other fields
   whatever they are, is received as it was sent, its standard normalised, exactly when what
   was sent survives the fields.
   */
  lemma {:induction false} InstructionRoundTrip(d: Dispatch, fill: nat -> char, other: seq<string>)
    requires Fills(INSTRUCTION, other) && forall i :: fill(i) == '0' || fill(i) == ' '
    ensures var sent := d.(mtStandNorm := Normalizer.Normal(d.mtStandRaw));
            ReceiveInstruction(Concat(SentFields(d, fill, other))) == Some(sent) <==> InstructionFits(d, fill)
  {
    var v := SentFields(d, fill, other);
    PacketSizes();
    FieldsBack(v);
    CodeFirst(Concat(v));
    SentTexts(d, fill, other, v);
    forall i: nat | i < 32 && IsNumber(i)
      ensures NumberIn(v, i) == Some(Amount(d, i)) <==> NumberFits(Amount(d, i), INSTRUCTION[i], fill(i))
    {
      SentNumber(d, fill, other, v, i);
    }
    ReadsFields(d, v);
  }
}
