/**
 * The continuous-sweep acquisition program for three AD HATs
 * (`ADHAT_c_subroutine_NO_SOCKET.c`): the tracked LO frequency, the switch-state
 * decoder and exit counter, `GET_DATA`'s validation and row stamping,
 * `SAVE_OUTPUT`'s path and status, the argument checks and start-up of `main`,
 * its producer loop and its shutdown. Frequencies are kept in tenths of a MHz,
 * where every constant of the program is an exact integer. ADC readings and
 * timestamps are inputs; the SIGINT handler is an input saying after how many
 * iterations the loop sees `exit_flag`.
 */
module Acquisition {
  import opened Wrappers
  import opened CText
  import opened Records
  import opened Columns
  import opened Handoff

  // ---------------------------------------------------------------- LO sweep

  /** `LO_FREQ` at start-up: 648.0 MHz. */
  const LoStart: int := 6480
  /** The step guard `850.0 - 2.0`, and the LO value the exit counter looks for. */
  const LoTop: int := 8480
  /** The value the LO is reset to: 650.0 MHz. */
  const LoReset: int := 6500
  /** 2 MHz. */
  const LoStep: int := 20
  /** Number of distinct stamped frequencies, 650 .. 848 MHz. */
  const SweepLength: nat := 100

  /** The LO update at the top of `GET_DATA`. */
  function NextLo(lo: int): int
  {
    if lo < LoTop then lo + LoStep else LoReset
  }

  /** `LO_FREQ` after k calls of `GET_DATA` that passed validation. */
  function LoAfter(k: nat): int
  {
    if k == 0 then LoStart else NextLo(LoAfter(k - 1))
  }

  /** The k-th stamped frequency is 650 MHz plus 2 MHz times (k - 1) mod 100. */
  lemma {:induction false} LoClosedForm(k: nat)
    requires k >= 1
    ensures LoAfter(k) == LoReset + LoStep * ((k - 1) % SweepLength)
  {
    if k > 1 {
      LoClosedForm(k - 1);
      StepDivMod(k - 2, SweepLength);
    }
  }

  /**
   * Every stamped frequency is an even number of MHz in [650, 848], the sequence
   * has period 100, and 848 MHz is reached exactly on every 100th call.
   */
  lemma LoStamped(k: nat)
    requires k >= 1
    ensures LoReset <= LoAfter(k) <= LoTop
    ensures LoAfter(k) % LoStep == 0
    ensures LoAfter(k + SweepLength) == LoAfter(k)
    ensures LoAfter(k) == LoTop <==> k % SweepLength == 0
  {
    var m := (k - 1) % SweepLength;
    LoClosedForm(k);
    LoClosedForm(k + SweepLength);
    DivModUnique(k + SweepLength - 1, SweepLength, (k - 1) / SweepLength + 1, m);
    DivModUnique(LoAfter(k), LoStep, LoReset / LoStep + m, 0);
    StepDivMod(k - 1, SweepLength);
  }

  // ---------------------------------------------------------------- switch state

  /** A switch channel is on when its raw code is at least 3. */
  function SwitchBit(code: int): int
  {
    if code < 3 then 0 else 1
  }

  function Pow2(e: nat): nat
  {
    if e == 0 then 1 else 2 * Pow2(e - 1)
  }

  /** The weighted sum over the first m switch channels (7, 8, 9 have weights 1, 2, 4). */
  function PartialState(aux: seq<int>, m: nat): int
    requires m <= |aux|
  {
    if m == 0 then 0 else PartialState(aux, m - 1) + SwitchBit(aux[m - 1]) * Pow2(m - 1)
  }

  /** The switch state of channels 7..9 of the first AD HAT. */
  function StateOf(aux: seq<int>): int
    requires |aux| == 3
  {
    PartialState(aux, 3)
  }

  /** The decode loop of `GET_DATA` over the three switch channels. */
  method DecodeState(aux: seq<int>) returns (state: int)
    requires |aux| == 3
    ensures state == StateOf(aux)
    ensures 0 <= state <= 7
  {
    state := 0;
    for i := 7 to 10
      invariant state == PartialState(aux, i - 7)
      invariant 0 <= state < Pow2(i - 7)
    {
      var value := aux[i - 7];
      var onOrOff := if value < 3 then 0 else 1;
      state := state + onOrOff * Pow2(i - 7);
    }
  }

  /** The state is a 3-bit number whose bit c is the threshold of channel 7 + c. */
  lemma StateBits(aux: seq<int>)
    requires |aux| == 3
    ensures StateOf(aux) % 2 == SwitchBit(aux[0])
    ensures (StateOf(aux) / 2) % 2 == SwitchBit(aux[1])
    ensures StateOf(aux) / 4 == SwitchBit(aux[2])
    ensures StateOf(aux) == 0 <==> aux[0] < 3 && aux[1] < 3 && aux[2] < 3
  {
    var b0, b1, b2 := SwitchBit(aux[0]), SwitchBit(aux[1]), SwitchBit(aux[2]);
    assert Pow2(1) == 2 && Pow2(2) == 4;
    assert PartialState(aux, 1) == b0;
    assert PartialState(aux, 2) == b0 + 2 * b1;
    assert StateOf(aux) == b0 + 2 * b1 + 4 * b2;
  }

  /** An iteration the exit counter counts: state 0 with the LO at 848 MHz after its step. */
  predicate IsHit(state: int, lo: int)
  {
    state == 0 && lo == LoTop
  }

  /** The counted iterations among the first k calls, for the given readings. */
  function Hits(samples: seq<Sample>, k: nat): nat
    requires k <= |samples|
    requires forall j :: 0 <= j < |samples| ==> samples[j].WellFormed()
  {
    if k == 0 then 0 else Hits(samples, k - 1) + (if IsHit(StateOf(samples[k - 1].aux), LoAfter(k)) then 1 else 0)
  }

  /** The counter can only move on every 100th call, so it needs 400 calls to reach 4. */
  lemma {:induction false} HitsBound(samples: seq<Sample>, k: nat)
    requires k <= |samples|
    requires forall j :: 0 <= j < |samples| ==> samples[j].WellFormed()
    ensures Hits(samples, k) <= k / SweepLength
  {
    if k > 0 {
      HitsBound(samples, k - 1);
      StepDivMod(k - 1, SweepLength);
      LoStamped(k);
    }
  }

  // ---------------------------------------------------------------- row stamping

  /**
   * The four text fields of row i after `GET_DATA`: the timestamp `strncpy`-ed into
   * TIME_RPI2 and FILENAME with byte 31 forced to NUL, the state's `%d` text copied
   * into STATE the same way, and `snprintf(FREQUENCY, 32, "%f", LO_FREQ)`.
   */
  function StampRow(row: Record, ts: seq<char>, state: int, lo: nat): Record
    requires |row.timeRpi2| == FieldSize && |row.state| == FieldSize
    requires |row.frequency| == FieldSize && |row.filename| == FieldSize
  {
    var stateText := SnPrintf(Nuls(FieldSize), Signed(state), FieldSize);
    row.(
      timeRpi2 := StrNCpy(row.timeRpi2, ts, FieldSize)[FieldSize - 1 := NUL],
      state := StrNCpy(row.state, stateText, FieldSize)[FieldSize - 1 := NUL],
      frequency := SnPrintf(row.frequency, Tenths(lo, 6), FieldSize),
      filename := StrNCpy(row.filename, ts, FieldSize)[FieldSize - 1 := NUL])
  }

  /**
   * TIME_RPI2 and FILENAME both become the timestamp cut to 31 characters and
   * NUL-padded, STATE holds the state in decimal (and `atoi` reads it back), and
   * FREQUENCY holds the LO in `%f` form; the readings are kept.
   */
  lemma StampRowFields(row: Record, ts: seq<char>, state: int, lo: nat)
    requires row.WellFormed() && 0 <= state <= 7 && lo < 10000
    ensures StampRow(row, ts, state, lo).WellFormed()
    ensures StampRow(row, ts, state, lo).adhat1 == row.adhat1
    ensures StampRow(row, ts, state, lo).adhat2 == row.adhat2
    ensures StampRow(row, ts, state, lo).adhat3 == row.adhat3
    ensures StampRow(row, ts, state, lo).timeRpi2 == Fixed(ts, FieldSize)
    ensures StampRow(row, ts, state, lo).filename == Fixed(ts, FieldSize)
    ensures CStr(Fixed(ts, FieldSize)) == CStr(ts)[..Min(|CStr(ts)|, FieldSize - 1)]
    ensures CStr(StampRow(row, ts, state, lo).state) == Signed(state)
    ensures Atoi(CStr(StampRow(row, ts, state, lo).state)) == state
    ensures CStr(StampRow(row, ts, state, lo).frequency) == Tenths(lo, 6)
  {
    StrNCpyTerminated(row.timeRpi2, ts, FieldSize);
    StrNCpyTerminated(row.filename, ts, FieldSize);
    CStrFixed(ts, FieldSize);
    StateText(row.state, state);
    FrequencyText(row.frequency, lo, 6);
  }

  /** STATE: the state's `%d` text, `strncpy`-ed with byte 31 forced to NUL, holds that text and reads back. */
  lemma StateText(dst: seq<char>, state: int)
    requires |dst| == FieldSize && 0 <= state <= 7
    ensures CStr(StrNCpy(dst, SnPrintf(Nuls(FieldSize), Signed(state), FieldSize), FieldSize)[FieldSize - 1 := NUL]) == Signed(state)
    ensures Atoi(Signed(state)) == state && |Signed(state)| == 1
  {
    var stateText := SnPrintf(Nuls(FieldSize), Signed(state), FieldSize);
    SignedText(state);
    assert |Signed(state)| == 1;
    CStrSnPrintf(Nuls(FieldSize), Signed(state), FieldSize);
    StrNCpyTerminated(dst, stateText, FieldSize);
    CStrFixed(stateText, FieldSize);
    AtoiSigned(state);
  }

  lemma StampRowShape(row: Record, ts: seq<char>, state: int, lo: nat)
    requires row.WellFormed() && 0 <= state <= 7 && lo < 10000
    ensures StampRow(row, ts, state, lo).WellFormed()
  {
    StampRowFields(row, ts, state, lo);
  }

  /**
   * What of a stamped row reaches the table: the timestamp without its last digit
   * of seconds, the whole state, and the whole frequency text.
   */
  lemma StampedCells(row: Record, ts: seq<char>, state: int, k: nat)
    requires row.WellFormed() && IsTimestamp(ts) && 0 <= state <= 7 && k >= 1
    ensures LoAfter(k) >= 0
    ensures CStr(Slot(StampRow(row, ts, state, LoAfter(k)).timeRpi2)) == ts[..14]
    ensures CStr(Slot(StampRow(row, ts, state, LoAfter(k)).filename)) == ts[..14]
    ensures CStr(Slot(StampRow(row, ts, state, LoAfter(k)).state)) == Signed(state)
    ensures CStr(Slot(StampRow(row, ts, state, LoAfter(k)).frequency)) == Tenths(LoAfter(k), 6)
  {
    LoStamped(k);
    var lo := LoAfter(k);
    var r := StampRow(row, ts, state, lo);
    StrNCpyTerminated(row.timeRpi2, ts, FieldSize);
    StrNCpyTerminated(row.filename, ts, FieldSize);
    TimestampCell(ts);
    StateText(row.state, state);
    SlotText(r.state, Signed(state));
    FrequencyText(row.frequency, lo, 6);
    SlotText(r.frequency, Tenths(lo, 6));
  }

  // ---------------------------------------------------------------- GET_DATA

  datatype Outcome = Returned(code: int) | Exited(code: int)

  /** The program globals `LO_FREQ` and `sweepsOfFive`. */
  class AdhatProgram {
    var lo: int
    var sweepsOfFive: int
    /** The number of `GET_DATA` calls that passed validation. */
    ghost var calls: nat

    ghost predicate Valid()
      reads this
    {
      lo == LoAfter(calls) && sweepsOfFive >= 0
    }

    constructor ()
      ensures Valid() && calls == 0 && lo == LoStart && sweepsOfFive == 0
    {
      lo := LoStart;
      sweepsOfFive := 0;
      calls := 0;
    }

    /**
     * `GET_DATA(buf, i)`: -1 with nothing changed on a bad buffer, index or row
     * array; otherwise the LO steps, the readings overwrite row i, and either the
     * 4th counted iteration ends the process before the row is stamped, or the
     * row is stamped and 0 returned. No other row changes.
     */
    method GetData(buf: SweepBuffer?, i: int, ts: seq<char>, s: Sample) returns (st: Outcome)
      requires Valid() && s.WellFormed()
      requires buf != null ==> buf.Valid() && buf.RowsWellFormed()
      modifies this, if buf != null && buf.data != null then {buf.data} else {}
      ensures Valid()
      ensures buf != null ==> buf.RowsWellFormed()
      ensures !Accepts(buf, i) ==> st == Returned(-1) && calls == old(calls) && sweepsOfFive == old(sweepsOfFive)
      ensures !Accepts(buf, i) && buf != null && buf.data != null ==> buf.data[..] == old(buf.data[..])
      ensures Accepts(buf, i) ==>
        calls == old(calls) + 1 && lo == NextLo(old(lo)) &&
        sweepsOfFive == old(sweepsOfFive) + (if IsHit(StateOf(s.aux), lo) then 1 else 0) &&
        (st == Exited(0) <==> IsHit(StateOf(s.aux), lo) && sweepsOfFive == 4) &&
        (st != Exited(0) ==> st == Returned(0))
      ensures Accepts(buf, i) && st.Exited? ==>
        buf.data[..] == old(buf.data[..])[i := WithReadings(old(buf.data[i]), s)]
      ensures Accepts(buf, i) && st.Returned? ==> lo >= 0
      ensures Accepts(buf, i) && st.Returned? ==>
        buf.data[..] == old(buf.data[..])[i := StampRow(WithReadings(old(buf.data[i]), s), ts, StateOf(s.aux), lo)]
    {
      if buf == null {
        return Returned(-1);
      }
      if i < 0 || i >= buf.nrows {
        return Returned(-1);
      }
      if buf.data == null {
        return Returned(-1);
      }
      st := Measure(buf, i, ts, s);
    }

    /** `GET_DATA` once its checks have passed. */
    method Measure(buf: SweepBuffer, i: int, ts: seq<char>, s: Sample) returns (st: Outcome)
      requires Valid() && s.WellFormed()
      requires buf.Valid() && buf.RowsWellFormed() && Accepts(buf, i)
      modifies this, buf.data
      ensures Valid() && buf.RowsWellFormed()
      ensures calls == old(calls) + 1 && lo == NextLo(old(lo))
      ensures sweepsOfFive == old(sweepsOfFive) + (if IsHit(StateOf(s.aux), lo) then 1 else 0)
      ensures st == Exited(0) <==> IsHit(StateOf(s.aux), lo) && sweepsOfFive == 4
      ensures st != Exited(0) ==> st == Returned(0)
      ensures st.Exited? ==> buf.data[..] == old(buf.data[..])[i := WithReadings(old(buf.data[i]), s)]
      ensures st.Returned? ==> lo >= 0
      ensures st.Returned? ==>
        buf.data[..] == old(buf.data[..])[i := StampRow(WithReadings(old(buf.data[i]), s), ts, StateOf(s.aux), lo)]
    {
      if lo < LoTop {
        lo := lo + LoStep;
      } else {
        lo := LoReset;
      }
      calls := calls + 1;
      LoStamped(calls);
      var row := WithReadings(buf.data[i], s);
      SetRow(buf, i, row);
      var state := DecodeState(s.aux);
      if state == 0 && lo == LoTop {
        sweepsOfFive := sweepsOfFive + 1;
        if sweepsOfFive == 4 {
          return Exited(0);
        }
      }
      StampRowShape(row, ts, state, lo);
      SetRow(buf, i, StampRow(row, ts, state, lo));
      st := Returned(0);
    }
  }

  // ---------------------------------------------------------------- GET_FREQUENCIES

  function Abs(a: int): nat { if a < 0 then -a else a }

  /** C integer division: the quotient truncated toward zero. */
  function CDiv(a: int, b: int): int
    requires b != 0
  {
    if (a < 0) == (b < 0) then Abs(a) / Abs(b) else -(Abs(a) / Abs(b))
  }

  /**
   * `GET_FREQUENCIES(s, e, n)`: n values s + i * ((e - s) / n) with C division, or
   * NULL when the allocation fails. (The program never calls it.)
   */
  method GetFrequencies(startValue: int, endValue: int, nrows: int, allocOk: bool) returns (r: array?<int>)
    requires nrows >= 1
    ensures r == null <==> !allocOk
    ensures r != null ==> fresh(r) && r.Length == nrows
    ensures r != null ==> forall i :: 0 <= i < nrows ==> r[i] == startValue + i * CDiv(endValue - startValue, nrows)
  {
    if !allocOk {
      return null;
    }
    r := new int[nrows];
    var step := CDiv(endValue - startValue, nrows);
    for i := 0 to nrows
      invariant forall j :: 0 <= j < i ==> r[j] == startValue + j * step
    {
      r[i] := startValue + i * step;
    }
  }

  /**
   * For an increasing range the values start at s, never pass e, and are evenly
   * spaced by the truncated step.
   */
  lemma FrequenciesSpan(s: int, e: int, n: int, i: int)
    requires n >= 1 && s <= e && 0 <= i < n
    ensures CDiv(e - s, n) == (e - s) / n >= 0
    ensures s <= s + i * CDiv(e - s, n) <= e
  {
    var q := (e - s) / n;
    assert e - s == n * q + (e - s) % n;
    assert q >= 0 by {
      if q < 0 {
        MulSign(q, n);
      }
    }
    assert i * q >= 0 && (n - i) * q >= 0;
    assert n * q - i * q == (n - i) * q;
  }

  // ---------------------------------------------------------------- command line

  datatype Args = Args(nrows: int, startFreq: int, endFreq: int)

  /** The checks at the top of `main`: three arguments, each read by `atoi`, each positive. */
  function ParseArgs(argv: seq<seq<char>>): Option<Args>
  {
    if |argv| < 4 then None
    else if Atoi(argv[1]) <= 0 then None
    else if Atoi(argv[2]) <= 0 then None
    else if Atoi(argv[3]) <= 0 then None
    else Some(Args(Atoi(argv[1]), Atoi(argv[2]), Atoi(argv[3])))
  }

  /** Positive arguments written in decimal are accepted and read back exactly. */
  lemma ParseArgsRoundTrip(name: seq<char>, n: int, s: int, e: int)
    requires n > 0 && s > 0 && e > 0
    ensures ParseArgs([name, Signed(n), Signed(s), Signed(e)]) == Some(Args(n, s, e))
  {
    var argv := [name, Signed(n), Signed(s), Signed(e)];
    AtoiSigned(n);
    AtoiSigned(s);
    AtoiSigned(e);
    assert Atoi(argv[1]) == n && Atoi(argv[2]) == s && Atoi(argv[3]) == e;
  }

  /** Too few arguments, or one that does not read as a positive number, is refused. */
  lemma ParseArgsRejects(argv: seq<seq<char>>)
    ensures ParseArgs(argv).None? <==>
      |argv| < 4 || Atoi(argv[1]) <= 0 || Atoi(argv[2]) <= 0 || Atoi(argv[3]) <= 0
    ensures |argv| >= 4 && (forall j :: 0 <= j < |argv[1]| ==> !IsDigit(argv[1][j])) ==> ParseArgs(argv).None?
  {
    if |argv| >= 4 && (forall j :: 0 <= j < |argv[1]| ==> !IsDigit(argv[1][j])) {
      AtoiNoDigits(argv[1]);
    }
  }

  // ---------------------------------------------------------------- double buffer

  /** Two distinct, fully allocated buffers of `nrows` well-formed rows each. */
  ghost predicate Ready(p: Pipeline)
    reads p, p.bufferA, p.bufferB
    reads if p.bufferA != null && p.bufferA.data != null then {p.bufferA.data} else {}
    reads if p.bufferB != null && p.bufferB.data != null then {p.bufferB.data} else {}
  {
    p.Valid() &&
    p.bufferA != null && p.bufferB != null && p.bufferA != p.bufferB &&
    p.bufferA.data != null && p.bufferB.data != null && p.bufferA.data != p.bufferB.data &&
    p.bufferA.nrows == p.nrows && p.bufferB.nrows == p.nrows &&
    p.bufferA.Valid() && p.bufferB.Valid() && p.bufferA.RowsWellFormed() && p.bufferB.RowsWellFormed()
  }

  /** Both buffers, header and row array, are live allocations. */
  ghost predicate Owned(p: Pipeline, alloc: Allocator)
    reads p, p.bufferA, p.bufferB, alloc
  {
    p.bufferA != null && p.bufferB != null && p.bufferA != p.bufferB &&
    p.bufferA.data != null && p.bufferB.data != null && p.bufferA.data != p.bufferB.data &&
    {p.bufferA, p.bufferA.data, p.bufferB, p.bufferB.data} <= alloc.live
  }

  /**
   * `main` up to the producer loop: the argument checks return 1 before anything
   * is allocated; a failed buffer allocation or a failed `gpioInitialise` returns
   * 1; otherwise both zeroed buffers are installed and the loop starts from row 0
   * of bufferA with no buffer marked.
   */
  method Startup(argv: seq<seq<char>>, alloc: Allocator, okA: bool, okB: bool, gpioOk: bool)
    returns (code: Option<int>, p: Pipeline?)
    modifies alloc
    ensures ParseArgs(argv).None? ==> code == Some(1) && p == null && alloc.live == old(alloc.live)
    ensures ParseArgs(argv).Some? && !(okA && okB && gpioOk) ==> code == Some(1) && p == null
    ensures code.None? <==> ParseArgs(argv).Some? && okA && okB && gpioOk
    ensures code.None? ==>
      p != null && fresh(p) && Ready(p) && Owned(p, alloc) && fresh(p.bufferA) && fresh(p.bufferB) &&
      fresh(p.bufferA.data) && fresh(p.bufferB.data) &&
      p.nrows == ParseArgs(argv).value.nrows && p.BookOf() == Start && !p.exitFlag &&
      p.bufferA.data[..] == seq(p.nrows, _ => ZeroRecord()) && p.bufferB.data[..] == seq(p.nrows, _ => ZeroRecord()) &&
      alloc.live == old(alloc.live) + {p.bufferA, p.bufferA.data, p.bufferB, p.bufferB.data}
  {
    var args := ParseArgs(argv);
    if args.None? {
      return Some(1), null;
    }
    var nrows := args.value.nrows;
    var a := alloc.MakeDataArray(nrows, okA, okA);
    var b := alloc.MakeDataArray(nrows, okB, okB);
    if a == null || b == null {
      return Some(1), null;
    }
    if !gpioOk {
      return Some(1), null;
    }
    p := new Pipeline(nrows, a, b);
    code := None;
  }

  /**
   * One iteration of the producer loop: `GET_DATA` on the active buffer at
   * `row_index` (always accepted there), then, unless it ended the process, the
   * row and buffer bookkeeping and possibly one take by the writer.
   */
  method ProducerStep(prog: AdhatProgram, p: Pipeline, ts: seq<char>, s: Sample, take: bool)
    returns (exitedNow: bool)
    requires prog.Valid() && Ready(p) && !p.exitFlag && s.WellFormed()
    modifies prog, p, p.bufferA.data, p.bufferB.data
    ensures prog.Valid() && prog.calls == old(prog.calls) + 1
    ensures prog.sweepsOfFive == old(prog.sweepsOfFive) + (if IsHit(StateOf(s.aux), prog.lo) then 1 else 0)
    ensures exitedNow <==> IsHit(StateOf(s.aux), prog.lo) && prog.sweepsOfFive == 4
    ensures Ready(p) && p.bufferA == old(p.bufferA) && p.bufferB == old(p.bufferB) && !p.exitFlag
    ensures exitedNow ==> p.rowIndex == old(p.rowIndex) && p.currentBuffer == old(p.currentBuffer)
    ensures !exitedNow ==>
      p.rowIndex == Advance(old(p.BookOf()), p.nrows).row && p.currentBuffer == Advance(old(p.BookOf()), p.nrows).current
  {
    var active := if p.currentBuffer == 1 then p.bufferA else p.bufferB;
    var st := prog.GetData(active, p.rowIndex, ts, s);
    exitedNow := st.Exited?;
    if !exitedNow {
      p.AdvanceRow();
      if take {
        var act := p.WriterTake();
      }
    }
  }

  /**
   * The producer loop of `main`, run until the loop sees `exit_flag` (after
   * `interruptAt` iterations) or until `GET_DATA` ends the process; between
   * iterations the writer may take the marked buffer (`takes[k]`). `GET_DATA`'s
   * result is ignored. When the loop ends normally `main` sets `exit_flag`.
   */
  method Produce(prog: AdhatProgram, p: Pipeline, samples: seq<Sample>, stamps: seq<seq<char>>,
                 takes: seq<bool>, interruptAt: nat)
    returns (k: nat, exited: bool)
    requires prog.Valid() && prog.calls == 0 && prog.sweepsOfFive == 0
    requires Ready(p) && p.BookOf() == Start && !p.exitFlag
    requires interruptAt <= |samples| && interruptAt <= |stamps|
    requires forall j :: 0 <= j < |samples| ==> samples[j].WellFormed()
    modifies prog, p, p.bufferA.data, p.bufferB.data
    ensures k <= interruptAt && (exited || k == interruptAt)
    ensures prog.Valid() && prog.calls == k && prog.lo == LoAfter(k) && prog.sweepsOfFive == Hits(samples, k)
    ensures exited <==> Hits(samples, k) == 4
    ensures exited ==> k >= 1 && IsHit(StateOf(samples[k - 1].aux), LoAfter(k))
    ensures exited ==> k >= 4 * SweepLength
    ensures Ready(p) && p.bufferA == old(p.bufferA) && p.bufferB == old(p.bufferB)
    ensures p.exitFlag == !exited
    ensures var steps := if exited then k - 1 else k;
      p.rowIndex == steps % p.nrows && p.currentBuffer == 1 + (steps / p.nrows) % 2
  {
    k, exited := 0, false;
    while k < interruptAt && !exited
      invariant k <= interruptAt
      invariant prog.Valid() && prog.calls == k && prog.sweepsOfFive == Hits(samples, k)
      invariant exited ==> k >= 1 && Hits(samples, k) == 4 && IsHit(StateOf(samples[k - 1].aux), LoAfter(k))
      invariant !exited ==> Hits(samples, k) < 4
      invariant Ready(p) && p.bufferA == old(p.bufferA) && p.bufferB == old(p.bufferB) && !p.exitFlag
      invariant var steps := if exited then k - 1 else k;
        steps >= 0 && p.rowIndex == After(steps, p.nrows).row && p.currentBuffer == After(steps, p.nrows).current
    {
      exited := ProducerStep(prog, p, stamps[k], samples[k], k < |takes| && takes[k]);
      k := k + 1;
    }
    if !exited {
      p.SignalExit();
    }
    var steps := if exited then k - 1 else k;
    AfterClosedForm(steps, p.nrows);
    if exited {
      HitsBound(samples, k);
    }
  }

  /**
   * The end of `main`: `exit_flag` is set, the writer leaves its loop without
   * saving even a pending buffer, and both buffers are freed and nulled.
   */
  method Shutdown(p: Pipeline, alloc: Allocator) returns (writer: WriterAction)
    requires p.Valid() && Owned(p, alloc)
    modifies p, alloc
    ensures p.exitFlag && writer == Stopped
    ensures p.bufferToWrite == old(p.bufferToWrite)
    ensures p.bufferA == null && p.bufferB == null
    ensures alloc.live == old(alloc.live) - {old(p.bufferA), old(p.bufferA.data), old(p.bufferB), old(p.bufferB.data)}
  {
    p.SignalExit();
    writer := p.WriterTake();
    var a, b := p.bufferA, p.bufferB;
    var q := alloc.FreeDataArray(a);
    p.bufferA := q;
    q := alloc.FreeDataArray(b);
    p.bufferB := q;
  }

  // ---------------------------------------------------------------- SAVE_OUTPUT

  /** The output directory, with cfitsio's "overwrite" prefix. */
  const SweepDir: seq<char> := "!/home/peterson/Continuous_Sweep/"

  /**
   * `SAVE_OUTPUT(buf, nrows)`: -1 for a NULL buffer; otherwise the path built from
   * row 0's FILENAME and the table of the first `nrows` rows, with every library
   * failure, the close included, reported.
   */
  method SaveOutput(buf: SweepBuffer?, nrows: int, lib: FitsLib, columnsOk: bool)
    returns (status: int, path: Option<seq<char>>, table: Option<Table>)
    requires lib.WellFormed()
    requires buf != null ==> buf.data != null && 1 <= nrows <= buf.data.Length && buf.RowsWellFormed()
    ensures buf == null ==> status == -1 && path == None && table == None
    ensures buf != null ==>
      status == SaveStatus(lib, columnsOk, true) &&
      path == Some(DirPath(SweepDir, buf.data[0])) &&
      (table.Some? <==> lib.create == 0 && lib.table == 0 && columnsOk) &&
      (table.Some? ==> Holds(table.value, buf.data[..nrows]))
  {
    if buf == null {
      return -1, None, None;
    }
    path := Some(DirPath(SweepDir, buf.data[0]));
    status, table := WriteTable(buf.data, nrows, lib, columnsOk, true);
  }

  /** A buffer whose row 0 was stamped with a timestamp is saved under that timestamp. */
  lemma SavePathOfStamp(first: Record, ts: seq<char>)
    requires |first.filename| == FieldSize && first.filename == Fixed(ts, FieldSize) && IsTimestamp(ts)
    ensures DirPath(SweepDir, first) == SweepDir + ts
  {
    assert |SweepDir| <= 224 && NUL !in SweepDir;
    StampedPath(SweepDir, first, ts);
  }

  /**
   * One pass of the writer thread: the take step, then `SAVE_OUTPUT` for a non-NULL
   * buffer taken, which writes the file named by that buffer's row 0 and its
   * `nrows` rows; the status is only printed.
   */
  method WriterStep(p: Pipeline, lib: FitsLib, columnsOk: bool)
    returns (act: WriterAction, status: Option<int>, path: Option<seq<char>>, table: Option<Table>)
    requires Ready(p) && lib.WellFormed()
    modifies p
    ensures Ready(p) && p.bufferA == old(p.bufferA) && p.bufferB == old(p.bufferB)
    ensures p.rowIndex == old(p.rowIndex) && p.currentBuffer == old(p.currentBuffer)
    ensures act == Waiting || act == Stopped ==>
      status == None && path == None && table == None && p.bufferToWrite == old(p.bufferToWrite)
    ensures act.Save? ==> p.bufferToWrite == 0 && act.buf != p.Active()
    ensures act.Save? ==> act.buf == (if old(p.bufferToWrite) == 1 then p.bufferA else p.bufferB)
    ensures status.Some? <==> act.Save? && act.buf != null
    ensures status.Some? ==>
      act.buf != null && act.buf.data != null &&
      status.value == SaveStatus(lib, columnsOk, true) &&
      path == Some(DirPath(SweepDir, act.buf.data[0])) &&
      (table.Some? <==> lib.create == 0 && lib.table == 0 && columnsOk) &&
      (table.Some? ==> Holds(table.value, act.buf.data[..p.nrows]))
  {
    act := p.WriterTake();
    status, path, table := None, None, None;
    if act.Save? && act.buf != null {
      var s;
      s, path, table := SaveOutput(act.buf, p.nrows, lib, columnsOk);
      status := Some(s);
    }
  }

  // ---------------------------------------------------------------- main

  /**
   * `main` after start-up: the producer loop, then, unless `GET_DATA` ended the
   * process with `exit(0)`, `exit_flag`, the writer's exit and the freeing of
   * both buffers. After `exit(0)` nothing is freed.
   */
  method Operate(p: Pipeline, alloc: Allocator,
                 samples: seq<Sample>, stamps: seq<seq<char>>, takes: seq<bool>, interruptAt: nat)
    returns (calls: nat, exited: bool)
    requires Ready(p) && Owned(p, alloc) && p.BookOf() == Start && !p.exitFlag
    requires interruptAt <= |samples| && interruptAt <= |stamps|
    requires forall j :: 0 <= j < |samples| ==> samples[j].WellFormed()
    modifies p, p.bufferA.data, p.bufferB.data, alloc
    ensures calls <= interruptAt && (exited || calls == interruptAt)
    ensures exited <==> Hits(samples, calls) == 4
    ensures exited ==> calls >= 4 * SweepLength && alloc.live == old(alloc.live)
    ensures !exited ==>
      alloc.live == old(alloc.live) - {old(p.bufferA), old(p.bufferA.data), old(p.bufferB), old(p.bufferB.data)}
  {
    var prog := new AdhatProgram();
    calls, exited := Produce(prog, p, samples, stamps, takes, interruptAt);
    if !exited {
      var writer := Shutdown(p, alloc);
    }
  }

  /**
   * `main`: start-up (1 on bad arguments or a failed allocation or
   * `gpioInitialise`), then the loop and teardown of `Operate`, and 0. Once
   * started, a run that `exit_flag` ends gives back every block it allocated.
   */
  method Run(argv: seq<seq<char>>, alloc: Allocator, okA: bool, okB: bool, gpioOk: bool,
             samples: seq<Sample>, stamps: seq<seq<char>>, takes: seq<bool>, interruptAt: nat)
    returns (code: int, calls: nat, exited: bool)
    requires interruptAt <= |samples| && interruptAt <= |stamps|
    requires forall j :: 0 <= j < |samples| ==> samples[j].WellFormed()
    modifies alloc
    ensures code == 1 <==> !(ParseArgs(argv).Some? && okA && okB && gpioOk)
    ensures code != 1 ==> code == 0
    ensures code == 1 ==> calls == 0 && !exited
    ensures code == 0 ==> calls <= interruptAt && (exited || calls == interruptAt)
    ensures code == 0 ==> (exited <==> Hits(samples, calls) == 4)
    ensures exited ==> calls >= 4 * SweepLength
    ensures code == 0 && !exited ==> alloc.live == old(alloc.live)
  {
    var started, p := Startup(argv, alloc, okA, okB, gpioOk);
    if started.Some? {
      return 1, 0, false;
    }
    calls, exited := Operate(p, alloc, samples, stamps, takes, interruptAt);
    code := 0;
  }
}
