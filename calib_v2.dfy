/**
 * The calibration program `calibCode_v2.c`: the double-buffered producer/writer
 * pair of the continuous program, with no switch-state decoding and no exit
 * counter. `GET_DATA` first steps `LO_FREQ` by 0.2 MHz while it is below
 * 957.4 MHz, then records the readings, the time, the fixed state text
 * "GPIOS_NOT_SET" and the LO (`%f`). `main` loops while `LO_FREQ < 957.6`.
 * Frequencies are integer tenths of a MHz; argument parsing, start-up and
 * shutdown are the continuous program's, whose code is the same here.
 */
module CalibV2 {
  import opened Wrappers
  import opened CText
  import opened Records
  import opened Columns
  import opened Handoff
  import opened Acquisition

  // ---------------------------------------------------------------- LO plan

  /** `LO_FREQ`'s initial value, 902.4 MHz; `GET_DATA` steps before it records. */
  const LoInitial: nat := 9024
  /** `GET_DATA` steps while `LO_FREQ < 957.4`. */
  const LoCeiling: nat := 9574
  /** `main` loops while `LO_FREQ < 957.6`. */
  const LoLoopBound: nat := 9576
  const LoIncrement: nat := 2
  /** The number of steps from 902.4 to 957.4 MHz. */
  const SweepSteps: nat := (LoCeiling - LoInitial) / LoIncrement
  /** The STATE text of every row. */
  const GpioState: seq<char> := "GPIOS_NOT_SET"
  /** The output directory, with cfitsio's "overwrite" prefix. */
  const CalibDir: seq<char> := "!/home/peterson/FilterCalibrations/"

  /** `GET_DATA`'s update of `LO_FREQ`. */
  function StepLo(lo: int): int
  {
    if lo < LoCeiling then lo + LoIncrement else lo
  }

  /** `LO_FREQ` after k calls of `GET_DATA`. */
  function LoAfterCalls(k: nat): nat
  {
    LoInitial + LoIncrement * Min(k, SweepSteps)
  }

  /** Each call steps along the plan until 957.4 MHz, which it never leaves. */
  lemma StepLoAfter(k: nat)
    ensures StepLo(LoAfterCalls(k)) == LoAfterCalls(k + 1)
    ensures LoInitial <= LoAfterCalls(k) <= LoCeiling
    ensures LoAfterCalls(k) == LoCeiling <==> k >= SweepSteps
  {
  }

  /** The j-th row recorded carries 902.6 + 0.2 j MHz, up to 957.4 MHz at j = 274. */
  lemma SweepFrequencies(j: nat)
    requires j < SweepSteps
    ensures SweepSteps == 275
    ensures LoAfterCalls(j + 1) == LoInitial + LoIncrement * (j + 1)
    ensures j == SweepSteps - 1 ==> LoAfterCalls(j + 1) == LoCeiling
  {
  }

  // ---------------------------------------------------------------- one row

  /**
   * The fields `GET_DATA` writes after the readings: `strncpy(field, time, 32)`
   * with byte 31 forced to NUL for TIME_RPI2 and FILENAME, the same for the
   * state text, and `snprintf(FREQUENCY, 32, "%f", LO_FREQ)`.
   */
  function CalibStamp(row: Record, ts: seq<char>, lo: nat): (r: Record)
    requires row.WellFormed()
    ensures r.WellFormed()
  {
    row.(
      timeRpi2 := StrNCpy(row.timeRpi2, ts, FieldSize)[FieldSize - 1 := NUL],
      state := StrNCpy(row.state, GpioState, FieldSize)[FieldSize - 1 := NUL],
      frequency := SnPrintf(row.frequency, Tenths(lo, 6), FieldSize),
      filename := StrNCpy(row.filename, ts, FieldSize)[FieldSize - 1 := NUL])
  }

  /** STATE: `strncpy(STATE, "GPIOS_NOT_SET", 32); STATE[31] = '\0';`, and its table cell. */
  lemma StateField(dst: seq<char>)
    requires |dst| == FieldSize
    ensures CStr(StrNCpy(dst, GpioState, FieldSize)[FieldSize - 1 := NUL]) == GpioState
    ensures CStr(Slot(StrNCpy(dst, GpioState, FieldSize)[FieldSize - 1 := NUL])) == GpioState
  {
    GpioStateText();
    StrNCpyTerminated(dst, GpioState, FieldSize);
    FixedText(GpioState, FieldSize);
    SlotContents(Fixed(GpioState, FieldSize));
  }

  /** "GPIOS_NOT_SET" fits a `15A` cell and holds no NUL. */
  lemma GpioStateText()
    ensures |GpioState| < SlotSize && NUL !in GpioState
  {
  }

  /** FREQUENCY: `snprintf(FREQUENCY, 32, "%f", LO_FREQ)`, and its table cell. */
  lemma FrequencyField(dst: seq<char>, lo: nat)
    requires |dst| == FieldSize && lo < 10000
    ensures CStr(SnPrintf(dst, Tenths(lo, 6), FieldSize)) == Tenths(lo, 6)
    ensures CStr(Slot(SnPrintf(dst, Tenths(lo, 6), FieldSize))) == Tenths(lo, 6)
  {
    FrequencyText(dst, lo, 6);
    SlotContents(SnPrintf(dst, Tenths(lo, 6), FieldSize));
  }

  /**
   * TIME_RPI2 and FILENAME hold the time cut to 31 characters, STATE holds
   * "GPIOS_NOT_SET", FREQUENCY the LO with six decimals, and in the table the
   * state and frequency cells hold those texts in full.
   */
  lemma CalibStampFields(row: Record, ts: seq<char>, lo: nat)
    requires row.WellFormed() && lo < 10000
    ensures CalibStamp(row, ts, lo).timeRpi2 == Fixed(ts, FieldSize)
    ensures CalibStamp(row, ts, lo).filename == Fixed(ts, FieldSize)
    ensures CStr(CalibStamp(row, ts, lo).state) == GpioState
    ensures CStr(CalibStamp(row, ts, lo).frequency) == Tenths(lo, 6)
    ensures CStr(Slot(CalibStamp(row, ts, lo).state)) == GpioState
    ensures CStr(Slot(CalibStamp(row, ts, lo).frequency)) == Tenths(lo, 6)
    ensures CalibStamp(row, ts, lo).adhat1 == row.adhat1
  {
    StrNCpyTerminated(row.timeRpi2, ts, FieldSize);
    StrNCpyTerminated(row.filename, ts, FieldSize);
    StateField(row.state);
    FrequencyField(row.frequency, lo);
  }

  /** `LO_FREQ`, and the number of `GET_DATA` calls that got past its check. */
  class CalibProgram {
    var lo: int
    ghost var calls: nat

    ghost predicate Valid()
      reads this
    {
      lo == LoAfterCalls(calls)
    }

    constructor ()
      ensures Valid() && calls == 0 && lo == LoInitial
    {
      lo := LoInitial;
      calls := 0;
    }

    /**
     * `GET_DATA(buf, i)`: -1 with nothing changed for a NULL buffer or i past the
     * last row; otherwise the LO steps, and row i gets the readings and the
     * stamp of the new LO; 0 is returned. The function does not check for a
     * negative index or a missing row array.
     */
    method GetData(buf: SweepBuffer?, i: int, ts: seq<char>, s: Sample) returns (code: int)
      requires Valid() && s.WellFormed()
      requires buf != null ==> buf.Valid() && buf.RowsWellFormed()
      requires buf != null && i < buf.nrows ==> 0 <= i && buf.data != null
      modifies this, if buf != null && buf.data != null then {buf.data} else {}
      ensures Valid() && (buf != null ==> buf.RowsWellFormed())
      ensures !Accepts(buf, i) ==> code == -1 && lo == old(lo) && calls == old(calls)
      ensures !Accepts(buf, i) && buf != null && buf.data != null ==> buf.data[..] == old(buf.data[..])
      ensures Accepts(buf, i) ==>
        code == 0 && calls == old(calls) + 1 && lo == StepLo(old(lo)) &&
        buf.data[..] == old(buf.data[..])[i := CalibStamp(WithReadings(old(buf.data[i]), s), ts, lo)]
    {
      if buf == null || i >= buf.nrows {
        return -1;
      }
      StepLoAfter(calls);
      if lo < LoCeiling {
        lo := lo + LoIncrement;
      }
      calls := calls + 1;
      var read := WithReadings(buf.data[i], s);
      SetRow(buf, i, CalibStamp(read, ts, lo));
      code := 0;
    }
  }

  // ---------------------------------------------------------------- main loop

  /**
   * One iteration of `main`'s loop: `GET_DATA` on the active buffer at
   * `row_index` (always accepted there), the row and buffer bookkeeping, and
   * possibly one take by the writer.
   */
  method ProducerStep(prog: CalibProgram, p: Pipeline, ts: seq<char>, s: Sample, take: bool)
    requires prog.Valid() && Ready(p) && s.WellFormed()
    modifies prog, p, p.bufferA.data, p.bufferB.data
    ensures prog.Valid() && prog.calls == old(prog.calls) + 1
    ensures Ready(p) && p.bufferA == old(p.bufferA) && p.bufferB == old(p.bufferB) && p.exitFlag == old(p.exitFlag)
    ensures p.rowIndex == Advance(old(p.BookOf()), p.nrows).row
    ensures p.currentBuffer == Advance(old(p.BookOf()), p.nrows).current
  {
    var active := if p.currentBuffer == 1 then p.bufferA else p.bufferB;
    var _ := prog.GetData(active, p.rowIndex, ts, s);
    p.AdvanceRow();
    if take {
      var act := p.WriterTake();
    }
  }

  /**
   * `main`'s loop as written, over its first `steps` iterations (the loop does
   * not look at `exit_flag`): the LO has reached at most 957.4 MHz, so the loop
   * condition `LO_FREQ < 957.6` still holds and the loop goes on.
   */
  method Produce(prog: CalibProgram, p: Pipeline, samples: seq<Sample>, stamps: seq<seq<char>>,
                 takes: seq<bool>, steps: nat)
    requires prog.Valid() && prog.calls == 0
    requires Ready(p) && p.BookOf() == Start
    requires steps <= |samples| && steps <= |stamps| && steps <= |takes|
    requires forall j :: 0 <= j < |samples| ==> samples[j].WellFormed()
    modifies prog, p, p.bufferA.data, p.bufferB.data
    ensures prog.Valid() && prog.calls == steps && prog.lo == LoAfterCalls(steps)
    ensures prog.lo < LoLoopBound
    ensures Ready(p) && p.bufferA == old(p.bufferA) && p.bufferB == old(p.bufferB) && p.exitFlag == old(p.exitFlag)
    ensures p.rowIndex == steps % p.nrows && p.currentBuffer == 1 + (steps / p.nrows) % 2
  {
    for k := 0 to steps
      invariant prog.Valid() && prog.calls == k
      invariant Ready(p) && p.bufferA == old(p.bufferA) && p.bufferB == old(p.bufferB) && p.exitFlag == old(p.exitFlag)
      invariant p.rowIndex == After(k, p.nrows).row && p.currentBuffer == After(k, p.nrows).current
    {
      ProducerStep(prog, p, stamps[k], samples[k], takes[k]);
    }
    ProducedBook(steps, p.nrows);
  }

  /** Where `steps` iterations leave the LO and the row bookkeeping. */
  lemma ProducedBook(steps: nat, nrows: int)
    requires nrows >= 1
    ensures LoAfterCalls(steps) < LoLoopBound
    ensures After(steps, nrows).row == steps % nrows && After(steps, nrows).current == 1 + (steps / nrows) % 2
  {
    StepLoAfter(steps);
    AfterClosedForm(steps, nrows);
  }

  /** As written, the loop condition holds after any number of iterations. */
  lemma LoopNeverExits(k: nat)
    ensures LoAfterCalls(k) < LoLoopBound
    ensures LoAfterCalls(k + 1) - LoAfterCalls(k) == if k < SweepSteps then LoIncrement else 0
  {
    StepLoAfter(k);
  }

  /**
   * The loop with the condition that stops after one sweep, `LO_FREQ < 957.4`:
   * it ends after exactly 275 iterations, with the LO at 957.4 MHz and the
   * bookkeeping of 275 rows.
   */
  method OneSweep(prog: CalibProgram, p: Pipeline, samples: seq<Sample>, stamps: seq<seq<char>>, takes: seq<bool>)
    returns (k: nat)
    requires prog.Valid() && prog.calls == 0
    requires Ready(p) && p.BookOf() == Start
    requires SweepSteps <= |samples| && SweepSteps <= |stamps| && SweepSteps <= |takes|
    requires forall j :: 0 <= j < |samples| ==> samples[j].WellFormed()
    modifies prog, p, p.bufferA.data, p.bufferB.data
    ensures k == SweepSteps && prog.calls == SweepSteps && prog.lo == LoCeiling
    ensures Ready(p) && p.bufferA == old(p.bufferA) && p.bufferB == old(p.bufferB) && p.exitFlag == old(p.exitFlag)
    ensures p.rowIndex == k % p.nrows && p.currentBuffer == 1 + (k / p.nrows) % 2
  {
    k := 0;
    while prog.lo < LoCeiling
      invariant k <= SweepSteps
      invariant prog.Valid() && prog.calls == k && prog.lo == LoAfterCalls(k)
      invariant Ready(p) && p.bufferA == old(p.bufferA) && p.bufferB == old(p.bufferB) && p.exitFlag == old(p.exitFlag)
      invariant p.rowIndex == After(k, p.nrows).row && p.currentBuffer == After(k, p.nrows).current
      decreases SweepSteps - k
    {
      StepLoAfter(k);
      assert k < SweepSteps;
      ProducerStep(prog, p, stamps[k], samples[k], takes[k]);
      k := k + 1;
    }
    StepLoAfter(k);
    AfterClosedForm(k, p.nrows);
  }

  // ---------------------------------------------------------------- SAVE_OUTPUT and the writer

  /**
   * `SAVE_OUTPUT(buf, nrows)`: -1 for a NULL buffer; otherwise the path built from
   * row 0's FILENAME under the calibration directory and the table of the first
   * `nrows` rows; a failing close is printed but not returned.
   */
  method SaveOutput(buf: SweepBuffer?, nrows: int, lib: FitsLib, columnsOk: bool)
    returns (status: int, path: Option<seq<char>>, table: Option<Table>)
    requires lib.WellFormed()
    requires buf != null ==> buf.data != null && 1 <= nrows <= buf.data.Length && buf.RowsWellFormed()
    ensures buf == null ==> status == -1 && path == None && table == None
    ensures buf != null ==>
      status == SaveStatus(lib, columnsOk, false) &&
      path == Some(DirPath(CalibDir, buf.data[0])) &&
      (table.Some? <==> lib.create == 0 && lib.table == 0 && columnsOk) &&
      (table.Some? ==> Holds(table.value, buf.data[..nrows]))
  {
    if buf == null {
      return -1, None, None;
    }
    path := Some(DirPath(CalibDir, buf.data[0]));
    status, table := WriteTable(buf.data, nrows, lib, columnsOk, false);
  }

  /** A buffer whose row 0 was stamped with a timestamp is saved under that timestamp. */
  lemma CalibPathOfStamp(first: Record, ts: seq<char>)
    requires |first.filename| == FieldSize && first.filename == Fixed(ts, FieldSize) && IsTimestamp(ts)
    ensures DirPath(CalibDir, first) == CalibDir + ts
  {
    assert |CalibDir| <= 224 && NUL !in CalibDir;
    StampedPath(CalibDir, first, ts);
  }

  /**
   * One pass of the writer thread: the take step, then `SAVE_OUTPUT` for a non-NULL
   * buffer taken, which writes the file named by that buffer's row 0 and its
   * `nrows` rows; the status is only printed.
   */
  method WriterStep(p: Pipeline, lib: FitsLib, columnsOk: bool)
    returns (act: WriterAction, status: Option<int>, path: Option<seq<char>>, table: Option<Table>)
    requires Ready(p) && lib.WellFormed()
    modifies p
    ensures Ready(p) && p.bufferA == old(p.bufferA) && p.bufferB == old(p.bufferB)
    ensures p.rowIndex == old(p.rowIndex) && p.currentBuffer == old(p.currentBuffer)
    ensures act == Waiting || act == Stopped ==>
      status == None && path == None && table == None && p.bufferToWrite == old(p.bufferToWrite)
    ensures act.Save? ==> p.bufferToWrite == 0 && act.buf != p.Active()
    ensures act.Save? ==> act.buf == (if old(p.bufferToWrite) == 1 then p.bufferA else p.bufferB)
    ensures status.Some? <==> act.Save? && act.buf != null
    ensures status.Some? ==>
      act.buf != null && act.buf.data != null &&
      status.value == SaveStatus(lib, columnsOk, false) &&
      path == Some(DirPath(CalibDir, act.buf.data[0])) &&
      (table.Some? <==> lib.create == 0 && lib.table == 0 && columnsOk) &&
      (table.Some? ==> Holds(table.value, act.buf.data[..p.nrows]))
  {
    act := p.WriterTake();
    status, path, table := None, None, None;
    if act.Save? && act.buf != null {
      var s;
      s, path, table := SaveOutput(act.buf, p.nrows, lib, columnsOk);
      status := Some(s);
    }
  }

  /**
   * `main` with the one-sweep loop: start-up (1 on bad arguments or a failed
   * allocation or `gpioInitialise`), the sweep, then `exit_flag`, the writer's
   * exit and the freeing of both buffers; 0 is returned and every block
   * allocated is given back.
   */
  method RunOneSweep(argv: seq<seq<char>>, prog: CalibProgram, alloc: Allocator, okA: bool, okB: bool, gpioOk: bool,
                     samples: seq<Sample>, stamps: seq<seq<char>>, takes: seq<bool>)
    returns (code: int)
    requires prog.Valid() && prog.calls == 0
    requires SweepSteps <= |samples| && SweepSteps <= |stamps| && SweepSteps <= |takes|
    requires forall j :: 0 <= j < |samples| ==> samples[j].WellFormed()
    modifies prog, alloc
    ensures code == 1 <==> !(ParseArgs(argv).Some? && okA && okB && gpioOk)
    ensures code != 1 ==> code == 0 && alloc.live == old(alloc.live) && prog.lo == LoCeiling
  {
    var started, p := Startup(argv, alloc, okA, okB, gpioOk);
    if started.Some? {
      return 1;
    }
    var k := OneSweep(prog, p, samples, stamps, takes);
    var writer := Shutdown(p, alloc);
    code := 0;
  }
}
