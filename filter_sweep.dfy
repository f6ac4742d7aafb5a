/**
 * The filter calibration sweep (`filterSweep.c`): one buffer of `TOTAL_STEPS`
 * rows, two passes over 900..960 MHz in 0.2 MHz steps at +5 dBm and then -4 dBm,
 * each pass saved to its own FITS file named after the first row's timestamp and
 * the power. Frequencies are kept in tenths of a MHz. ADC readings, timestamps
 * (NULL when `GET_TIME` fails), the library statuses and the moment the
 * SIGINT/SIGTERM handler sets `exit_flag` are inputs.
 */
module FilterSweep {
  import opened Wrappers
  import opened CText
  import opened Records
  import opened Columns

  // ---------------------------------------------------------------- frequency plan

  /** `FREQ_MIN`, `FREQ_MAX`, `FREQ_STEP`: 900.0, 960.0 and 0.2 MHz. */
  const FreqMin: int := 9000
  const FreqMax: int := 9600
  const FreqStep: int := 2
  /** `TOTAL_STEPS` = (FREQ_MAX - FREQ_MIN) / FREQ_STEP + 1. */
  const TotalSteps: int := (FreqMax - FreqMin) / FreqStep + 1
  /** `OUTPUT_DIR`. */
  const OutputDir: seq<char> := "/home/peterson/FilterCalibrations"
  /** `power_levels`: the output power of each pass, in dBm. */
  const Powers: seq<int> := [5, -4]

  /** 301 rows per pass; the last one is the top of the band. */
  lemma TotalStepsValue()
    ensures TotalSteps == 301
    ensures FreqMin + (TotalSteps - 1) * FreqStep == FreqMax
  {
  }

  /** `INCREMENT_LO_FREQUENCY`'s update: one step while below the top, otherwise no change. */
  function IncrementLo(lo: int): int
  {
    if lo < FreqMax then lo + FreqStep else lo
  }

  /** The LO after m increments from `FREQ_MIN`. */
  function LoAt(m: nat): nat
  {
    FreqMin + FreqStep * Min(m, TotalSteps - 1)
  }

  /**
   * Incrementing moves along the plan and stops at the top: the LO stays in
   * [900, 960] MHz and never wraps.
   */
  lemma IncrementLoAt(m: nat)
    ensures IncrementLo(LoAt(m)) == LoAt(m + 1)
    ensures FreqMin <= LoAt(m) <= FreqMax
    ensures LoAt(m) == FreqMax <==> m >= TotalSteps - 1
  {
  }

  // ---------------------------------------------------------------- one measurement

  /** `COLLECT_ADC_DATA(row)`: -1 for a NULL row, otherwise the three readings overwrite it. */
  function CollectAdcData(row: Option<Record>, s: Sample): Result<Record, int>
  {
    if row.None? then Err(-1) else Ok(WithReadings(row.value, s))
  }

  /**
   * The fields `STORE_METADATA` writes: the timestamp `strncpy`-ed (31 bytes)
   * into TIME_RPI2 and FILENAME with byte 31 forced to NUL, `%+d` of the power
   * into STATE, and `%.1f` of the LO into FREQUENCY.
   */
  function Metadata(row: Record, ts: seq<char>, power: int, lo: nat): (r: Record)
    requires row.WellFormed()
    ensures r.WellFormed()
  {
    row.(
      timeRpi2 := StrNCpy(row.timeRpi2, ts, FieldSize - 1)[FieldSize - 1 := NUL],
      state := SnPrintf(row.state, PlusSigned(power), FieldSize)[FieldSize - 1 := NUL],
      frequency := SnPrintf(row.frequency, Tenths(lo, 1), FieldSize),
      filename := StrNCpy(row.filename, ts, FieldSize - 1)[FieldSize - 1 := NUL])
  }

  /** `STORE_METADATA(row, timestamp, power)`: -1 for a NULL row or timestamp. */
  function StoreMetadata(row: Option<Record>, ts: Option<seq<char>>, power: int, lo: nat): Result<Record, int>
    requires row.Some? ==> row.value.WellFormed()
  {
    if row.None? || ts.None? then Err(-1) else Ok(Metadata(row.value, ts.value, power, lo))
  }

  /** TIME_RPI2 and FILENAME: `strncpy(field, ts, 31); field[31] = '\0';` leaves the timestamp cut to 31. */
  lemma TimestampField(dst: seq<char>, ts: seq<char>)
    requires |dst| == FieldSize
    ensures StrNCpy(dst, ts, FieldSize - 1)[FieldSize - 1 := NUL] == Fixed(ts, FieldSize)
  {
    StrNCpyTerminated(dst, ts, FieldSize - 1);
  }

  /** STATE: `snprintf(STATE, 32, "%+d", power); STATE[31] = '\0';` holds the signed power, which `atoi` reads back. */
  lemma PowerField(dst: seq<char>, power: int)
    requires |dst| == FieldSize && -0x8000_0000 <= power < 0x8000_0000
    ensures CStr(SnPrintf(dst, PlusSigned(power), FieldSize)[FieldSize - 1 := NUL]) == PlusSigned(power)
    ensures Atoi(CStr(SnPrintf(dst, PlusSigned(power), FieldSize)[FieldSize - 1 := NUL])) == power
  {
    var text := PlusSigned(power);
    SignedText(power);
    PlusSignedWidth(power);
    var st := SnPrintf(dst, text, FieldSize);
    CStrSnPrintf(dst, text, FieldSize);
    assert st[..|text|] == text;
    assert st[|text|] == NUL;
    var r := st[FieldSize - 1 := NUL];
    assert r[..|text|] == text;
    assert r[|text|] == NUL;
    CStrUnique(r, text);
    AtoiPlusSigned(power);
  }

  /**
   * TIME_RPI2 and FILENAME hold the timestamp cut to 31 characters, STATE the
   * signed power (read back by `atoi`), FREQUENCY the LO with one decimal; the
   * readings are left alone.
   */
  lemma MetadataFields(row: Record, ts: seq<char>, power: int, lo: nat)
    requires row.WellFormed() && -0x8000_0000 <= power < 0x8000_0000 && lo < 10000
    ensures Metadata(row, ts, power, lo).timeRpi2 == Fixed(ts, FieldSize)
    ensures Metadata(row, ts, power, lo).filename == Fixed(ts, FieldSize)
    ensures CStr(Metadata(row, ts, power, lo).state) == PlusSigned(power)
    ensures Atoi(CStr(Metadata(row, ts, power, lo).state)) == power
    ensures CStr(Metadata(row, ts, power, lo).frequency) == Tenths(lo, 1)
    ensures Metadata(row, ts, power, lo).adhat1 == row.adhat1
    ensures Metadata(row, ts, power, lo).adhat2 == row.adhat2
    ensures Metadata(row, ts, power, lo).adhat3 == row.adhat3
  {
    TimestampField(row.timeRpi2, ts);
    TimestampField(row.filename, ts);
    PowerField(row.state, power);
    FrequencyText(row.frequency, lo, 1);
  }

  /** The effect of `GET_DATA(buf, i, power)` on the rows and `LO_FREQ` once its checks pass. */
  function Measured(rows: seq<Record>, i: int, s: Sample, ts: Option<seq<char>>, power: int, lo: int): (seq<Record>, int)
    requires 0 <= i < |rows| && rows[i].WellFormed() && s.WellFormed() && lo >= 0
  {
    if ts.None? then (rows, lo)
    else (rows[i := Metadata(WithReadings(rows[i], s), ts.value, power, lo)], IncrementLo(lo))
  }

  /**
   * With a row and a timestamp in hand neither helper fails, so `GET_DATA`'s
   * error returns after them cannot be reached, and together they give `Measured`.
   */
  lemma HelpersSucceed(rows: seq<Record>, i: int, s: Sample, ts: seq<char>, power: int, lo: nat)
    requires 0 <= i < |rows| && rows[i].WellFormed() && s.WellFormed()
    ensures CollectAdcData(Some(rows[i]), s).Ok?
    ensures StoreMetadata(Some(CollectAdcData(Some(rows[i]), s).value), Some(ts), power, lo).Ok?
    ensures Measured(rows, i, s, Some(ts), power, lo) ==
      (rows[i := StoreMetadata(Some(CollectAdcData(Some(rows[i]), s).value), Some(ts), power, lo).value], IncrementLo(lo))
  {
  }

  /** The global `LO_FREQ`. */
  class SweepProgram {
    var lo: int

    ghost predicate Valid()
      reads this
    {
      FreqMin <= lo <= FreqMax && (lo - FreqMin) % FreqStep == 0
    }

    constructor ()
      ensures Valid() && lo == FreqMin
    {
      lo := FreqMin;
    }

    /** `INCREMENT_LO_FREQUENCY()`: always returns 0. */
    method IncrementLoFrequency() returns (code: int)
      requires Valid()
      modifies this
      ensures Valid() && lo == IncrementLo(old(lo)) && code == 0
    {
      if lo < FreqMax {
        lo := lo + FreqStep;
      }
      code := 0;
    }

    /**
     * `GET_DATA(buf, i, power)`: -1 with nothing changed on a bad buffer, index or
     * row array, or when no timestamp could be made; otherwise row i gets the
     * readings and the metadata of the current LO, then the LO steps, and 0 is
     * returned.
     */
    method GetData(buf: SweepBuffer?, i: int, power: int, ts: Option<seq<char>>, s: Sample) returns (code: int)
      requires Valid() && s.WellFormed()
      requires buf != null ==> buf.Valid() && buf.RowsWellFormed()
      modifies this, if buf != null && buf.data != null then {buf.data} else {}
      ensures Valid() && (buf != null ==> buf.RowsWellFormed())
      ensures !Accepts(buf, i) ==> code == -1 && lo == old(lo)
      ensures !Accepts(buf, i) && buf != null && buf.data != null ==> buf.data[..] == old(buf.data[..])
      ensures Accepts(buf, i) ==> (code == 0 <==> ts.Some?) && (code != 0 ==> code == -1)
      ensures Accepts(buf, i) ==> (buf.data[..], lo) == Measured(old(buf.data[..]), i, s, ts, power, old(lo))
    {
      if buf == null {
        return -1;
      }
      if i < 0 || i >= buf.nrows {
        return -1;
      }
      if buf.data == null {
        return -1;
      }
      if ts.None? {
        return -1;
      }
      ghost var before := buf.data[..];
      HelpersSucceed(before, i, s, ts.value, power, lo);
      var collected := CollectAdcData(Some(buf.data[i]), s);
      SetRow(buf, i, collected.value);
      assert buf.data[i] == collected.value;
      var stored := StoreMetadata(Some(buf.data[i]), ts, power, lo);
      SetRow(buf, i, stored.value);
      assert buf.data[..] == before[i := stored.value];
      var _ := IncrementLoFrequency();
      code := 0;
    }
  }

  // ---------------------------------------------------------------- one pass

  /** The number of measurements among the first k that had a timestamp. */
  function Successes(stamps: seq<Option<seq<char>>>, k: nat): nat
    requires k <= |stamps|
  {
    if k == 0 then 0 else Successes(stamps, k - 1) + (if stamps[k - 1].Some? then 1 else 0)
  }

  /** The rows and the LO after the first k measurements of a pass that starts at `FREQ_MIN`. */
  function PassState(rows0: seq<Record>, samples: seq<Sample>, stamps: seq<Option<seq<char>>>, power: int, k: nat)
    : (r: (seq<Record>, int))
    requires k <= |rows0| && k <= |samples| && k <= |stamps|
    requires AllWellFormed(rows0) && forall j :: 0 <= j < |samples| ==> samples[j].WellFormed()
    ensures |r.0| == |rows0| && AllWellFormed(r.0)
    ensures FreqMin <= r.1 <= FreqMax && (r.1 - FreqMin) % FreqStep == 0
  {
    if k == 0 then (rows0, FreqMin)
    else
      var prev := PassState(rows0, samples, stamps, power, k - 1);
      MeasuredKeeps(prev.0, k - 1, samples[k - 1], stamps[k - 1], power, prev.1);
      Measured(prev.0, k - 1, samples[k - 1], stamps[k - 1], power, prev.1)
  }

  /** One measurement keeps every row well formed and the LO on the grid of the sweep. */
  lemma MeasuredKeeps(rows: seq<Record>, i: int, s: Sample, ts: Option<seq<char>>, power: int, lo: int)
    requires 0 <= i < |rows| && AllWellFormed(rows) && s.WellFormed()
    requires FreqMin <= lo <= FreqMax && (lo - FreqMin) % FreqStep == 0
    ensures |Measured(rows, i, s, ts, power, lo).0| == |rows|
    ensures AllWellFormed(Measured(rows, i, s, ts, power, lo).0)
    ensures FreqMin <= Measured(rows, i, s, ts, power, lo).1 <= FreqMax
    ensures (Measured(rows, i, s, ts, power, lo).1 - FreqMin) % FreqStep == 0
  {
  }

  /**
   * What row i of a pass ends up holding: its readings and the metadata of the LO
   * reached after the successes before it when it had a timestamp, its old
   * contents when it did not.
   */
  function Recorded(rows0: seq<Record>, samples: seq<Sample>, stamps: seq<Option<seq<char>>>, power: int, i: nat)
    : Record
    requires i < |rows0| && i < |samples| && i < |stamps|
    requires rows0[i].WellFormed() && samples[i].WellFormed()
  {
    if stamps[i].Some?
    then Metadata(WithReadings(rows0[i], samples[i]), stamps[i].value, power, LoAt(Successes(stamps, i)))
    else rows0[i]
  }

  /**
   * After k measurements the LO has advanced once per success, row i < k is
   * `Recorded`, and rows from k on are untouched.
   */
  lemma {:induction false} PassStateDescribed(rows0: seq<Record>, samples: seq<Sample>,
                                              stamps: seq<Option<seq<char>>>, power: int, k: nat)
    requires k <= |rows0| && k <= |samples| && k <= |stamps|
    requires AllWellFormed(rows0) && forall j :: 0 <= j < |samples| ==> samples[j].WellFormed()
    ensures PassState(rows0, samples, stamps, power, k).1 == LoAt(Successes(stamps, k))
    ensures forall i :: 0 <= i < k ==>
      PassState(rows0, samples, stamps, power, k).0[i] == Recorded(rows0, samples, stamps, power, i)
    ensures forall i :: k <= i < |rows0| ==> PassState(rows0, samples, stamps, power, k).0[i] == rows0[i]
  {
    if k > 0 {
      PassStateDescribed(rows0, samples, stamps, power, k - 1);
      var prev := PassState(rows0, samples, stamps, power, k - 1);
      var cur := PassState(rows0, samples, stamps, power, k);
      IncrementLoAt(Successes(stamps, k - 1));
      assert prev.0[k - 1] == rows0[k - 1];
      assert cur == Measured(prev.0, k - 1, samples[k - 1], stamps[k - 1], power, prev.1);
      assert cur.0[k - 1] == Recorded(rows0, samples, stamps, power, k - 1);
    }
  }

  lemma {:induction false} AllSucceed(stamps: seq<Option<seq<char>>>, k: nat)
    requires k <= |stamps| && forall j :: 0 <= j < |stamps| ==> stamps[j].Some?
    ensures Successes(stamps, k) == k
  {
    if k > 0 {
      AllSucceed(stamps, k - 1);
    }
  }

  /**
   * A pass in which every timestamp was made records row i at 900 + 0.2 i MHz
   * (text `%.1f`), with the pass's power and the row's own readings.
   */
  lemma CompletePass(rows0: seq<Record>, samples: seq<Sample>, stamps: seq<Option<seq<char>>>, power: int, i: int)
    requires |rows0| == TotalSteps && |samples| == TotalSteps && |stamps| == TotalSteps
    requires AllWellFormed(rows0) && forall j :: 0 <= j < |samples| ==> samples[j].WellFormed()
    requires forall j :: 0 <= j < |stamps| ==> stamps[j].Some?
    requires -0x8000_0000 <= power < 0x8000_0000 && 0 <= i < TotalSteps
    ensures PassState(rows0, samples, stamps, power, TotalSteps).0[i] ==
      Metadata(WithReadings(rows0[i], samples[i]), stamps[i].value, power, FreqMin + FreqStep * i)
    ensures CStr(PassState(rows0, samples, stamps, power, TotalSteps).0[i].frequency) == Tenths(FreqMin + FreqStep * i, 1)
    ensures CStr(PassState(rows0, samples, stamps, power, TotalSteps).0[i].state) == PlusSigned(power)
    ensures PassState(rows0, samples, stamps, power, TotalSteps).0[i].adhat1 == samples[i].hat1
  {
    var rows := PassState(rows0, samples, stamps, power, TotalSteps).0;
    PassStateDescribed(rows0, samples, stamps, power, TotalSteps);
    AllSucceed(stamps, i);
    assert LoAt(i) == FreqMin + FreqStep * i;
    var row := WithReadings(rows0[i], samples[i]);
    assert rows[i] == Recorded(rows0, samples, stamps, power, i);
    MetadataFields(row, stamps[i].value, power, FreqMin + FreqStep * i);
  }

  /**
   * One pass of `main`: LO back to `FREQ_MIN`, then for each row, if `exit_flag`
   * is set (from check number `interruptAt` on, counting the checks of both
   * passes from 0) stop, otherwise `GET_DATA`, whose result is ignored.
   */
  method Sweep(prog: SweepProgram, buf: SweepBuffer, power: int, samples: seq<Sample>,
               stamps: seq<Option<seq<char>>>, first: nat, interruptAt: nat)
    returns (completed: bool)
    requires prog.Valid() && buf.data != null && buf.nrows == TotalSteps && buf.Valid() && buf.RowsWellFormed()
    requires |samples| == TotalSteps && |stamps| == TotalSteps
    requires forall j :: 0 <= j < |samples| ==> samples[j].WellFormed()
    requires first <= interruptAt
    modifies prog, buf.data
    ensures prog.Valid() && buf.RowsWellFormed()
    ensures completed <==> first + TotalSteps <= interruptAt
    ensures completed ==> (buf.data[..], prog.lo) == PassState(old(buf.data[..]), samples, stamps, power, TotalSteps)
    ensures !completed ==> (buf.data[..], prog.lo) == PassState(old(buf.data[..]), samples, stamps, power, interruptAt - first)
  {
    prog.lo := FreqMin;
    var i := 0;
    while i < TotalSteps
      invariant 0 <= i <= TotalSteps && first + i <= interruptAt
      invariant prog.Valid() && buf.RowsWellFormed()
      invariant (buf.data[..], prog.lo) == PassState(old(buf.data[..]), samples, stamps, power, i)
    {
      if first + i >= interruptAt {
        return false;
      }
      ghost var prev := PassState(old(buf.data[..]), samples, stamps, power, i);
      assert PassState(old(buf.data[..]), samples, stamps, power, i + 1) ==
        Measured(prev.0, i, samples[i], stamps[i], power, prev.1);
      var _ := prog.GetData(buf, i, power, stamps[i], samples[i]);
      i := i + 1;
    }
    completed := true;
  }

  // ---------------------------------------------------------------- SAVE_OUTPUT

  /** `strrchr(s, '.')`: the position of the last '.', if any. */
  function LastDot(s: seq<char>): (r: Option<nat>)
    ensures r.Some? ==> r.value < |s| && s[r.value] == '.' && forall j :: r.value < j < |s| ==> s[j] != '.'
    ensures r.None? ==> forall j :: 0 <= j < |s| ==> s[j] != '.'
  {
    if s == [] then None
    else if s[|s| - 1] == '.' then Some(|s| - 1)
    else LastDot(s[..|s| - 1])
  }

  /** `if (dot) *dot = '\0';`: the name up to its last '.', or all of it. */
  function CutAtLastDot(base: seq<char>): (r: seq<char>)
    ensures r <= base
  {
    match LastDot(base)
    case None => base
    case Some(k) => base[..k]
  }

  /** `snprintf(filename, 64, "%s_%+ddBm.fits", base, power)`. */
  function FitsName(first: Record, power: int): seq<char>
    requires |first.filename| == FieldSize
  {
    SnPrintfText(CutAtLastDot(FirstName(first)) + "_" + PlusSigned(power) + "dBm.fits", 64)
  }

  /** `snprintf(full_filename, 256, "!%s/%s", OUTPUT_DIR, filename)`. */
  function OutputPath(first: Record, power: int): seq<char>
    requires |first.filename| == FieldSize
  {
    SnPrintfText("!" + OutputDir + "/" + FitsName(first, power), 256)
  }

  /** The stem is a NUL-free prefix of at most 31 characters of the first row's name. */
  lemma StemText(first: Record)
    requires |first.filename| == FieldSize
    ensures |CutAtLastDot(FirstName(first))| <= FieldSize - 1 && NUL !in CutAtLastDot(FirstName(first))
  {
    FirstNameValue(first);
    var base := FirstName(first);
    var stem := CutAtLastDot(base);
    forall j | 0 <= j < |stem| ensures stem[j] != NUL {
      assert stem[j] == base[j];
    }
  }

  /** The file name is not truncated: stem, `_`, the signed power and `dBm.fits`. */
  lemma FitsNameValue(first: Record, power: int)
    requires |first.filename| == FieldSize && -0x8000_0000 <= power < 0x8000_0000
    ensures FitsName(first, power) == CutAtLastDot(FirstName(first)) + "_" + PlusSigned(power) + "dBm.fits"
    ensures |FitsName(first, power)| <= 51 && NUL !in FitsName(first, power)
  {
    StemText(first);
    SignedText(power);
    PlusSignedWidth(power);
    var name := CutAtLastDot(FirstName(first)) + "_" + PlusSigned(power) + "dBm.fits";
    assert NUL !in "dBm.fits";
    SnPrintfTextValue(name, 64);
    assert name[..Min(|name|, 63)] == name;
  }

  /**
   * The path is not truncated either: `!`, the directory, `/` and the file name
   * above.
   */
  lemma OutputPathValue(first: Record, power: int)
    requires |first.filename| == FieldSize && -0x8000_0000 <= power < 0x8000_0000
    ensures OutputPath(first, power) == "!" + OutputDir + "/" + FitsName(first, power)
  {
    FitsNameValue(first, power);
    PathText(FitsName(first, power));
  }

  lemma PathText(name: seq<char>)
    requires NUL !in name && |name| <= 51
    ensures SnPrintfText("!" + OutputDir + "/" + name, 256) == "!" + OutputDir + "/" + name
  {
    assert NUL !in "!" + OutputDir + "/";
    SnPrintfTextValue("!" + OutputDir + "/" + name, 256);
  }

  /** A timestamp loses exactly its ".fits" extension. */
  lemma TimestampStem(ts: seq<char>)
    requires IsTimestamp(ts)
    ensures CutAtLastDot(ts) == ts[..15]
  {
    assert ts[15] == '.';
    assert forall j :: 15 < j < 20 ==> ts[j] == ".fits"[j - 15];
    var k := LastDot(ts);
    assert k.Some?;
  }

  /**
   * A pass whose first row was stamped at `ts` is saved as
   * OUTPUT_DIR/MMDDYYYY_HHMMSS_<power>dBm.fits.
   */
  lemma SavedUnderTimestamp(first: Record, ts: seq<char>, power: int)
    requires |first.filename| == FieldSize && first.filename == Fixed(ts, FieldSize) && IsTimestamp(ts)
    requires -0x8000_0000 <= power < 0x8000_0000
    ensures FitsName(first, power) == ts[..15] + "_" + PlusSigned(power) + "dBm.fits"
    ensures OutputPath(first, power) == "!" + OutputDir + "/" + FitsName(first, power)
  {
    FitsNameValue(first, power);
    OutputPathValue(first, power);
    FirstNameValue(first);
    TimestampText(ts);
    CStrUnique(first.filename, ts);
    assert FirstName(first) == ts;
    TimestampStem(ts);
  }

  /**
   * `SAVE_OUTPUT(buf, nrows, power)`: -1 for a NULL buffer; otherwise the table of
   * the first `nrows` rows under the path above; a failing close is not reported.
   */
  method SaveOutput(buf: SweepBuffer?, nrows: int, power: int, lib: FitsLib, columnsOk: bool)
    returns (status: int, path: Option<seq<char>>, table: Option<Table>)
    requires lib.WellFormed()
    requires buf != null ==> buf.data != null && 1 <= nrows <= buf.data.Length && buf.RowsWellFormed()
    ensures buf == null ==> status == -1 && path == None && table == None
    ensures buf != null ==>
      status == SaveStatus(lib, columnsOk, false) &&
      path == Some(OutputPath(buf.data[0], power)) &&
      (table.Some? <==> lib.create == 0 && lib.table == 0 && columnsOk) &&
      (table.Some? ==> Holds(table.value, buf.data[..nrows]))
  {
    if buf == null {
      return -1, None, None;
    }
    path := Some(OutputPath(buf.data[0], power));
    status, table := WriteTable(buf.data, nrows, lib, columnsOk, false);
  }

  // ---------------------------------------------------------------- main

  /** One saved pass. */
  datatype SaveResult = SaveResult(power: int, path: seq<char>, status: int, table: Option<Table>)

  /** Readings and timestamps for every row of both passes. */
  predicate Inputs(samples: seq<seq<Sample>>, stamps: seq<seq<Option<seq<char>>>>)
  {
    |samples| == 2 && |stamps| == 2 &&
    (forall p :: 0 <= p < 2 ==> |samples[p]| == TotalSteps && |stamps[p]| == TotalSteps) &&
    (forall p, j :: 0 <= p < 2 && 0 <= j < TotalSteps ==> samples[p][j].WellFormed())
  }

  /** The buffer after n complete passes, starting from the zeroed allocation. */
  function RowsAfter(samples: seq<seq<Sample>>, stamps: seq<seq<Option<seq<char>>>>, n: nat): (r: seq<Record>)
    requires Inputs(samples, stamps) && n <= 2
    ensures |r| == TotalSteps && AllWellFormed(r)
  {
    if n == 0 then seq(TotalSteps, _ => ZeroRecord())
    else
      PassState(RowsAfter(samples, stamps, n - 1), samples[n - 1], stamps[n - 1], Powers[n - 1], TotalSteps).0
  }

  /** Passes saved when `exit_flag` is first seen at check number `interruptAt`. */
  function PassesSaved(interruptAt: nat): nat
  {
    if interruptAt >= 2 * TotalSteps then 2 else if interruptAt >= TotalSteps then 1 else 0
  }

  /** What `main` saves for pass p. */
  ghost predicate SavedPass(s: SaveResult, p: nat, samples: seq<seq<Sample>>, stamps: seq<seq<Option<seq<char>>>>,
                            libs: seq<FitsLib>, columnsOk: seq<bool>)
    requires Inputs(samples, stamps) && p < 2 && |libs| == 2 && |columnsOk| == 2 && libs[p].WellFormed()
  {
    var rows := RowsAfter(samples, stamps, p + 1);
    s.power == Powers[p] &&
    s.path == OutputPath(rows[0], Powers[p]) &&
    s.status == SaveStatus(libs[p], columnsOk[p], false) &&
    (s.table.Some? <==> libs[p].create == 0 && libs[p].table == 0 && columnsOk[p]) &&
    (s.table.Some? ==> Holds(s.table.value, rows))
  }

  /**
   * Pass number `sweep` of `main`'s loop: the sweep at `power_levels[sweep]` and,
   * when it completes, its `SAVE_OUTPUT`.
   */
  method Pass(prog: SweepProgram, buf: SweepBuffer, sweep: nat,
              samples: seq<seq<Sample>>, stamps: seq<seq<Option<seq<char>>>>,
              libs: seq<FitsLib>, columnsOk: seq<bool>, interruptAt: nat)
    returns (completed: bool, saved: SaveResult)
    requires sweep < 2 && prog.Valid() && Inputs(samples, stamps)
    requires |libs| == 2 && |columnsOk| == 2 && libs[sweep].WellFormed()
    requires buf.data != null && buf.nrows == TotalSteps && buf.Valid() && buf.RowsWellFormed()
    requires buf.data[..] == RowsAfter(samples, stamps, sweep) && sweep * TotalSteps <= interruptAt
    modifies prog, buf.data
    ensures prog.Valid() && buf.RowsWellFormed()
    ensures completed <==> (sweep + 1) * TotalSteps <= interruptAt
    ensures completed ==> buf.data[..] == RowsAfter(samples, stamps, sweep + 1)
    ensures completed ==> SavedPass(saved, sweep, samples, stamps, libs, columnsOk)
  {
    var power := Powers[sweep];
    assert forall j :: 0 <= j < |samples[sweep]| ==> samples[sweep][j].WellFormed();
    completed := Sweep(prog, buf, power, samples[sweep], stamps[sweep], sweep * TotalSteps, interruptAt);
    if !completed {
      return false, SaveResult(power, [], -1, None);
    }
    var status, path, table := SaveOutput(buf, TotalSteps, power, libs[sweep], columnsOk[sweep]);
    assert buf.data[..TotalSteps] == buf.data[..];
    saved := SaveResult(power, path.value, status, table);
  }

  /**
   * `main` from the allocation of the sweep buffer on: 1 when the buffer or
   * `gpioInitialise` fails; otherwise the two passes, each saved when it
   * completes, a pass cut short by `exit_flag` jumping to the cleanup, which
   * frees the buffer; 0 is returned.
   */
  method Run(prog: SweepProgram, alloc: Allocator, allocOk: bool, gpioOk: bool,
             samples: seq<seq<Sample>>, stamps: seq<seq<Option<seq<char>>>>,
             libs: seq<FitsLib>, columnsOk: seq<bool>, interruptAt: nat)
    returns (code: int, saves: seq<SaveResult>)
    requires prog.Valid() && Inputs(samples, stamps)
    requires |libs| == 2 && |columnsOk| == 2 && libs[0].WellFormed() && libs[1].WellFormed()
    modifies prog, alloc
    ensures !allocOk ==> code == 1 && saves == [] && alloc.live == old(alloc.live)
    ensures allocOk && !gpioOk ==> code == 1 && saves == []
    ensures allocOk && gpioOk ==> code == 0 && alloc.live == old(alloc.live)
    ensures allocOk && gpioOk ==> |saves| == PassesSaved(interruptAt)
    ensures |saves| >= 1 ==> SavedPass(saves[0], 0, samples, stamps, libs, columnsOk)
    ensures |saves| >= 2 ==> SavedPass(saves[1], 1, samples, stamps, libs, columnsOk)
  {
    var buf := alloc.MakeDataArray(TotalSteps, allocOk, allocOk);
    if buf == null {
      return 1, [];
    }
    if !gpioOk {
      return 1, [];
    }
    saves := Passes(prog, buf, samples, stamps, libs, columnsOk, interruptAt);
    assert buf !in old(alloc.live) && buf.data !in old(alloc.live);
    var q := alloc.FreeDataArray(buf);
    code := 0;
  }

  /**
   * The loop over the two power levels on a fresh zeroed buffer: each pass that
   * completes is saved, and the first pass cut short ends the loop.
   */
  method Passes(prog: SweepProgram, buf: SweepBuffer,
                samples: seq<seq<Sample>>, stamps: seq<seq<Option<seq<char>>>>,
                libs: seq<FitsLib>, columnsOk: seq<bool>, interruptAt: nat)
    returns (saves: seq<SaveResult>)
    requires prog.Valid() && Inputs(samples, stamps)
    requires |libs| == 2 && |columnsOk| == 2 && libs[0].WellFormed() && libs[1].WellFormed()
    requires buf.data != null && buf.nrows == TotalSteps && buf.Valid() && buf.RowsWellFormed()
    requires buf.data[..] == RowsAfter(samples, stamps, 0)
    modifies prog, buf.data
    ensures |saves| == PassesSaved(interruptAt)
    ensures |saves| >= 1 ==> SavedPass(saves[0], 0, samples, stamps, libs, columnsOk)
    ensures |saves| >= 2 ==> SavedPass(saves[1], 1, samples, stamps, libs, columnsOk)
  {
    saves := [];
    for sweep := 0 to 2
      invariant buf.data != null && buf.nrows == TotalSteps && buf.Valid() && buf.RowsWellFormed() && prog.Valid()
      invariant buf.data[..] == RowsAfter(samples, stamps, sweep) && sweep * TotalSteps <= interruptAt
      invariant |saves| == sweep
      invariant |saves| >= 1 ==> SavedPass(saves[0], 0, samples, stamps, libs, columnsOk)
      invariant |saves| >= 2 ==> SavedPass(saves[1], 1, samples, stamps, libs, columnsOk)
    {
      var completed, saved := Pass(prog, buf, sweep, samples, stamps, libs, columnsOk, interruptAt);
      if !completed {
        return;
      }
      saves := saves + [saved];
    }
  }
}
