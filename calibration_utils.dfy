/**
 * The calibration helpers of the real-time viewer (`calibration_utils.py`): the
 * 21 detector codes of a row as one list, codes to volts, the per-filter
 * calibration curve read from a filter-sweep file, and its use to turn a sweep
 * of detector voltages into dBm. Python floats are modelled as exact reals and
 * Python ints as unbounded integers; a Python exception is an `Err`.
 */
module CalibrationUtils {
  import opened Wrappers
  import FilterSweep

  datatype PyError = IndexError | KeyError

  // ---------------------------------------------------------------- makeSingleListOfInts

  /** The codes of the first list, then the same number from the second and the third. */
  function Concat3(a1: seq<int>, a2: seq<int>, a3: seq<int>): seq<int>
    requires |a2| >= |a1| && |a3| >= |a1|
  {
    a1 + a2[..|a1|] + a3[..|a1|]
  }

  /** Entry j, |a1| + j and 2|a1| + j of the list are a1[j], a2[j] and a3[j]. */
  lemma Concat3Layout(a1: seq<int>, a2: seq<int>, a3: seq<int>, j: int)
    requires |a2| >= |a1| && |a3| >= |a1| && 0 <= j < |a1|
    ensures |Concat3(a1, a2, a3)| == 3 * |a1|
    ensures Concat3(a1, a2, a3)[j] == a1[j]
    ensures Concat3(a1, a2, a3)[|a1| + j] == a2[j]
    ensures Concat3(a1, a2, a3)[2 * |a1| + j] == a3[j]
  {
  }

  /**
   * `makeSingleListOfInts(a1, a2, a3)`: one pass over a1's indices appending to
   * three lists; an IndexError when a2 or a3 is shorter than a1.
   */
  method MakeSingleListOfInts(a1: seq<int>, a2: seq<int>, a3: seq<int>) returns (r: Result<seq<int>, PyError>)
    ensures r.Err? <==> |a2| < |a1| || |a3| < |a1|
    ensures r.Err? ==> r.error == IndexError
    ensures r.Ok? ==> r.value == Concat3(a1, a2, a3)
  {
    var adc1, adc2, adc3 := [], [], [];
    for i := 0 to |a1|
      invariant i <= |a2| && i <= |a3|
      invariant adc1 == a1[..i] && adc2 == a2[..i] && adc3 == a3[..i]
    {
      adc1 := adc1 + [a1[i]];
      if i >= |a2| {
        return Err(IndexError);
      }
      adc2 := adc2 + [a2[i]];
      if i >= |a3| {
        return Err(IndexError);
      }
      adc3 := adc3 + [a3[i]];
    }
    assert a1[..|a1|] == a1;
    return Ok(adc1 + adc2 + adc3);
  }

  // ---------------------------------------------------------------- toVolts

  /** `REF`. */
  const Ref: real := 5.0

  /**
   * One code in volts: codes whose `i >> 31` is 1 map to 2·REF − i/2^31·REF,
   * all others to i/(2^31 − 1)·REF (`>>` floors, as Dafny's `/` does here).
   */
  function Volt(i: int): real
  {
    if i / 0x8000_0000 == 1 then Ref * 2.0 - (i as real / 2147483648.0) * Ref
    else (i as real / 2147483647.0) * Ref
  }

  /**
   * The upper branch is taken exactly for codes in [2^31, 2^32); every 32-bit
   * code lands in [0, REF], with REF at both ends of the split and 0 only at 0.
   */
  lemma VoltRange(i: int)
    requires 0 <= i < 0x1_0000_0000
    ensures i / 0x8000_0000 == 1 <==> i >= 0x8000_0000
    ensures 0.0 <= Volt(i) <= Ref
    ensures Volt(i) == 0.0 <==> i == 0
    ensures Volt(0x7FFF_FFFF) == Ref && Volt(0x8000_0000) == Ref
  {
  }

  /** `toVolts(data)`: the list of volts, one per code, in order. */
  method ToVolts(data: seq<int>) returns (r: seq<real>)
    ensures |r| == |data| && forall k :: 0 <= k < |data| ==> r[k] == Volt(data[k])
  {
    r := [];
    for k := 0 to |data|
      invariant |r| == k && forall j :: 0 <= j < k ==> r[j] == Volt(data[j])
    {
      r := r + [Volt(data[k])];
    }
  }

  // ---------------------------------------------------------------- calibrationCurve

  /** The fields of a filter-sweep row the curve reads: three code blocks and FREQUENCY, parsed. */
  datatype CalRow = CalRow(adhat1: seq<int>, adhat2: seq<int>, adhat3: seq<int>, frequency: real)

  /** One calibration entry `(loFreq, slopeTrue, yintTrue)`. */
  datatype Curve = Curve(loFreq: real, slope: real, intercept: real)

  /** `startIdx`, the `range` stop and step, and the number of filters. */
  const StartIdx: int := 20
  const StopIdx: int := 281
  const RowStride: int := 13
  const Filters: int := 21

  /** The row read for filter n. */
  function CurveRow(n: int): int
  {
    StartIdx + RowStride * n
  }

  /** Python's `int()` on a float: truncation toward zero. */
  function Trunc(x: real): int
  {
    if x >= 0.0 then x.Floor else -((-x).Floor)
  }

  /** `int(x * 10) / 10`. */
  function TenthsDown(x: real): real
  {
    Trunc(x * 10.0) as real / 10.0
  }

  /** Python's `s[:7]`. */
  function First7(s: seq<int>): seq<int>
  {
    s[..if |s| < 7 then |s| else 7]
  }

  /** Filter n's detector can be read from this row: its three blocks combine and hold index n. */
  predicate Usable(row: CalRow, n: int)
  {
    var a1, a2, a3 := First7(row.adhat1), First7(row.adhat2), First7(row.adhat3);
    |a2| >= |a1| && |a3| >= |a1| && 0 <= n < 3 * |a1|
  }

  /** `sweepVolts[fltNum]`: the detector voltage of filter n. */
  function DetVolt(row: CalRow, n: int): real
    requires Usable(row, n)
  {
    Volt(Concat3(First7(row.adhat1), First7(row.adhat2), First7(row.adhat3))[n])
  }

  /** The entry for filter n, computed as the loop body does. */
  function CurveEntry(row: CalRow, n: int, pwr: real): Curve
    requires Usable(row, n)
  {
    var yint := DetVolt(row, n) + 0.025 * pwr;
    Curve(TenthsDown(row.frequency), 1.0 / -0.025, -(yint / -0.025))
  }

  /** Every row the schedule needs exists and is usable. */
  predicate ScheduleReadable(rows: seq<CalRow>)
  {
    forall n :: 0 <= n < Filters ==> CurveRow(n) < |rows| && Usable(rows[CurveRow(n)], n)
  }

  /** Every entry has slope −40 and intercept 40·(v_n + 0.025·pwrSetting). */
  lemma CurveLine(row: CalRow, n: int, pwr: real)
    requires Usable(row, n)
    ensures CurveEntry(row, n, pwr).slope == -40.0
    ensures CurveEntry(row, n, pwr).intercept == 40.0 * (DetVolt(row, n) + 0.025 * pwr)
  {
  }

  /**
   * `calibrationCurve(dataFits, pwrSetting)`: rows 20, 33, ..., 280 give the
   * entries for filters 0..20; an IndexError when a scheduled row is missing
   * or too short for its filter.
   */
  method CalibrationCurve(rows: seq<CalRow>, pwr: real) returns (r: Result<map<int, Curve>, PyError>)
    ensures r.Ok? <==> ScheduleReadable(rows)
    ensures r.Err? ==> r.error == IndexError
    ensures r.Ok? ==> forall n :: n in r.value <==> 0 <= n < Filters
    ensures r.Ok? ==> forall n :: 0 <= n < Filters ==> r.value[n] == CurveEntry(rows[CurveRow(n)], n, pwr)
  {
    var cal: map<int, Curve> := map[];
    var fltIdx := StartIdx;
    var m := 0;
    while fltIdx < StopIdx
      invariant 0 <= m <= Filters && fltIdx == CurveRow(m)
      invariant forall n :: 0 <= n < m ==> CurveRow(n) < |rows| && Usable(rows[CurveRow(n)], n)
      invariant forall n :: n in cal <==> 0 <= n < m
      invariant forall n :: 0 <= n < m ==> cal[n] == CurveEntry(rows[CurveRow(n)], n, pwr)
      decreases StopIdx - fltIdx
    {
      var fltNum := Trunc((fltIdx - StartIdx) as real / 13.0);
      assert (fltIdx - StartIdx) as real / 13.0 == m as real;
      if fltIdx >= |rows| {
        return Err(IndexError);
      }
      var row := rows[fltIdx];
      var loFreq := TenthsDown(row.frequency);
      var combined := MakeSingleListOfInts(First7(row.adhat1), First7(row.adhat2), First7(row.adhat3));
      if combined.Err? {
        return Err(combined.error);
      }
      var sweepVolts := ToVolts(combined.value);
      if fltNum >= |sweepVolts| {
        return Err(IndexError);
      }
      var detVolts := sweepVolts[fltNum];
      var yint := detVolts + 0.025 * pwr;
      var slopeTrue := 1.0 / -0.025;
      var yintTrue := -(yint / -0.025);
      cal := cal[fltNum := Curve(loFreq, slopeTrue, yintTrue)];
      fltIdx, m := fltIdx + RowStride, m + 1;
    }
    return Ok(cal);
  }

  // ---------------------------------------------------------------- toDB

  /**
   * `toDB(sweepData, calDict)`: entry n is slope_n·v[n] + intercept_n for n in
   * 0..20. The first index n that fails raises: a KeyError when filter n is
   * missing (the dictionary is read first), otherwise an IndexError because the
   * sweep has only n values.
   */
  method ToDB(sweep: seq<real>, cal: map<int, Curve>) returns (r: Result<seq<real>, PyError>)
    ensures r.Ok? <==> (forall n :: 0 <= n < Filters ==> n in cal) && |sweep| >= Filters
    ensures (forall n :: 0 <= n < Filters ==> n in cal) && |sweep| < Filters ==> r == Err(IndexError)
    ensures |sweep| >= Filters && !(forall n :: 0 <= n < Filters ==> n in cal) ==> r == Err(KeyError)
    ensures r == Err(KeyError) <==>
      exists n :: 0 <= n < Filters && n <= |sweep| && n !in cal && forall m :: 0 <= m < n ==> m in cal
    ensures r == Err(IndexError) <==> |sweep| < Filters && forall m :: 0 <= m <= |sweep| ==> m in cal
    ensures r.Err? ==> r == Err(KeyError) || r == Err(IndexError)
    ensures r.Ok? ==>
      |r.value| == Filters && forall n :: 0 <= n < Filters ==> r.value[n] == cal[n].slope * sweep[n] + cal[n].intercept
  {
    var db := [];
    for n := 0 to Filters
      invariant n <= |sweep| && forall k :: 0 <= k < n ==> k in cal
      invariant |db| == n && forall k :: 0 <= k < n ==> db[k] == cal[k].slope * sweep[k] + cal[k].intercept
    {
      if n !in cal {
        assert !(forall k :: 0 <= k < Filters ==> k in cal) by { assert 0 <= n < Filters && n !in cal; }
        return Err(KeyError);
      }
      if n >= |sweep| {
        assert |sweep| < Filters;
        return Err(IndexError);
      }
      ghost var db0 := db;
      db := db + [cal[n].slope * sweep[n] + cal[n].intercept];
      assert forall k :: 0 <= k < n ==> db[k] == db0[k];
    }
    assert Filters - 1 in cal && Filters - 1 < |sweep|;
    return Ok(db);
  }

  /**
   * Converting the calibration rows' own detector voltages with the curve
   * gives back the power setting for every filter.
   */
  lemma CurveInverts(rows: seq<CalRow>, pwr: real, cal: map<int, Curve>, sweep: seq<real>)
    requires ScheduleReadable(rows) && |sweep| >= Filters
    requires forall n :: 0 <= n < Filters ==> n in cal && cal[n] == CurveEntry(rows[CurveRow(n)], n, pwr)
    requires forall n :: 0 <= n < Filters ==> sweep[n] == DetVolt(rows[CurveRow(n)], n)
    ensures forall n :: 0 <= n < Filters ==> cal[n].slope * sweep[n] + cal[n].intercept == pwr
  {
    forall n | 0 <= n < Filters
      ensures cal[n].slope * sweep[n] + cal[n].intercept == pwr
    {
      CurveLine(rows[CurveRow(n)], n, pwr);
    }
  }

  // ---------------------------------------------------------------- the schedule against the sweep file

  /**
   * Row 20 + 13n of a complete filter-sweep pass exists (the last one used is
   * 280 of 301) and was recorded at 904 + 2.6n MHz, which the `int(x·10)/10` cut
   * keeps exactly.
   */
  lemma ScheduleInSweep(n: int)
    requires 0 <= n < Filters
    ensures CurveRow(n) <= 280 && CurveRow(n) < FilterSweep.TotalSteps
    ensures FilterSweep.FreqMin + FilterSweep.FreqStep * CurveRow(n) == 9040 + 26 * n
    ensures TenthsDown((9040 + 26 * n) as real / 10.0) == (9040 + 26 * n) as real / 10.0
  {
    var t := 9040 + 26 * n;
    assert (t as real / 10.0) * 10.0 == t as real;
  }
}
