/**
 * The part of `SAVE_OUTPUT` that runs before and between the FITS library calls,
 * common to the three programs: the column buffers of the binary table (three
 * `7K` columns, four `15A` columns, FITS Standard 4.0 section 7.3), the order in
 * which a failing library call decides the returned status, and the
 * `snprintf`-built output path. The library itself is abstract: each of its
 * calls is represented by the status it reports.
 */
module Columns {
  import opened Wrappers
  import opened CText
  import opened Records

  /** Width of a `15A` text cell. */
  const SlotSize: nat := 15

  datatype TextField = Time | State | Frequency | Filename

  function FieldOf(r: Record, f: TextField): seq<char>
  {
    match f
    case Time => r.timeRpi2
    case State => r.state
    case Frequency => r.frequency
    case Filename => r.filename
  }

  /** The cell a text field gets: `memset` to spaces, `strncpy` 15, byte 14 forced to NUL. */
  function Slot(field: seq<char>): seq<char>
  {
    Fixed(field, SlotSize)
  }

  /**
   * A cell holds the first min(len, 14) characters of the field's string and NUL
   * after them: the space fill never survives.
   */
  lemma SlotContents(field: seq<char>)
    ensures |Slot(field)| == SlotSize
    ensures CStr(Slot(field)) == CStr(field)[..Min(|CStr(field)|, SlotSize - 1)]
    ensures forall j :: Min(|CStr(field)|, SlotSize - 1) <= j < SlotSize ==> Slot(field)[j] == NUL
  {
    CStrFixed(field, SlotSize);
  }

  /** `memset(&a[off], c, n)`. */
  method MemsetAt(a: array<char>, off: nat, c: char, n: nat)
    requires off + n <= a.Length
    modifies a
    ensures forall k :: 0 <= k < a.Length ==> a[k] == if off <= k < off + n then c else old(a[k])
  {
    for j := 0 to n
      invariant forall k :: 0 <= k < a.Length ==> a[k] == if off <= k < off + j then c else old(a[k])
    {
      a[off + j] := c;
    }
  }

  /** `strncpy(&a[off], src, n)`: src's string, then NUL up to n bytes. */
  method StrNCpyAt(a: array<char>, off: nat, src: seq<char>, n: nat)
    requires off + n <= a.Length
    modifies a
    ensures forall k :: 0 <= k < a.Length ==>
      a[k] == if off <= k < off + n then (if k - off < |CStr(src)| then CStr(src)[k - off] else NUL) else old(a[k])
  {
    var c := CStr(src);
    for j := 0 to n
      invariant forall k :: 0 <= k < a.Length ==>
        a[k] == if off <= k < off + j then (if k - off < |c| then c[k - off] else NUL) else old(a[k])
    {
      a[off + j] := if j < |c| then c[j] else NUL;
    }
  }

  /** The three statements that fill the cell of row i. */
  method PackSlot(col: array<char>, i: nat, field: seq<char>)
    requires i * SlotSize + SlotSize <= col.Length
    modifies col
    ensures forall k :: 0 <= k < col.Length ==>
      col[k] == if i * SlotSize <= k < i * SlotSize + SlotSize then Slot(field)[k - i * SlotSize] else old(col[k])
  {
    var off := i * SlotSize;
    ghost var before := col[off..off + SlotSize];
    MemsetAt(col, off, ' ', SlotSize);
    ghost var spaces := col[off..off + SlotSize];
    StrNCpyAt(col, off, field, SlotSize);
    col[off + SlotSize - 1] := NUL;
    StrNCpyTerminated(spaces, field, SlotSize);
    forall k | off <= k < off + SlotSize
      ensures col[k] == Slot(field)[k - off]
    {
      assert col[k] == StrNCpy(spaces, field, SlotSize)[SlotSize - 1 := NUL][k - off];
    }
  }

  /** One `15A` column: cell i * 15 + j is byte j of row i's cell. */
  method PackText(data: array<Record>, nrows: nat, f: TextField) returns (col: array<char>)
    requires nrows <= data.Length
    ensures col.Length == nrows * SlotSize
    ensures forall i, j :: 0 <= i < nrows && 0 <= j < SlotSize ==>
      col[i * SlotSize + j] == Slot(FieldOf(data[i], f))[j]
  {
    col := new char[nrows * SlotSize];
    for i := 0 to nrows
      invariant forall i', j :: 0 <= i' < i && 0 <= j < SlotSize ==>
        col[i' * SlotSize + j] == Slot(FieldOf(data[i'], f))[j]
    {
      PackSlot(col, i, FieldOf(data[i], f));
    }
  }

  /** The three `7K` columns, row-major: entry i * 7 + j is channel j of row i. */
  method PackNumeric(data: array<Record>, nrows: nat) returns (c1: array<int>, c2: array<int>, c3: array<int>)
    requires nrows <= data.Length
    requires forall i :: 0 <= i < nrows ==>
      |data[i].adhat1| == Channels && |data[i].adhat2| == Channels && |data[i].adhat3| == Channels
    ensures c1.Length == nrows * Channels && c2.Length == nrows * Channels && c3.Length == nrows * Channels
    ensures forall i, j :: 0 <= i < nrows && 0 <= j < Channels ==>
      c1[i * Channels + j] == data[i].adhat1[j] &&
      c2[i * Channels + j] == data[i].adhat2[j] &&
      c3[i * Channels + j] == data[i].adhat3[j]
  {
    c1 := new int[nrows * Channels];
    c2 := new int[nrows * Channels];
    c3 := new int[nrows * Channels];
    for i := 0 to nrows
      invariant forall i', j :: 0 <= i' < i && 0 <= j < Channels ==>
        c1[i' * Channels + j] == data[i'].adhat1[j] &&
        c2[i' * Channels + j] == data[i'].adhat2[j] &&
        c3[i' * Channels + j] == data[i'].adhat3[j]
    {
      for j := 0 to Channels
        invariant forall i', j' :: 0 <= i' < i && 0 <= j' < Channels ==>
          c1[i' * Channels + j'] == data[i'].adhat1[j'] &&
          c2[i' * Channels + j'] == data[i'].adhat2[j'] &&
          c3[i' * Channels + j'] == data[i'].adhat3[j']
        invariant forall j' :: 0 <= j' < j ==>
          c1[i * Channels + j'] == data[i].adhat1[j'] &&
          c2[i * Channels + j'] == data[i].adhat2[j'] &&
          c3[i * Channels + j'] == data[i].adhat3[j']
      {
        c1[i * Channels + j] := data[i].adhat1[j];
        c2[i * Channels + j] := data[i].adhat2[j];
        c3[i * Channels + j] := data[i].adhat3[j];
      }
    }
  }

  /** The seven column buffers handed to `fits_write_col`. */
  datatype Table = Table(
    adhat1: seq<int>, adhat2: seq<int>, adhat3: seq<int>,
    time: seq<char>, state: seq<char>, frequency: seq<char>, filename: seq<char>)

  /** The table holds `rows`: row-major numeric columns and one 15-byte cell per row and text field. */
  ghost predicate Holds(t: Table, rows: seq<Record>)
  {
    |t.adhat1| == |rows| * Channels && |t.adhat2| == |rows| * Channels && |t.adhat3| == |rows| * Channels &&
    |t.time| == |rows| * SlotSize && |t.state| == |rows| * SlotSize &&
    |t.frequency| == |rows| * SlotSize && |t.filename| == |rows| * SlotSize &&
    (forall i, j :: 0 <= i < |rows| && 0 <= j < Channels && j < |rows[i].adhat1| && j < |rows[i].adhat2| && j < |rows[i].adhat3| ==>
      t.adhat1[i * Channels + j] == rows[i].adhat1[j] &&
      t.adhat2[i * Channels + j] == rows[i].adhat2[j] &&
      t.adhat3[i * Channels + j] == rows[i].adhat3[j]) &&
    (forall i, j :: 0 <= i < |rows| && 0 <= j < SlotSize ==>
      t.time[i * SlotSize + j] == Slot(rows[i].timeRpi2)[j] &&
      t.state[i * SlotSize + j] == Slot(rows[i].state)[j] &&
      t.frequency[i * SlotSize + j] == Slot(rows[i].frequency)[j] &&
      t.filename[i * SlotSize + j] == Slot(rows[i].filename)[j])
  }

  // ---------------------------------------------------------------- library status

  /**
   * The status each cfitsio call of `SAVE_OUTPUT` reports, in call order
   * (0 = success): create file, create table, the seven column writes, flush, close.
   */
  datatype FitsLib = FitsLib(create: nat, table: nat, writes: seq<nat>, flush: nat, close: nat)
  {
    predicate WellFormed() { |writes| == 7 }
  }

  /** The status of the first failing write, or 0. */
  function FirstFailure(ws: seq<nat>): (r: nat)
    ensures r == 0 <==> forall j :: 0 <= j < |ws| ==> ws[j] == 0
    ensures r != 0 ==> r in ws
  {
    if ws == [] then 0
    else if ws[0] != 0 then ws[0]
    else
      assert forall j :: 1 <= j < |ws| ==> ws[j] == ws[1..][j - 1];
      FirstFailure(ws[1..])
  }

  /**
   * What `SAVE_OUTPUT` returns once it has a buffer: the first failing library
   * status, or -1 when a column buffer could not be allocated; a failing close is
   * returned only where the program checks it (`reportClose`).
   */
  function SaveStatus(lib: FitsLib, columnsOk: bool, reportClose: bool): (r: int)
    requires lib.WellFormed()
    ensures r == -1 <==> lib.create == 0 && lib.table == 0 && !columnsOk
    ensures r == 0 <==>
      lib.create == 0 && lib.table == 0 && columnsOk && FirstFailure(lib.writes) == 0 && lib.flush == 0 &&
      (reportClose ==> lib.close == 0)
    ensures r > 0 ==> r in {lib.create, lib.table, FirstFailure(lib.writes), lib.flush, lib.close}
  {
    if lib.create != 0 then lib.create
    else if lib.table != 0 then lib.table
    else if !columnsOk then -1
    else if FirstFailure(lib.writes) != 0 then FirstFailure(lib.writes)
    else if lib.flush != 0 then lib.flush
    else if reportClose && lib.close != 0 then lib.close
    else 0
  }

  /**
   * `SAVE_OUTPUT` from `fits_create_file` on: a failing create or table call
   * returns before any column buffer exists; a failed column allocation returns
   * -1; otherwise the columns are packed and the first failing write, flush or
   * (where checked) close decides the status.
   */
  method WriteTable(data: array<Record>, nrows: nat, lib: FitsLib, columnsOk: bool, reportClose: bool)
    returns (status: int, table: Option<Table>)
    requires nrows <= data.Length && lib.WellFormed()
    requires forall i :: 0 <= i < nrows ==>
      |data[i].adhat1| == Channels && |data[i].adhat2| == Channels && |data[i].adhat3| == Channels
    ensures status == SaveStatus(lib, columnsOk, reportClose)
    ensures table.Some? <==> lib.create == 0 && lib.table == 0 && columnsOk
    ensures table.Some? ==> Holds(table.value, data[..nrows])
  {
    if lib.create != 0 {
      return lib.create, None;
    }
    if lib.table != 0 {
      return lib.table, None;
    }
    if !columnsOk {
      return -1, None;
    }
    var c1, c2, c3 := PackNumeric(data, nrows);
    var c4 := PackText(data, nrows, Time);
    var c5 := PackText(data, nrows, State);
    var c6 := PackText(data, nrows, Frequency);
    var c7 := PackText(data, nrows, Filename);
    table := Some(Table(c1[..], c2[..], c3[..], c4[..], c5[..], c6[..], c7[..]));
    TableHolds(table.value, data[..nrows]);
    if FirstFailure(lib.writes) != 0 {
      status := FirstFailure(lib.writes);
    } else if lib.flush != 0 {
      status := lib.flush;
    } else if reportClose && lib.close != 0 {
      status := lib.close;
    } else {
      status := 0;
    }
  }

  /** Columns packed row by row, each cell at its row's offset, hold the rows. */
  lemma TableHolds(t: Table, rows: seq<Record>)
    requires forall i :: 0 <= i < |rows| ==>
      |rows[i].adhat1| == Channels && |rows[i].adhat2| == Channels && |rows[i].adhat3| == Channels
    requires |t.adhat1| == |rows| * Channels && |t.adhat2| == |rows| * Channels && |t.adhat3| == |rows| * Channels
    requires forall i, j :: 0 <= i < |rows| && 0 <= j < Channels ==>
      t.adhat1[i * Channels + j] == rows[i].adhat1[j] &&
      t.adhat2[i * Channels + j] == rows[i].adhat2[j] &&
      t.adhat3[i * Channels + j] == rows[i].adhat3[j]
    requires |t.time| == |rows| * SlotSize && |t.state| == |rows| * SlotSize
    requires |t.frequency| == |rows| * SlotSize && |t.filename| == |rows| * SlotSize
    requires forall i, j :: 0 <= i < |rows| && 0 <= j < SlotSize ==> t.time[i * SlotSize + j] == Slot(FieldOf(rows[i], Time))[j]
    requires forall i, j :: 0 <= i < |rows| && 0 <= j < SlotSize ==> t.state[i * SlotSize + j] == Slot(FieldOf(rows[i], State))[j]
    requires forall i, j :: 0 <= i < |rows| && 0 <= j < SlotSize ==>
      t.frequency[i * SlotSize + j] == Slot(FieldOf(rows[i], Frequency))[j]
    requires forall i, j :: 0 <= i < |rows| && 0 <= j < SlotSize ==>
      t.filename[i * SlotSize + j] == Slot(FieldOf(rows[i], Filename))[j]
    ensures Holds(t, rows)
  {
    forall i, j | 0 <= i < |rows| && 0 <= j < SlotSize
      ensures t.time[i * SlotSize + j] == Slot(rows[i].timeRpi2)[j]
      ensures t.state[i * SlotSize + j] == Slot(rows[i].state)[j]
      ensures t.frequency[i * SlotSize + j] == Slot(rows[i].frequency)[j]
      ensures t.filename[i * SlotSize + j] == Slot(rows[i].filename)[j]
    {
      assert FieldOf(rows[i], Time) == rows[i].timeRpi2 && FieldOf(rows[i], State) == rows[i].state;
      assert FieldOf(rows[i], Frequency) == rows[i].frequency && FieldOf(rows[i], Filename) == rows[i].filename;
    }
  }

  /** A close that fails after a clean flush changes nothing where it is not checked. */
  lemma CloseIgnored(lib: FitsLib, columnsOk: bool)
    requires lib.WellFormed()
    ensures SaveStatus(lib, columnsOk, false) == SaveStatus(lib.(close := 0), columnsOk, true)
  {
  }

  // ---------------------------------------------------------------- text written by snprintf

  /** The string `snprintf(buf, cap, "%s", text)` leaves in buf. */
  function SnPrintfText(text: seq<char>, cap: nat): seq<char>
    requires cap >= 1
  {
    CStr(SnPrintf(Nuls(cap), text, cap))
  }

  lemma SnPrintfTextValue(text: seq<char>, cap: nat)
    requires cap >= 1 && NUL !in text
    ensures SnPrintfText(text, cap) == text[..Min(|text|, cap - 1)]
  {
    CStrSnPrintf(Nuls(cap), text, cap);
  }

  /**
   * `strncpy(name, data[0].FILENAME, 31); name[31] = '\0';` into a `char[32]`:
   * the string the output name is built from.
   */
  function FirstName(first: Record): seq<char>
    requires |first.filename| == FieldSize
  {
    CStr(StrNCpy(Nuls(FieldSize), first.filename, FieldSize - 1)[FieldSize - 1 := NUL])
  }

  lemma FirstNameValue(first: Record)
    requires |first.filename| == FieldSize
    ensures FirstName(first) == CStr(first.filename)[..Min(|CStr(first.filename)|, FieldSize - 1)]
    ensures |FirstName(first)| <= FieldSize - 1 && NUL !in FirstName(first)
  {
    StrNCpyTerminated(Nuls(FieldSize), first.filename, FieldSize - 1);
    CStrFixed(first.filename, FieldSize);
  }

  /** A directory path followed by the first row's name, as `snprintf(full, 256, ...)` writes it. */
  function DirPath(dir: seq<char>, first: Record): seq<char>
    requires |first.filename| == FieldSize
  {
    SnPrintfText(dir + FirstName(first), 256)
  }

  /** No prefix shorter than 224 characters makes that `snprintf` truncate. */
  lemma DirPathValue(dir: seq<char>, first: Record)
    requires |first.filename| == FieldSize && |dir| <= 224 && NUL !in dir
    ensures DirPath(dir, first) == dir + CStr(first.filename)[..Min(|CStr(first.filename)|, FieldSize - 1)]
  {
    FirstNameValue(first);
    var text := dir + FirstName(first);
    assert NUL !in text by {
      forall j | 0 <= j < |text| ensures text[j] != NUL {
        if j < |dir| { assert text[j] == dir[j]; } else { assert text[j] == FirstName(first)[j - |dir|]; }
      }
    }
    SnPrintfTextValue(text, 256);
  }

  // ---------------------------------------------------------------- timestamps in the table

  /** `strftime("%m%d%Y_%H%M%S.fits")`: 8 digits, '_', 6 digits, ".fits". */
  predicate IsTimestamp(ts: seq<char>)
  {
    |ts| == 20 && AllDigits(ts[..8]) && ts[8] == '_' && AllDigits(ts[9..15]) && ts[15..] == ".fits"
  }

  /** A timestamp is a C string of its own: it holds no NUL. */
  lemma TimestampText(ts: seq<char>)
    requires IsTimestamp(ts)
    ensures NUL !in ts && CStr(ts) == ts
    ensures CStr(Fixed(ts, FieldSize)) == ts
  {
    assert NUL !in ts by {
      forall j | 0 <= j < |ts| ensures ts[j] != NUL {
        if j < 8 { assert IsDigit(ts[..8][j]); }
        else if 9 <= j < 15 { assert IsDigit(ts[9..15][j - 9]); }
        else if j >= 15 { assert ts[j] == ".fits"[j - 15]; }
      }
    }
    CStrUnique(ts, ts);
    CStrFixed(ts, FieldSize);
  }

  /** A field whose string is shorter than a cell reaches the cell whole. */
  lemma SlotText(field: seq<char>, t: seq<char>)
    requires CStr(field) == t && |t| < SlotSize
    ensures CStr(Slot(field)) == t
  {
    SlotContents(field);
  }

  /** A buffer whose row 0 was stamped with a timestamp is saved as the directory followed by that timestamp. */
  lemma StampedPath(dir: seq<char>, first: Record, ts: seq<char>)
    requires |dir| <= 224 && NUL !in dir
    requires |first.filename| == FieldSize && first.filename == Fixed(ts, FieldSize) && IsTimestamp(ts)
    ensures DirPath(dir, first) == dir + ts
  {
    DirPathValue(dir, first);
    TimestampText(ts);
    CStrUnique(first.filename, ts);
  }

  /**
   * A timestamp stamped into a 32-byte field reaches its `15A` cell as its first
   * 14 characters: the last digit of the seconds is not stored.
   */
  lemma TimestampCell(ts: seq<char>)
    requires IsTimestamp(ts)
    ensures CStr(Slot(Fixed(ts, FieldSize))) == ts[..14]
    ensures IsDigit(ts[14])
  {
    TimestampText(ts);
    assert IsDigit(ts[9..15][5]);
    SlotContents(Fixed(ts, FieldSize));
  }
}
