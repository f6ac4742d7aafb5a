/**
 * The row and buffer types shared by the acquisition program and both
 * calibration programs: `GetAllValues` (one sample), `FITS_DATA` (a buffer of
 * rows), and `MAKE_DATA_ARRAY` / `FREE_DATA_ARRAY`, whose code is the same in
 * all three programs.
 */
module Records {
  import opened CText

  /** `ChannelNumber`: channels read from each of the three AD HATs. */
  const Channels: nat := 7
  /** Capacity of every text field of a row (`char[32]`). */
  const FieldSize: nat := 32

  /** A 32-bit ADC code (`UDOUBLE`). */
  predicate IsCode(v: int) { 0 <= v < 0x1_0000_0000 }

  predicate IsCodes(s: seq<int>, n: nat) { |s| == n && forall j :: 0 <= j < n ==> IsCode(s[j]) }

  /** One sample: three 7-channel readings and four fixed text fields. */
  datatype Record = Record(
    adhat1: seq<int>, adhat2: seq<int>, adhat3: seq<int>,
    timeRpi2: seq<char>, state: seq<char>, frequency: seq<char>, filename: seq<char>)
  {
    /** The shape the C struct type fixes. */
    predicate WellFormed() {
      IsCodes(adhat1, Channels) && IsCodes(adhat2, Channels) && IsCodes(adhat3, Channels) &&
      |timeRpi2| == FieldSize && |state| == FieldSize && |frequency| == FieldSize && |filename| == FieldSize
    }
  }

  /** A row after `memset(..., 0, ...)`. */
  function ZeroRecord(): (r: Record)
    ensures r.WellFormed()
  {
    var z := seq(Channels, _ => 0);
    Record(z, z, z, Nuls(FieldSize), Nuls(FieldSize), Nuls(FieldSize), Nuls(FieldSize))
  }

  /** `snprintf(FREQUENCY, 32, "%.Nf", LO)` for N up to 6 and an LO below 1000 MHz fits, so the field holds the whole text. */
  lemma FrequencyText(dst: seq<char>, lo: nat, decimals: nat)
    requires |dst| == FieldSize && lo < 10000 && 1 <= decimals <= 6
    ensures CStr(SnPrintf(dst, Tenths(lo, decimals), FieldSize)) == Tenths(lo, decimals)
    ensures |Tenths(lo, decimals)| <= 4 + decimals
  {
    TenthsText(lo, decimals);
    DecimalShort(lo / 10);
    CStrSnPrintf(dst, Tenths(lo, decimals), FieldSize);
  }

  /** What the ADC driver delivers for one sample: three HATs, and channels 7..9 of the first. */
  datatype Sample = Sample(hat1: seq<int>, hat2: seq<int>, hat3: seq<int>, aux: seq<int>)
  {
    predicate WellFormed() {
      IsCodes(hat1, Channels) && IsCodes(hat2, Channels) && IsCodes(hat3, Channels) && IsCodes(aux, 3)
    }
  }

  /** A row whose three readings `ADS1263_GetAll` has just overwritten. */
  function WithReadings(row: Record, s: Sample): Record
  {
    row.(adhat1 := s.hat1, adhat2 := s.hat2, adhat3 := s.hat3)
  }

  predicate AllWellFormed(rows: seq<Record>)
  {
    forall k :: 0 <= k < |rows| ==> rows[k].WellFormed()
  }

  /** `FITS_DATA`: a row array and its row count. */
  class SweepBuffer {
    var data: array?<Record>
    var nrows: int

    /** What `MAKE_DATA_ARRAY` establishes: the row array holds exactly `nrows` rows. */
    predicate Valid()
      reads this
    {
      data != null ==> data.Length == nrows
    }

    ghost predicate RowsWellFormed()
      reads this, data
    {
      data != null ==> AllWellFormed(data[..])
    }

    /** The allocation of the header alone: `malloc(sizeof(FITS_DATA))`. */
    constructor ()
      ensures data == null && nrows == 0
    {
      data := null;
      nrows := 0;
    }
  }

  /** The checks at the top of every `GET_DATA`: a buffer, an index in range, a row array. */
  predicate Accepts(buf: SweepBuffer?, i: int)
    reads buf
  {
    buf != null && 0 <= i < buf.nrows && buf.data != null
  }

  /** Overwriting one row of a buffer, leaving the others as they were. */
  method SetRow(b: SweepBuffer, i: int, r: Record)
    requires b.data != null && 0 <= i < b.data.Length && b.RowsWellFormed() && r.WellFormed()
    modifies b.data
    ensures b.data[..] == old(b.data[..])[i := r] && b.RowsWellFormed()
  {
    b.data[i] := r;
  }

  /**
   * The blocks obtained from `malloc` and not yet given back to `free`. Whether a
   * `malloc` succeeds is an input of each operation.
   */
  class Allocator {
    var live: set<object>

    constructor ()
      ensures live == {}
    {
      live := {};
    }

    /**
     * `MAKE_DATA_ARRAY(n)`: a buffer of `n` zeroed rows, or NULL when either
     * allocation fails; a header allocated before the row array failed is freed.
     */
    method MakeDataArray(n: int, headerOk: bool, rowsOk: bool) returns (b: SweepBuffer?)
      requires 0 <= n
      modifies this
      ensures b == null <==> !(headerOk && rowsOk)
      ensures b == null ==> live == old(live)
      ensures b != null ==>
        fresh(b) && b.data != null && fresh(b.data) && b.nrows == n && b.Valid() &&
        b.data[..] == seq(n, _ => ZeroRecord()) &&
        live == old(live) + {b, b.data}
    {
      if !headerOk {
        return null;
      }
      var header := new SweepBuffer();
      live := live + {header};
      if !rowsOk {
        live := live - {header};
        return null;
      }
      var rows := new Record[n](_ => ZeroRecord());
      live := live + {rows};
      header.data := rows;
      header.nrows := n;
      b := header;
    }

    /**
     * `FREE_DATA_ARRAY(&p)`: frees the rows and the header and returns the NULL the
     * caller's pointer is set to; on a NULL pointer nothing happens.
     */
    method FreeDataArray(p: SweepBuffer?) returns (q: SweepBuffer?)
      requires p != null ==> p in live && (p.data != null ==> p.data in live)
      modifies this
      ensures q == null
      ensures p == null ==> live == old(live)
      ensures p != null && p.data != null ==> live == old(live) - {p, p.data}
      ensures p != null && p.data == null ==> live == old(live) - {p}
    {
      if p != null {
        if p.data != null {
          live := live - {p.data};
        }
        live := live - {p};
      }
      q := null;
    }
  }

  /** A second `FREE_DATA_ARRAY` on the NULL the first one left frees nothing more. */
  method FreeTwice(a: Allocator, p: SweepBuffer)
    requires p in a.live && p.data != null && p.data in a.live
    modifies a
    ensures a.live == old(a.live) - {p, p.data}
  {
    var q := a.FreeDataArray(p);
    var r := a.FreeDataArray(q);
  }
}
