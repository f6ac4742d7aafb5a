/**
 * The double-buffer handoff of the acquisition program and of `calibCode_v2`
 * (their code is the same): the producer's `row_index` / `current_buffer`
 * bookkeeping after each `GET_DATA`, the `buffer_to_write` marker, and the
 * writer thread's take step. Mutex and condition variable are not modelled:
 * each producer iteration and each take is one atomic step.
 */
module Handoff {
  import opened Records

  /** `row_index`, `current_buffer` (1 = bufferA, 2 = bufferB) and `buffer_to_write` (0 = none). */
  datatype Book = Book(row: int, current: int, marker: int)

  /** The state before the first iteration of the producer loop. */
  const Start: Book := Book(0, 1, 0)

  function Other(c: int): int { if c == 1 then 2 else 1 }

  /**
   * In range, one of the two buffers active, and the marker naming nothing or the
   * buffer that is not being filled.
   */
  ghost predicate Inv(b: Book, nrows: int)
  {
    0 <= b.row < nrows && (b.current == 1 || b.current == 2) && (b.marker == 0 || b.marker == Other(b.current))
  }

  /**
   * The bookkeeping after `GET_DATA`, whatever it returned: `row_index++`; a full
   * buffer is marked for writing, the other becomes active, and the row index
   * restarts at 0.
   */
  function Advance(b: Book, nrows: int): (r: Book)
    ensures Inv(b, nrows) ==> Inv(r, nrows)
    ensures b.row + 1 >= nrows ==> r == Book(0, Other(b.current), b.current)
    ensures b.row + 1 < nrows ==> r == b.(row := b.row + 1)
  {
    var row := b.row + 1;
    if row >= nrows then Book(0, Other(b.current), b.current) else b.(row := row)
  }

  /** The producer's state after k iterations, with no take in between. */
  function After(k: nat, nrows: int): Book
  {
    if k == 0 then Start else Advance(After(k - 1, nrows), nrows)
  }

  lemma MulSign(d: int, n: int)
    requires n >= 1
    ensures d >= 1 ==> d * n >= n
    ensures d <= -1 ==> d * n <= -n
  {
    assert d * n - n == (d - 1) * n;
    assert d * n + n == (d + 1) * n;
  }

  lemma DivModUnique(a: int, n: int, q: int, r: int)
    requires n >= 1 && 0 <= r < n && a == q * n + r
    ensures a / n == q && a % n == r
  {
    var q', r' := a / n, a % n;
    assert a == q' * n + r';
    assert q * n - q' * n == (q - q') * n;
    MulSign(q - q', n);
  }

  /** How one more iteration moves `k / n` and `k % n`. */
  lemma StepDivMod(k: nat, n: int)
    requires n >= 1
    ensures k % n + 1 < n ==> (k + 1) % n == k % n + 1 && (k + 1) / n == k / n
    ensures k % n + 1 >= n ==> (k + 1) % n == 0 && (k + 1) / n == k / n + 1
  {
    assert k == (k / n) * n + k % n;
    if k % n + 1 < n {
      DivModUnique(k + 1, n, k / n, k % n + 1);
    } else {
      assert k + 1 == (k / n + 1) * n;
      DivModUnique(k + 1, n, k / n + 1, 0);
    }
  }

  /**
   * After k iterations the row index is k mod nrows, the buffers alternate every
   * nrows iterations, and the marker names the last buffer filled (none before
   * the first is full), which is never the active one.
   */
  lemma {:induction false} AfterClosedForm(k: nat, nrows: int)
    requires nrows >= 1
    ensures After(k, nrows) == Book(k % nrows, 1 + (k / nrows) % 2, if k / nrows == 0 then 0 else 2 - (k / nrows) % 2)
    ensures Inv(After(k, nrows), nrows)
  {
    if k > 0 {
      var j := k - 1;
      AfterClosedForm(j, nrows);
      StepDivMod(j, nrows);
      var q, r := j / nrows, j % nrows;
      var b := After(j, nrows);
      assert b == Book(r, 1 + q % 2, if q == 0 then 0 else 2 - q % 2);
      if r + 1 < nrows {
        assert k / nrows == q && k % nrows == r + 1;
        assert After(k, nrows) == b.(row := r + 1);
      } else {
        assert k / nrows == q + 1 && k % nrows == 0;
        assert After(k, nrows) == Book(0, Other(b.current), b.current);
        ParityStep(q);
      }
    }
  }

  lemma ParityStep(m: int)
    requires m >= 0
    ensures Other(1 + m % 2) == 1 + (m + 1) % 2
    ensures 1 + m % 2 == 2 - (m + 1) % 2
  {
  }

  /** The markers the producer writes during its first k iterations, in order. */
  function Marks(k: nat, nrows: int): seq<int>
  {
    if k == 0 then []
    else
      var b := After(k - 1, nrows);
      Marks(k - 1, nrows) + (if b.row + 1 >= nrows then [b.current] else [])
  }

  /** Full buffers are handed over in strict round-robin order: A, B, A, B, ... */
  lemma {:induction false} MarksAlternate(k: nat, nrows: int)
    requires nrows >= 1
    ensures Marks(k, nrows) == seq(k / nrows, m => 1 + m % 2)
  {
    if k > 0 {
      MarksAlternate(k - 1, nrows);
      AfterClosedForm(k - 1, nrows);
      StepDivMod(k - 1, nrows);
    }
  }

  /**
   * A marker still pending when the next buffer fills is overwritten: the sweep it
   * named is never written.
   */
  lemma PendingOverwritten(b: Book, nrows: int)
    requires Inv(b, nrows) && b.marker != 0 && b.row + 1 == nrows
    ensures Advance(b, nrows).marker != b.marker
    ensures Advance(b, nrows).current == b.marker
  {
  }

  /** What the writer does after re-acquiring the mutex. */
  datatype Decision = Wait | Stop | TakeMarked(marker: int)

  /**
   * `while (buffer_to_write == 0 && !exit_flag) wait;` then break on `exit_flag`
   * even when a buffer is pending, otherwise take the marked buffer.
   */
  function Decide(marker: int, exitFlag: bool): (d: Decision)
    ensures exitFlag ==> d == Stop
    ensures !exitFlag && marker == 0 ==> d == Wait
    ensures !exitFlag && marker != 0 ==> d == TakeMarked(marker)
  {
    if marker == 0 && !exitFlag then Wait else if exitFlag then Stop else TakeMarked(marker)
  }

  /** Whatever the writer takes is the buffer the producer is not filling. */
  lemma TakeIsNotActive(b: Book, nrows: int, exitFlag: bool)
    requires Inv(b, nrows) && Decide(b.marker, exitFlag).TakeMarked?
    ensures Decide(b.marker, exitFlag).marker == Other(b.current) != b.current
  {
  }

  /** The writer's view of one step: keep waiting, leave the loop, or save a buffer (NULL for a stray marker). */
  datatype WriterAction = Waiting | Stopped | Save(buf: SweepBuffer?)

  /** The globals shared by producer and writer, with main's loop variables. */
  class Pipeline {
    var bufferA: SweepBuffer?
    var bufferB: SweepBuffer?
    var bufferToWrite: int
    var exitFlag: bool
    var currentBuffer: int
    var rowIndex: int
    const nrows: int

    function BookOf(): Book
      reads this
    {
      Book(rowIndex, currentBuffer, bufferToWrite)
    }

    ghost predicate Valid()
      reads this
    {
      nrows >= 1 && Inv(BookOf(), nrows)
    }

    /** The state just before the producer loop. */
    constructor (n: int, a: SweepBuffer?, b: SweepBuffer?)
      requires n >= 1
      ensures Valid() && BookOf() == Start && nrows == n
      ensures bufferA == a && bufferB == b && !exitFlag
    {
      nrows := n;
      bufferA, bufferB := a, b;
      bufferToWrite, exitFlag := 0, false;
      currentBuffer, rowIndex := 1, 0;
    }

    /** `(current_buffer == 1) ? bufferA : bufferB`. */
    function Active(): SweepBuffer?
      reads this
    {
      if currentBuffer == 1 then bufferA else bufferB
    }

    /** The lines of the producer loop after `GET_DATA`. */
    method AdvanceRow()
      requires Valid()
      modifies this
      ensures Valid() && BookOf() == Advance(old(BookOf()), nrows)
      ensures bufferA == old(bufferA) && bufferB == old(bufferB) && exitFlag == old(exitFlag)
    {
      rowIndex := rowIndex + 1;
      if rowIndex >= nrows {
        bufferToWrite := currentBuffer;
        currentBuffer := if currentBuffer == 1 then 2 else 1;
        rowIndex := 0;
      }
    }

    /** An asynchronous signal, or main after its loop: `exit_flag = 1`. */
    method SignalExit()
      modifies this
      ensures exitFlag
      ensures BookOf() == old(BookOf()) && bufferA == old(bufferA) && bufferB == old(bufferB)
    {
      exitFlag := true;
    }

    /**
     * One pass of the writer's critical section: map marker 1 to bufferA and 2 to
     * bufferB and clear the marker before saving; on `exit_flag` leave the loop
     * and leave a pending marker behind.
     */
    method WriterTake() returns (act: WriterAction)
      requires Valid()
      modifies this
      ensures Valid()
      ensures bufferA == old(bufferA) && bufferB == old(bufferB) && exitFlag == old(exitFlag)
      ensures rowIndex == old(rowIndex) && currentBuffer == old(currentBuffer)
      ensures Decide(old(bufferToWrite), exitFlag) == Wait ==> act == Waiting && bufferToWrite == old(bufferToWrite)
      ensures Decide(old(bufferToWrite), exitFlag) == Stop ==> act == Stopped && bufferToWrite == old(bufferToWrite)
      ensures Decide(old(bufferToWrite), exitFlag).TakeMarked? ==>
        bufferToWrite == 0 &&
        act == Save(if old(bufferToWrite) == 1 then bufferA else if old(bufferToWrite) == 2 then bufferB else null)
      ensures act.Save? ==> old(bufferToWrite) != currentBuffer
    {
      if bufferToWrite == 0 && !exitFlag {
        return Waiting;
      }
      if exitFlag {
        return Stopped;
      }
      var buf: SweepBuffer? := null;
      if bufferToWrite == 1 {
        buf := bufferA;
      } else if bufferToWrite == 2 {
        buf := bufferB;
      }
      bufferToWrite := 0;
      act := Save(buf);
    }
  }
}
