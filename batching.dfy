/**
  The arithmetic of the splitter: how many batches a sheet yields, which
  source rows each batch takes, and the contents each batch must end up
  with. Rows are numbered from 1 as in the spreadsheet; row 1 is the header.
 */
module Batching {
  import opened Sheets

  /** Multiplying by a non-negative factor keeps the order. */
  lemma MulMono(x: int, y: int, n: int)
    requires x <= y && n >= 0
    ensures x * n <= y * n
  {
    assert y * n - x * n == (y - x) * n;
  }

  /** `q` is the quotient of `a` by `n` exactly when `q * n <= a < q * n + n`. */
  lemma QuotientUnique(a: int, n: int, q: int)
    requires a >= 0 && n >= 1
    ensures q * n <= a < q * n + n <==> q == a / n
  {
    var d := a / n;
    assert d * n <= a < d * n + n;
    if q < d {
      MulMono(q + 1, d, n);
    } else if q > d {
      MulMono(d + 1, q, n);
    }
  }

  /**
    The number of batches: one more than the number of whole batches the
    data rows fill, i.e. the largest `count` with `(count - 1) * rowsPerBatch`
    data rows or fewer. This is not a ceiling: see BatchCountVersusCeiling.
   */
  function BatchCount(totalRows: int, rowsPerBatch: int): (count: nat)
    requires totalRows >= 1 && rowsPerBatch >= 1
    ensures count >= 1
    ensures (count - 1) * rowsPerBatch <= totalRows - 1 < count * rowsPerBatch
  {
    var q := (totalRows - 1) / rowsPerBatch;
    assert q * rowsPerBatch <= totalRows - 1 < q * rowsPerBatch + rowsPerBatch;
    assert (q + 1) * rowsPerBatch == q * rowsPerBatch + rowsPerBatch;
    q + 1
  }

  /** First source row of batch `b` (0-based batch index). */
  function BatchStart(b: nat, rowsPerBatch: int): (start: int)
    requires rowsPerBatch >= 1
    ensures start >= b + 2
  {
    MulMono(1, rowsPerBatch, b);
    b * rowsPerBatch + 2
  }

  /** The batch a start row belongs to, `(row - 2) / rowsPerBatch`, is the batch it starts. */
  lemma BatchOfStart(b: nat, rowsPerBatch: int)
    requires rowsPerBatch >= 1
    ensures (BatchStart(b, rowsPerBatch) - 2) / rowsPerBatch == b
    ensures (BatchStart(b, rowsPerBatch) - 2) % rowsPerBatch == 0
  {
    QuotientUnique(b * rowsPerBatch, rowsPerBatch, b);
  }

  /** Last source row of batch `b`: a full batch, cut off at the last row. */
  function BatchEnd(b: nat, rowsPerBatch: int, totalRows: int): (end: int)
    requires rowsPerBatch >= 1
    ensures end <= totalRows && end - BatchStart(b, rowsPerBatch) + 1 <= rowsPerBatch
    ensures end == totalRows || end - BatchStart(b, rowsPerBatch) + 1 == rowsPerBatch
  {
    var start := BatchStart(b, rowsPerBatch);
    if start + rowsPerBatch - 1 <= totalRows then start + rowsPerBatch - 1 else totalRows
  }

  /** The number of data rows batch `b` copies: the length of the range of rows from its start to its end. */
  function BatchSize(b: nat, rowsPerBatch: int, totalRows: int): (size: nat)
    requires rowsPerBatch >= 1
    ensures size <= rowsPerBatch
    ensures size == 0 <==> BatchEnd(b, rowsPerBatch, totalRows) < BatchStart(b, rowsPerBatch)
  {
    var start, end := BatchStart(b, rowsPerBatch), BatchEnd(b, rowsPerBatch, totalRows);
    if end < start then 0 else end - start + 1
  }

  /** Every batch's row range lies within the data rows, is never reversed
      by more than one (an empty range), and holds at most rowsPerBatch rows. */
  lemma BatchRange(totalRows: int, rowsPerBatch: int, b: nat)
    requires totalRows >= 1 && rowsPerBatch >= 1 && b < BatchCount(totalRows, rowsPerBatch)
    ensures 2 <= BatchStart(b, rowsPerBatch) <= BatchEnd(b, rowsPerBatch, totalRows) + 1
    ensures BatchEnd(b, rowsPerBatch, totalRows) <= totalRows
    ensures BatchSize(b, rowsPerBatch, totalRows) == BatchEnd(b, rowsPerBatch, totalRows) - BatchStart(b, rowsPerBatch) + 1
    ensures BatchSize(b, rowsPerBatch, totalRows) <= rowsPerBatch
  {
    var q := BatchCount(totalRows, rowsPerBatch) - 1;
    MulMono(b, q, rowsPerBatch);
  }

  /** Each batch but the last is full and ends just before the next one starts. */
  lemma BatchesAreConsecutive(totalRows: int, rowsPerBatch: int, b: nat)
    requires totalRows >= 1 && rowsPerBatch >= 1 && b + 1 < BatchCount(totalRows, rowsPerBatch)
    ensures BatchEnd(b, rowsPerBatch, totalRows) + 1 == BatchStart(b + 1, rowsPerBatch)
    ensures BatchSize(b, rowsPerBatch, totalRows) == rowsPerBatch
  {
    var q := BatchCount(totalRows, rowsPerBatch) - 1;
    MulMono(b + 1, q, rowsPerBatch);
    assert (b + 1) * rowsPerBatch == b * rowsPerBatch + rowsPerBatch;
  }

  /** The first batch starts right after the header and the last one ends at the last row. */
  lemma BatchesSpanDataRows(totalRows: int, rowsPerBatch: int)
    requires totalRows >= 1 && rowsPerBatch >= 1
    ensures BatchStart(0, rowsPerBatch) == 2
    ensures BatchEnd(BatchCount(totalRows, rowsPerBatch) - 1, rowsPerBatch, totalRows) == totalRows
  {
    var q := BatchCount(totalRows, rowsPerBatch) - 1;
    assert (q + 1) * rowsPerBatch == q * rowsPerBatch + rowsPerBatch;
  }

  /** A data row lies in batch `b`'s range exactly when `b` is its batch
      number `(row - 2) / rowsPerBatch`, which is a valid batch: every data
      row is copied by exactly one batch. */
  lemma RowInExactlyOneBatch(totalRows: int, rowsPerBatch: int, row: int, b: nat)
    requires totalRows >= 1 && rowsPerBatch >= 1 && 2 <= row <= totalRows
    requires b < BatchCount(totalRows, rowsPerBatch)
    ensures (row - 2) / rowsPerBatch < BatchCount(totalRows, rowsPerBatch)
    ensures BatchStart(b, rowsPerBatch) <= row <= BatchEnd(b, rowsPerBatch, totalRows)
        <==> b == (row - 2) / rowsPerBatch
  {
    var q := BatchCount(totalRows, rowsPerBatch) - 1;
    var p := (row - 2) / rowsPerBatch;
    assert p * rowsPerBatch <= row - 2;
    if p > q {
      MulMono(q + 1, p, rowsPerBatch);
    }
    QuotientUnique(row - 2, rowsPerBatch, b);
  }

  /** The last batch holds no data rows exactly when the data-row count is a
      multiple of rowsPerBatch (zero included): it then holds only the header. */
  lemma LastBatchEmptyIff(totalRows: int, rowsPerBatch: int)
    requires totalRows >= 1 && rowsPerBatch >= 1
    ensures BatchSize(BatchCount(totalRows, rowsPerBatch) - 1, rowsPerBatch, totalRows) == 0
        <==> (totalRows - 1) % rowsPerBatch == 0
  {
    var q := BatchCount(totalRows, rowsPerBatch) - 1;
    assert totalRows - 1 == q * rowsPerBatch + (totalRows - 1) % rowsPerBatch;
    BatchesSpanDataRows(totalRows, rowsPerBatch);
  }

  /** A sheet holding only its header yields exactly one batch, with no data rows. */
  lemma HeaderOnlySheet(rowsPerBatch: int)
    requires rowsPerBatch >= 1
    ensures BatchCount(1, rowsPerBatch) == 1
    ensures BatchSize(0, rowsPerBatch, 1) == 0
  {
  }

  /** Rounded-up division: the least `c` with `c * n >= a`. */
  function CeilDiv(a: nat, n: int): (c: nat)
    requires n >= 1
    ensures c * n >= a
    ensures c == 0 || (c - 1) * n < a
  {
    var q := a / n;
    assert q * n <= a < q * n + n;
    assert (q + 1) * n == q * n + n;
    if a % n == 0 then q else q + 1
  }

  /** The batch count equals the rounded-up data-row count over rowsPerBatch,
      except when the data rows divide evenly (or there are none), where it
      is one more. */
  lemma BatchCountVersusCeiling(totalRows: int, rowsPerBatch: int)
    requires totalRows >= 1 && rowsPerBatch >= 1
    ensures BatchCount(totalRows, rowsPerBatch)
        == CeilDiv(totalRows - 1, rowsPerBatch) + (if (totalRows - 1) % rowsPerBatch == 0 then 1 else 0)
  {
    var a, n := totalRows - 1, rowsPerBatch;
    var q := a / n;
    var c := CeilDiv(a, n);
    assert a == q * n + a % n;
    if a % n == 0 {
      QuotientUnique(a, n, c);
    } else {
      assert (q + 1) * n == q * n + n;
      if c <= q {
        MulMono(c, q, n);
      } else if c > q + 1 {
        MulMono(q + 1, c - 1, n);
      }
    }
  }

  /** The number of data rows in batches 0 .. k-1 together. */
  function DataRowsBefore(totalRows: int, rowsPerBatch: int, k: nat): nat
    requires totalRows >= 1 && rowsPerBatch >= 1 && k <= BatchCount(totalRows, rowsPerBatch)
  {
    if k == 0 then 0
    else DataRowsBefore(totalRows, rowsPerBatch, k - 1) + BatchSize(k - 1, rowsPerBatch, totalRows)
  }

  /** Batches 0 .. k-1 together hold the data rows up to where batch k-1 ends. */
  lemma {:induction false} DataRowsBeforeReachEnd(totalRows: int, rowsPerBatch: int, k: nat)
    requires totalRows >= 1 && rowsPerBatch >= 1 && 1 <= k <= BatchCount(totalRows, rowsPerBatch)
    ensures DataRowsBefore(totalRows, rowsPerBatch, k) == BatchEnd(k - 1, rowsPerBatch, totalRows) - 1
  {
    BatchRange(totalRows, rowsPerBatch, k - 1);
    if k > 1 {
      DataRowsBeforeReachEnd(totalRows, rowsPerBatch, k - 1);
      BatchesAreConsecutive(totalRows, rowsPerBatch, k - 2);
    }
  }

  /** The batch sizes add up to the number of data rows. */
  lemma BatchSizesSumToDataRows(totalRows: int, rowsPerBatch: int)
    requires totalRows >= 1 && rowsPerBatch >= 1
    ensures DataRowsBefore(totalRows, rowsPerBatch, BatchCount(totalRows, rowsPerBatch)) == totalRows - 1
  {
    DataRowsBeforeReachEnd(totalRows, rowsPerBatch, BatchCount(totalRows, rowsPerBatch));
    BatchesSpanDataRows(totalRows, rowsPerBatch);
  }

  /**
    The rows batch `b` must end up with: the header row, then the source
    rows from BatchStart to BatchEnd, each written onto a blank cell of a
    fresh sheet.
   */
  function BatchGrid<V(!new), A(!new), W(!new)>(src: Sheet<V, A, W>, rowsPerBatch: int, b: nat, blank: Cell<V, A>)
    : (rows: seq<seq<Cell<V, A>>>)
    requires src.Valid() && rowsPerBatch >= 1 && b < BatchCount(src.TotalRows(), rowsPerBatch)
    ensures |rows| == BatchSize(b, rowsPerBatch, src.TotalRows()) + 1
    ensures forall i :: 0 <= i < |rows| ==> |rows[i]| == src.maxCol
  {
    BatchRange(src.TotalRows(), rowsPerBatch, b);
    var copied := CopiedRows(src.grid, blank);
    [copied[0]] + copied[BatchStart(b, rowsPerBatch) - 1 .. BatchEnd(b, rowsPerBatch, src.TotalRows())]
  }

  /** Row 1 of every batch is the source header, column for column. */
  lemma BatchHeaderIsSourceHeader<V(!new), A(!new), W(!new)>(src: Sheet<V, A, W>, rowsPerBatch: int, b: nat, blank: Cell<V, A>, col: int)
    requires src.Valid() && rowsPerBatch >= 1 && b < BatchCount(src.TotalRows(), rowsPerBatch)
    requires 1 <= col <= src.maxCol
    ensures BatchGrid(src, rowsPerBatch, b, blank)[0][col - 1] == Transfer(src.At(1, col), blank)
  {
  }

  /** Source cell (row, col) of batch `b`'s range lands at destination row
      `row - start + 2`, same column, with the same value and style. */
  lemma BatchRowRelocated<V(!new), A(!new), W(!new)>(src: Sheet<V, A, W>, rowsPerBatch: int, b: nat, blank: Cell<V, A>, row: int, col: int)
    requires src.Valid() && rowsPerBatch >= 1 && b < BatchCount(src.TotalRows(), rowsPerBatch)
    requires BatchStart(b, rowsPerBatch) <= row <= BatchEnd(b, rowsPerBatch, src.TotalRows())
    requires 1 <= col <= src.maxCol
    ensures var dest := row - BatchStart(b, rowsPerBatch) + 2;
      && 2 <= dest <= |BatchGrid(src, rowsPerBatch, b, blank)|
      && BatchGrid(src, rowsPerBatch, b, blank)[dest - 1][col - 1] == Transfer(src.At(row, col), blank)
  {
    BatchRange(src.TotalRows(), rowsPerBatch, b);
  }

  /** The data rows (all but the header) of batches 0 .. k-1, in batch order. */
  function DataRowsOf<V(!new), A(!new), W(!new)>(src: Sheet<V, A, W>, rowsPerBatch: int, blank: Cell<V, A>, k: nat)
    : seq<seq<Cell<V, A>>>
    requires src.Valid() && rowsPerBatch >= 1 && k <= BatchCount(src.TotalRows(), rowsPerBatch)
  {
    if k == 0 then []
    else DataRowsOf(src, rowsPerBatch, blank, k - 1) + BatchGrid(src, rowsPerBatch, k - 1, blank)[1..]
  }

  /** The data rows of batch `b` are the copied source rows BatchStart .. BatchEnd. */
  lemma BatchDataRows<V(!new), A(!new), W(!new)>(src: Sheet<V, A, W>, rowsPerBatch: int, b: nat, blank: Cell<V, A>)
    requires src.Valid() && rowsPerBatch >= 1 && b < BatchCount(src.TotalRows(), rowsPerBatch)
    ensures 2 <= BatchStart(b, rowsPerBatch) <= BatchEnd(b, rowsPerBatch, src.TotalRows()) + 1
    ensures BatchEnd(b, rowsPerBatch, src.TotalRows()) <= src.TotalRows()
    ensures BatchGrid(src, rowsPerBatch, b, blank)[1..]
         == CopiedRows(src.grid, blank)[BatchStart(b, rowsPerBatch) - 1 .. BatchEnd(b, rowsPerBatch, src.TotalRows())]
  {
    BatchRange(src.TotalRows(), rowsPerBatch, b);
  }

  /** Two adjacent slices of a sequence make up the slice they span. */
  lemma SliceSplice<T>(s: seq<T>, a: int, m: int, e: int)
    requires 0 <= a <= m <= e <= |s|
    ensures s[a .. m] + s[m .. e] == s[a .. e]
  {
  }

  /** Batches 0 .. k-1 together hold the source rows 2 .. BatchEnd(k-1), in order. */
  lemma {:induction false} BatchesConcatenate<V(!new), A(!new), W(!new)>(src: Sheet<V, A, W>, rowsPerBatch: int, blank: Cell<V, A>, k: nat)
    requires src.Valid() && rowsPerBatch >= 1 && 1 <= k <= BatchCount(src.TotalRows(), rowsPerBatch)
    ensures BatchEnd(k - 1, rowsPerBatch, src.TotalRows()) <= src.TotalRows()
    ensures DataRowsOf(src, rowsPerBatch, blank, k)
         == CopiedRows(src.grid, blank)[1 .. BatchEnd(k - 1, rowsPerBatch, src.TotalRows())]
  {
    var total := src.TotalRows();
    BatchDataRows(src, rowsPerBatch, k - 1, blank);
    if k > 1 {
      BatchesConcatenate(src, rowsPerBatch, blank, k - 1);
      BatchesAreConsecutive(total, rowsPerBatch, k - 2);
      SliceSplice(CopiedRows(src.grid, blank), 1, BatchEnd(k - 2, rowsPerBatch, total), BatchEnd(k - 1, rowsPerBatch, total));
    }
  }

  /** Concatenating the data rows of all batches in order reproduces the
      source's data rows, with the same values and copied styles. */
  lemma BatchesReproduceData<V(!new), A(!new), W(!new)>(src: Sheet<V, A, W>, rowsPerBatch: int, blank: Cell<V, A>)
    requires src.Valid() && rowsPerBatch >= 1
    ensures DataRowsOf(src, rowsPerBatch, blank, BatchCount(src.TotalRows(), rowsPerBatch))
         == CopiedRows(src.grid, blank)[1..]
  {
    BatchesConcatenate(src, rowsPerBatch, blank, BatchCount(src.TotalRows(), rowsPerBatch));
    BatchesSpanDataRows(src.TotalRows(), rowsPerBatch);
  }
}
