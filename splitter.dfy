/**
  The batch-splitting loop: for every batch a new worksheet is created and
  filled in place (header row, column widths, data rows, validation
  rules), its file path is recorded, and at the end the files are packed
  into an archive under their base names.
 */
module Splitter {
  import opened Sheets
  import opened Batching
  import opened Naming

  /** The active worksheet of a newly created workbook, as the splitter fills it. */
  class Worksheet<V(!new), A(!new), W(!new)> {
    var title: string
    const cells: array2<Cell<V, A>>
    var widths: map<string, W>
    var validations: seq<Rule>

    /** A fresh sheet titled "Sheet": every cell is `blank`, no column
        widths are set and no validation rules are attached. */
    constructor (rows: nat, cols: nat, blank: Cell<V, A>)
      ensures title == "Sheet" && widths == map[] && validations == []
      ensures fresh(cells) && cells.Length0 == rows && cells.Length1 == cols
      ensures forall i, j :: 0 <= i < rows && 0 <= j < cols ==> cells[i, j] == blank
    {
      title := "Sheet";
      cells := new Cell<V, A>[rows, cols]((i, j) => blank);
      widths := map[];
      validations := [];
    }

    /** This sheet is batch `b` of `src`: the right title, the header and the
        batch's rows in place, the source's widths and copies of its rules. */
    ghost predicate IsBatchOf(src: Sheet<V, A, W>, rowsPerBatch: int, b: nat, blank: Cell<V, A>)
      reads this, cells
      requires src.Valid() && rowsPerBatch >= 1 && b < BatchCount(src.TotalRows(), rowsPerBatch)
      ensures IsBatchOf(src, rowsPerBatch, b, blank) ==>
        1 <= cells.Length0 <= rowsPerBatch + 1 && cells.Length1 == src.maxCol
    {
      BatchRange(src.TotalRows(), rowsPerBatch, b);
      var rows := BatchGrid(src, rowsPerBatch, b, blank);
      && title == BatchTitle(b + 1)
      && cells.Length0 == |rows|
      && cells.Length1 == src.maxCol
      && (forall i, j :: 0 <= i < cells.Length0 && 0 <= j < cells.Length1 ==> cells[i, j] == rows[i][j])
      && widths == src.widths
      && validations == RuleCopies(src.validations)
    }
  }

  /** Writes the header row of `src` onto row 1 of `ws`, column by column. */
  method CopyHeaderRow<V(!new), A(!new), W(!new)>(src: Sheet<V, A, W>, ws: Worksheet<V, A, W>)
    requires src.Valid() && ws.cells.Length0 >= 1 && ws.cells.Length1 == src.maxCol
    modifies ws.cells
    ensures forall j :: 0 <= j < src.maxCol ==> ws.cells[0, j] == Transfer(src.At(1, j + 1), old(ws.cells[0, j]))
    ensures forall i, j :: 1 <= i < ws.cells.Length0 && 0 <= j < ws.cells.Length1 ==> ws.cells[i, j] == old(ws.cells[i, j])
  {
    for col := 1 to src.maxCol + 1
      invariant forall j :: 0 <= j < col - 1 ==> ws.cells[0, j] == Transfer(src.At(1, j + 1), old(ws.cells[0, j]))
      invariant forall j :: col - 1 <= j < src.maxCol ==> ws.cells[0, j] == old(ws.cells[0, j])
      invariant forall i, j :: 1 <= i < ws.cells.Length0 && 0 <= j < ws.cells.Length1 ==> ws.cells[i, j] == old(ws.cells[i, j])
    {
      ws.cells[0, col - 1] := Transfer(src.At(1, col), ws.cells[0, col - 1]);
    }
  }

  /** Sets the width of every column the source records a width for. */
  method CopyColumnWidths<V(!new), A(!new), W(!new)>(colWidths: map<string, W>, ws: Worksheet<V, A, W>)
    modifies ws`widths
    ensures ws.widths == old(ws.widths) + colWidths
  {
    var pending := colWidths.Keys;
    while pending != {}
      invariant pending <= colWidths.Keys
      invariant ws.widths == old(ws.widths) + map k | k in colWidths.Keys - pending :: colWidths[k]
      decreases pending
    {
      var k :| k in pending;
      ws.widths := ws.widths[k := colWidths[k]];
      pending := pending - {k};
    }
    assert (map k | k in colWidths.Keys - {} :: colWidths[k]) == colWidths;
  }

  /** Writes source rows `start .. end` onto rows 2, 3, ... of `ws`, column by column. */
  method CopyDataRows<V(!new), A(!new), W(!new)>(src: Sheet<V, A, W>, ws: Worksheet<V, A, W>, start: int, end: int)
    requires src.Valid() && 2 <= start <= end + 1 && end <= src.TotalRows()
    requires ws.cells.Length0 == end - start + 2 && ws.cells.Length1 == src.maxCol
    modifies ws.cells
    ensures forall j :: 0 <= j < ws.cells.Length1 ==> ws.cells[0, j] == old(ws.cells[0, j])
    ensures forall i, j :: 1 <= i < ws.cells.Length0 && 0 <= j < ws.cells.Length1 ==>
      ws.cells[i, j] == Transfer(src.At(i + start - 1, j + 1), old(ws.cells[i, j]))
  {
    var cells := ws.cells;
    for row := start to end + 1
      invariant forall i, j :: 1 <= i < row - start + 1 && 0 <= j < cells.Length1 ==>
        cells[i, j] == Transfer(src.At(i + start - 1, j + 1), old(cells[i, j]))
      invariant forall i, j :: (i == 0 || row - start + 1 <= i < cells.Length0) && 0 <= j < cells.Length1 ==>
        cells[i, j] == old(cells[i, j])
    {
      var dest := row - start + 1;
      for col := 1 to src.maxCol + 1
        invariant forall i, j :: 1 <= i < dest && 0 <= j < cells.Length1 ==>
          cells[i, j] == Transfer(src.At(i + start - 1, j + 1), old(cells[i, j]))
        invariant forall j :: 0 <= j < col - 1 ==> cells[dest, j] == Transfer(src.At(row, j + 1), old(cells[dest, j]))
        invariant forall j :: col - 1 <= j < cells.Length1 ==> cells[dest, j] == old(cells[dest, j])
        invariant forall i, j :: (i == 0 || dest < i < cells.Length0) && 0 <= j < cells.Length1 ==>
          cells[i, j] == old(cells[i, j])
      {
        cells[dest, col - 1] := Transfer(src.At(row, col), cells[dest, col - 1]);
      }
    }
  }

  /** Builds the copy of one validation rule: a new rule with dv's settings,
      then each of dv's ranges added in turn. */
  method CopyRule(dv: Rule) returns (copy: Rule)
    ensures copy == RuleCopy(dv)
  {
    copy := RuleCopy(dv).(ranges := []);
    for k := 0 to |dv.ranges|
      invariant copy == RuleCopy(dv).(ranges := dv.ranges[..k])
    {
      copy := copy.(ranges := copy.ranges + [dv.ranges[k]]);
    }
    assert dv.ranges[..|dv.ranges|] == dv.ranges;
  }

  /** Attaches a copy of every source rule to `ws`, in source order. */
  method CopyValidations<V(!new), A(!new), W(!new)>(rules: seq<Rule>, ws: Worksheet<V, A, W>)
    modifies ws`validations
    ensures ws.validations == old(ws.validations) + RuleCopies(rules)
  {
    for i := 0 to |rules|
      invariant ws.validations == old(ws.validations) + RuleCopies(rules[..i])
    {
      var copy := CopyRule(rules[i]);
      assert RuleCopies(rules[..i + 1]) == RuleCopies(rules[..i]) + [copy];
      ws.validations := ws.validations + [copy];
    }
    assert rules[..|rules|] == rules;
  }

  /** Creates and fills the worksheet of batch `batchNum` (counted from 0). */
  method BuildBatch<V(!new), A(!new), W(!new)>(src: Sheet<V, A, W>, rowsPerBatch: int, batchNum: nat, blank: Cell<V, A>)
    returns (ws: Worksheet<V, A, W>)
    requires src.Valid() && rowsPerBatch >= 1 && batchNum < BatchCount(src.TotalRows(), rowsPerBatch)
    ensures fresh(ws) && fresh(ws.cells)
    ensures ws.IsBatchOf(src, rowsPerBatch, batchNum, blank)
  {
    var start := BatchStart(batchNum, rowsPerBatch);
    var end := BatchEnd(batchNum, rowsPerBatch, src.TotalRows());
    BatchRange(src.TotalRows(), rowsPerBatch, batchNum);

    ws := new Worksheet(end - start + 2, src.maxCol, blank);
    ws.title := BatchTitle(batchNum + 1);
    CopyHeaderRow(src, ws);
    CopyColumnWidths(src.widths, ws);
    CopyDataRows(src, ws, start, end);
    CopyValidations(src.validations, ws);

    ghost var rows := BatchGrid(src, rowsPerBatch, batchNum, blank);
    ghost var copied := CopiedRows(src.grid, blank);
    forall i, j | 0 <= i < ws.cells.Length0 && 0 <= j < ws.cells.Length1
      ensures ws.cells[i, j] == rows[i][j]
    {
      if i == 0 {
        assert rows[0] == copied[0];
      } else {
        assert rows[i] == copied[i + start - 2];
      }
    }
  }

  /**
    The splitting loop: one worksheet per batch, in batch order, each saved
    under `tempDir` as Batch_<n>.xlsx. Returns the sheets and the paths
    recorded for them, index for index.
   */
  method Split<V(!new), A(!new), W(!new)>(src: Sheet<V, A, W>, rowsPerBatch: int, blank: Cell<V, A>, tempDir: string)
    returns (batches: seq<Worksheet<V, A, W>>, outputPaths: seq<string>)
    requires src.Valid() && rowsPerBatch >= 1
    ensures |batches| == BatchCount(src.TotalRows(), rowsPerBatch)
    ensures outputPaths == OutputPaths(tempDir, |batches|)
    ensures forall b :: 0 <= b < |batches| ==> fresh(batches[b]) && fresh(batches[b].cells)
    ensures forall b :: 0 <= b < |batches| ==> batches[b].IsBatchOf(src, rowsPerBatch, b, blank)
    ensures forall b, c :: 0 <= b < c < |batches| ==> batches[b] != batches[c] && batches[b].cells != batches[c].cells
  {
    var totalBatches := BatchCount(src.TotalRows(), rowsPerBatch);
    batches, outputPaths := [], [];
    for batchNum := 0 to totalBatches
      invariant |batches| == batchNum
      invariant outputPaths == OutputPaths(tempDir, batchNum)
      invariant forall b :: 0 <= b < batchNum ==> fresh(batches[b]) && fresh(batches[b].cells)
      invariant forall b :: 0 <= b < batchNum ==> batches[b].IsBatchOf(src, rowsPerBatch, b, blank)
      invariant forall b, c :: 0 <= b < c < batchNum ==> batches[b] != batches[c] && batches[b].cells != batches[c].cells
    {
      var ws := BuildBatch(src, rowsPerBatch, batchNum, blank);
      var outputFile := Join(tempDir, FileName(batchNum + 1));
      OutputPathsExtend(tempDir, batchNum);
      batches := batches + [ws];
      outputPaths := outputPaths + [outputFile];
    }
  }

  /** The archive entry names: each output file is stored under its base name, in order. */
  method ArchiveEntries(paths: seq<string>) returns (entries: seq<string>)
    ensures |entries| == |paths|
    ensures forall i :: 0 <= i < |paths| ==> entries[i] == Basename(paths[i])
  {
    entries := [];
    for i := 0 to |paths|
      invariant |entries| == i
      invariant forall k :: 0 <= k < i ==> entries[k] == Basename(paths[k])
    {
      var arcname := Basename(paths[i]);
      entries := entries + [arcname];
    }
  }

  /**
    The whole run: split the sheet, then pack the batch files. The archive
    holds one entry per batch, named Batch_1.xlsx .. Batch_<N>.xlsx in
    batch order, no two alike, entry i being the file of batch i.
   */
  method SplitToArchive<V(!new), A(!new), W(!new)>(src: Sheet<V, A, W>, rowsPerBatch: int, blank: Cell<V, A>, tempDir: string)
    returns (batches: seq<Worksheet<V, A, W>>, entries: seq<string>)
    requires src.Valid() && rowsPerBatch >= 1
    ensures |batches| == BatchCount(src.TotalRows(), rowsPerBatch)
    ensures entries == ArchiveNames(|batches|)
    ensures forall i, j :: 0 <= i < j < |entries| ==> entries[i] != entries[j]
    ensures forall b :: 0 <= b < |batches| ==> fresh(batches[b]) && fresh(batches[b].cells)
    ensures forall b :: 0 <= b < |batches| ==> batches[b].IsBatchOf(src, rowsPerBatch, b, blank)
  {
    var outputPaths;
    batches, outputPaths := Split(src, rowsPerBatch, blank, tempDir);
    entries := ArchiveEntries(outputPaths);
    ArchiveNamesOfOutputPaths(tempDir, |batches|);
    ArchiveNamesDistinct(|batches|);
  }

  /** What a batch sheet holds, read off the sheet: row 1 is the source
      header, and source cell (row, col) of the batch's range sits at row
      `row - start + 2`, same column, with the same value and style. */
  lemma BatchSheetFollowsSource<V(!new), A(!new), W(!new)>(ws: Worksheet<V, A, W>, src: Sheet<V, A, W>, rowsPerBatch: int,
                                         b: nat, blank: Cell<V, A>, row: int, col: int)
    requires src.Valid() && rowsPerBatch >= 1 && b < BatchCount(src.TotalRows(), rowsPerBatch)
    requires ws.IsBatchOf(src, rowsPerBatch, b, blank)
    requires 1 <= col <= src.maxCol
    requires BatchStart(b, rowsPerBatch) <= row <= BatchEnd(b, rowsPerBatch, src.TotalRows())
    ensures ws.cells[0, col - 1] == Transfer(src.At(1, col), blank)
    ensures var dest := row - BatchStart(b, rowsPerBatch) + 2;
      dest <= ws.cells.Length0 && ws.cells[dest - 1, col - 1] == Transfer(src.At(row, col), blank)
  {
    BatchHeaderIsSourceHeader(src, rowsPerBatch, b, blank, col);
    BatchRowRelocated(src, rowsPerBatch, b, blank, row, col);
  }

  /** Splitting is deterministic: two sheets that are both batch `b` of the
      same source agree in title, dimensions, every cell, widths and rules. */
  lemma BatchContentsDetermined<V(!new), A(!new), W(!new)>(ws1: Worksheet<V, A, W>, ws2: Worksheet<V, A, W>, src: Sheet<V, A, W>,
                                         rowsPerBatch: int, b: nat, blank: Cell<V, A>)
    requires src.Valid() && rowsPerBatch >= 1 && b < BatchCount(src.TotalRows(), rowsPerBatch)
    requires ws1.IsBatchOf(src, rowsPerBatch, b, blank) && ws2.IsBatchOf(src, rowsPerBatch, b, blank)
    ensures ws1.title == ws2.title && ws1.widths == ws2.widths && ws1.validations == ws2.validations
    ensures ws1.cells.Length0 == ws2.cells.Length0 && ws1.cells.Length1 == ws2.cells.Length1
    ensures forall i, j :: 0 <= i < ws1.cells.Length0 && 0 <= j < ws1.cells.Length1 ==> ws1.cells[i, j] == ws2.cells[i, j]
  {
  }
}
