# Excel splitter: batch-splitting engine

A model of the engine of the Excel splitter. The engine takes the active sheet of an uploaded
workbook and a number of rows per batch. It writes one new workbook per batch. Each batch
workbook gets the header row, the column widths, a slice of the data rows moved up to start
at row 2, and a copy of every data-validation rule. The files are named `Batch_1.xlsx`,
`Batch_2.xlsx`, … and packed into one archive in that order.

The project has four modules:

- `Sheets` (`sheets.dfy`) is the data model. It has a cell (`Cell`: value, font, fill,
  border, alignment, number format, protection), a validation rule (`Rule`) and the source
  sheet (`Sheet`: the cells row by row, the column count, the widths keyed by the column
  letter the spreadsheet library files each width under, and the rules). It also has two specification functions. `Transfer` is what writing one cell onto
  another does. `RuleCopy` is the rule the splitter rebuilds.
- `Batching` (`batching.dfy`) holds the arithmetic: the batch count, each batch's first and
  last source row, and `BatchGrid`, the cells each batch must hold. Its lemmas prove
  partition, coverage, order and relocation.
- `Naming` (`naming.dfy`) holds sheet titles and file names, POSIX joining of a relative name onto a directory and
  base names, and the archive entry names.
- `Splitter` (`splitter.dfy`) is the imperative part. It has a `Worksheet` class (title, a
  fresh `array2` of cells, a width map, a list of rules) and the methods that fill it in
  place with the source's own loops. `Split` is the per-batch loop. `ArchiveEntries` is the
  packing loop.

Values, style objects and widths are opaque type parameters. The source sheet is a value:
the engine only reads it, so it cannot change during the run. Rows and columns are numbered
from 1, as in the spreadsheet. Row 1 is the header.

Three behaviours of the code are easy to get wrong, and the model follows the code in each:

- The count is not a ceiling. The code computes `(total_rows - 1) // rows_per_batch + 1`.
  When the data-row count is a multiple of the batch size (zero included), this is one more
  than the ceiling, and the last batch holds only the header. `BatchCountVersusCeiling` and
  `LastBatchEmptyIff` state the difference exactly.
- Ranges are not re-expressed per batch. Each validation range's text is added unchanged
  to every batch, even though the batch's rows have moved.
- No sheet is made visible. The loader takes the active sheet as it is; nothing unhides a
  hidden sheet.

## Model

| member | source | states |
|---|---|---|
| Batching.BatchCount | app.py:26 | there is always at least one batch; the count `c` is the unique number with `(c-1)*rowsPerBatch <= total_rows-1 < c*rowsPerBatch` |
| Batching.HeaderOnlySheet | app.py:26 | a sheet with only a header row yields exactly one batch, with no data rows |
| Batching.BatchCountVersusCeiling | app.py:26 | the count is the ceiling of data rows over the batch size, plus one when the data rows divide evenly (or there are none) |
| Batching.CeilDiv | app.py:26 | reference definition of the ceiling used above: the least `c` with `c*n >= a` |
| Batching.BatchStart | app.py:54 | batch `b` starts at row `b*rowsPerBatch+2`, at least `b+2`, since every earlier batch takes at least one row |
| Batching.BatchOfStart | app.py:54 | the start row of batch `b` has batch number `(row-2) / rowsPerBatch` equal to `b` with remainder 0, so it is the first row of that batch |
| Batching.BatchEnd | app.py:55 | a batch ends at `min(start+rowsPerBatch-1, total_rows)`: never past the last row, never more than rowsPerBatch rows after the start, and either full or cut off at the last row |
| Batching.BatchSize | app.py:57 | the number of rows `range(start, end + 1)` visits: never more than rowsPerBatch, and zero exactly when end < start |
| Batching.BatchRange | app.py:54-55 | batch `b`'s rows start at `b*rowsPerBatch+2` and end at `min(start+rowsPerBatch-1, total_rows)`; the range lies within rows 2..total_rows, is empty or forward, and never has more than rowsPerBatch rows |
| Batching.BatchesAreConsecutive | app.py:54-57 | each batch but the last is full, and the next batch starts right after it ends, so ranges are disjoint and increasing |
| Batching.BatchesSpanDataRows | app.py:54-55 | the first batch starts at row 2 and the last batch ends at total_rows |
| Batching.RowInExactlyOneBatch | app.py:54-57 | a data row lies in batch `b`'s range if and only if `b == (row-2) / rowsPerBatch`, a valid batch number, so every data row lands in exactly one batch |
| Batching.LastBatchEmptyIff | app.py:54-57 | the last batch holds no data rows (only the header) if and only if the data-row count is a multiple of rowsPerBatch |
| Batching.DataRowsBeforeReachEnd | app.py:54-57 | batches 0..k-1 together copy exactly the rows from 2 to the end of batch k-1 |
| Batching.BatchSizesSumToDataRows | app.py:54-57 | the batch sizes add up to total_rows - 1 |
| Batching.BatchGrid | app.py:40-65 | each batch has one header row plus its data rows, each row spanning max_col columns |
| Batching.BatchHeaderIsSourceHeader | app.py:40-47 | row 1 of every batch is the source header, column by column, copied onto a blank cell |
| Batching.BatchRowRelocated | app.py:57-65 | source cell (r, c) with start <= r <= end is at destination (r-start+2, c), with the same value and copied style |
| Batching.BatchDataRows | app.py:54-65 | batch b's data rows are exactly the copied source rows start..end, which lie within 2..total_rows |
| Naming.OutputPathBasename | app.py:87-99 | batch file n, saved as `join(temp_dir, Batch_<n>.xlsx)`, has base name `Batch_<n>.xlsx` |
| Batching.BatchesConcatenate | app.py:54-65 | the data rows of batches 0..k-1, concatenated in order, are the copied source rows 2..end of batch k-1 |
| Batching.BatchesReproduceData | app.py:34-65 | concatenating every batch's data rows in batch order reproduces the source's data rows, in order, columns in order |
| Sheets.Transfer | app.py:42-47 | a cell written by the splitter takes value, font, fill, border, alignment and number format from the source cell and keeps the destination's own protection |
| Sheets.TransferExactIff | app.py:42-47 | a copied cell has the source's value, font, fill, border, alignment and number format; it equals the source cell if and only if the protection, which is not copied, already agrees |
| Sheets.CopiedRowsExact | app.py:57-65 | if no source cell has a protection other than a fresh cell's, the copied rows equal the source rows exactly |
| Sheets.RuleCopy | app.py:69-83 | the rebuilt rule has the source rule's type, operator, formulas, flags, messages and range text, and no input message, error style or IME mode |
| Sheets.RuleCopies | app.py:68-84 | one copy per source rule, in source order, each imposing the same constraint with the same messages and range text and with no input message |
| Sheets.RuleCopyKeepsConstraint | app.py:69-83 | a copied rule has the same type, operator, formulas, flags, messages and range text verbatim; it equals the original if and only if the original had no input message, error style or IME mode |
| Naming.Decimal | app.py:37 | the batch number's text is a non-empty digit string with no leading zero |
| Naming.DecimalRoundTrip | app.py:37 | reading the digit string back gives the batch number |
| Naming.DecimalInjective | app.py:37 | different batch numbers get different digit strings |
| Naming.BatchTitle | app.py:37 | the title of batch `k` starts with `Batch_` and has the number's digits after it |
| Naming.BatchTitleNamesBatch | app.py:37 | the digits after `Batch_` read back as `k`, so two batches with the same title have the same number |
| Naming.FileName | app.py:87 | the file name of batch `k` is its sheet title followed by the five characters `.xlsx` |
| Naming.FileNameInjective | app.py:87 | `Batch_<n>.xlsx` contains no path separator, and different `n` give different names |
| Naming.Join | app.py:87 | POSIX join of a name that does not start with '/': the path starts with the directory and ends with the name, with at most one character between them, and that character is '/' |
| Naming.OutputPaths | app.py:87-89 | the recorded output paths: one per batch, `count` in all, path i being `join(temp_dir, Batch_<i+1>.xlsx)` |
| Naming.OutputPathsExtend | app.py:87-89 | recording one more batch appends that batch's path after all earlier ones |
| Naming.Basename | app.py:99 | the archive name of a path is a suffix of it with no '/' |
| Naming.BasenameIsLongest | app.py:99 | that suffix is the whole path or starts right after a '/' |
| Naming.BasenameAfterSeparator | app.py:99 | a name with no '/' that follows a '/' (or starts the path) is the base name |
| Naming.BasenameOfJoin | app.py:87-99 | a file saved as `join(temp_dir, name)` goes into the archive as `name` |
| Naming.ArchiveNames | app.py:97-99 | the archive entry names, one per batch, `count` in all: `Batch_1.xlsx` .. `Batch_<count>.xlsx` |
| Naming.ArchiveNamesOfOutputPaths | app.py:87-99 | the base name of the n-th output path is `Batch_<n>.xlsx` |
| Naming.ArchiveNamesDistinct | app.py:97-99 | no two archive entries share a name |
| Splitter.Worksheet.constructor | app.py:35-36 | a new workbook's sheet is titled "Sheet", holds only blank cells, and has no widths and no rules |
| Splitter.Worksheet.IsBatchOf | app.py:35-84 | what a finished batch sheet is: title `Batch_<b+1>`, exactly the cells of BatchGrid, the source's widths and the rule copies; such a sheet has between 1 and rowsPerBatch+1 rows and max_col columns |
| Splitter.CopyHeaderRow | app.py:40-47 | row 1 gets each source header cell's value and style, written onto the existing cell; other rows are untouched |
| Splitter.CopyColumnWidths | app.py:50-51 | the sheet's width map becomes its old map overridden by every source column width |
| Splitter.CopyDataRows | app.py:57-65 | destination row `r-start+2` gets source row r for start <= r <= end, every column; row 1 is untouched |
| Splitter.CopyRule | app.py:69-83 | the rebuilt rule is RuleCopy of the source rule, its ranges added one by one in order |
| Splitter.CopyValidations | app.py:68-84 | one copy of each source rule is attached, in source order, after any already there |
| Splitter.BuildBatch | app.py:35-84 | a fresh sheet titled `Batch_<b+1>` holding exactly BatchGrid, the source widths and the rule copies |
| Splitter.Split | app.py:34-89 | BatchCount sheets, sheet b being batch b; the paths are `join(temp_dir, Batch_<b+1>.xlsx)` in order; sheets and their cell grids are fresh and pairwise distinct, so no batch aliases the source or another batch |
| Splitter.ArchiveEntries | app.py:97-99 | one archive entry per output path, in order, named by the path's base name |
| Splitter.SplitToArchive | app.py:24-99 | the archive has exactly BatchCount entries, named `Batch_1.xlsx` .. `Batch_N.xlsx` in batch order and pairwise distinct, entry i being the file of batch i |
| Splitter.BatchSheetFollowsSource | app.py:40-65 | read off a batch sheet: row 1 is the source header, and source cell (r, c) of the batch's range sits at (r-start+2, c) |
| Splitter.BatchContentsDetermined | app.py:34-84 | two sheets that are both batch b of the same source agree in title, size, every cell, widths and rules |

## Left out

- Streamlit user interface (page setup, uploader, number input, button, progress bar, download button, success message): presentation only. The progress fraction is a float.
- Writing the upload to disk and the temporary directory's lifetime: I/O. The directory appears only as the `tempDir` text the output paths are joined to.
- Loading the workbook, creating a `Workbook`, and saving a batch file: library calls. The sheet's row and column counts are inputs, with at least one of each. A batch file is modelled as the sheet it is saved from, paired with its path by index.
- How the library derives `max_row`/`max_column`. Also left out: that reading a cell can create it in the source's cell store.
- Archive bytes and compression: library code. The archive is modelled as the ordered list of entry names.
- Errors while loading, saving or zipping: no error path is modelled, because the code handles none (any exception ends the run).
- Font, fill, border, alignment and protection contents, and width values: opaque.
- Cell attributes the code never assigns: the named style (`cell.style`, the style record index `xfId`), `quotePrefix`, `pivotButton`, the hyperlink and the comment. None of them is copied, so a batch cell keeps the fresh cell's defaults for each. The model carries only the protection as such an attribute, which is enough to show that the copy is not exact.
- A `None` source value: the code does not write it, which leaves the fresh cell's `None`. The model writes the value itself, which gives the same cell.
- Column attributes other than width (hidden, outline level): the code copies only widths.
- Width spans. The library loads a `<col min max>` element as one column entry, keyed by the letter of its first column. The code writes only `.width` onto a new entry under that letter, which has no span. So in a batch only the first column of such a span gets the width; the others get the default. The model copies the width map key by key and does not model spans.
- Adding a range whose text duplicates or lies inside a range the new rule already has: the library skips it. The model adds every range. Distinct ranges in the source rule are added in full; a range contained in an earlier one of the same rule (`A1:A10 A5`) is kept by the model but dropped by the library.
- The batch sheet's size: it is exactly the cells written (header plus data rows, all columns). The library's sheets are unbounded.
- The 10..10000 bounds on rows per batch: set by the input widget. The model only needs at least 1.
- Python integers are unbounded, so no wrap-around is modelled.
- Join: only names that do not start with '/' are modelled. For an absolute name, Python's `os.path.join` discards the directory; the splitter only ever joins `Batch_<n>.xlsx`, which is relative.
- Paths are POSIX paths. On Windows `os.path` joins and splits on `\` as well; the archive entry names come out the same there, but the model does not cover that path syntax.
