/**
  The spreadsheet entities the splitter reads and writes: a cell with its
  style attributes, a data-validation rule, and the source sheet.
  Values, style objects and column widths are opaque type parameters.
 */
module Sheets {

  datatype Option<+T> = None | Some(value: T)

  /**
    One cell as the splitter sees it: its value, the five style attributes
    the splitter copies, and the protection, which it does not copy.
    `A` is the type of an opaque style object (a font, a fill, a border,
    an alignment or a protection); the number format is its format text.
   */
  datatype Cell<V(!new), A(!new)> = Cell(
    value: V,
    font: A,
    fill: A,
    border: A,
    alignment: A,
    numberFormat: string,
    protection: A)

  /**
    The cell that results from writing `from` onto the existing cell `onto`
    the way the splitter does: the value, font, fill, border, alignment and
    number format come from `from`; everything the splitter does not assign
    (the protection) stays as it was on `onto`.
   */
  function Transfer<V(!new), A(!new)>(from: Cell<V, A>, onto: Cell<V, A>): (c: Cell<V, A>)
    ensures c.value == from.value && c.numberFormat == from.numberFormat
    ensures c.font == from.font && c.fill == from.fill && c.border == from.border && c.alignment == from.alignment
    ensures c.protection == onto.protection
  {
    from.(protection := onto.protection)
  }

  /** The copy carries every style attribute except the protection, so it is
      an exact copy precisely when the two protections already agree. */
  lemma TransferExactIff<V(!new), A(!new)>(from: Cell<V, A>, onto: Cell<V, A>)
    ensures Transfer(from, onto).value == from.value
    ensures Transfer(from, onto).font == from.font && Transfer(from, onto).fill == from.fill
    ensures Transfer(from, onto).border == from.border && Transfer(from, onto).alignment == from.alignment
    ensures Transfer(from, onto).numberFormat == from.numberFormat
    ensures Transfer(from, onto) == from <==> from.protection == onto.protection
  {
  }

  /** Every cell of `rows` written onto a cell equal to `blank`. */
  function CopiedRows<V(!new), A(!new)>(rows: seq<seq<Cell<V, A>>>, blank: Cell<V, A>): seq<seq<Cell<V, A>>>
  {
    seq(|rows|, i requires 0 <= i < |rows| =>
      seq(|rows[i]|, j requires 0 <= j < |rows[i]| => Transfer(rows[i][j], blank)))
  }

  /** When no source cell carries a protection other than the blank cell's,
      copying reproduces the rows exactly. */
  lemma CopiedRowsExact<V(!new), A(!new)>(rows: seq<seq<Cell<V, A>>>, blank: Cell<V, A>)
    requires forall i, j :: 0 <= i < |rows| && 0 <= j < |rows[i]| ==> rows[i][j].protection == blank.protection
    ensures CopiedRows(rows, blank) == rows
  {
    var out := CopiedRows(rows, blank);
    forall i | 0 <= i < |rows|
      ensures out[i] == rows[i]
    {
      assert |out[i]| == |rows[i]|;
    }
  }

  /**
    A data-validation rule: its type, operator and formulas, the flags and
    messages of its user interface, and the coordinate ranges (as range
    text such as "B2:B1001") it applies to.
   */
  datatype Rule = Rule(
    kind: Option<string>,
    operator: Option<string>,
    formula1: Option<string>,
    formula2: Option<string>,
    allowBlank: bool,
    showDropDown: bool,
    showErrorMessage: bool,
    showInputMessage: bool,
    errorStyle: Option<string>,
    imeMode: Option<string>,
    error: Option<string>,
    errorTitle: Option<string>,
    prompt: Option<string>,
    promptTitle: Option<string>,
    ranges: seq<string>)

  /**
    The rule the splitter builds from `dv`: a new rule given dv's type,
    formulas, drop-down, blank and operator settings, error flag and the
    four message texts, all other constructor arguments left at their
    defaults (no input message, no error style, no IME mode), and then
    every range of dv added, in order, with its text unchanged.
   */
  function RuleCopy(dv: Rule): (copy: Rule)
    ensures SameConstraint(copy, dv)
    ensures !copy.showInputMessage && copy.errorStyle == None && copy.imeMode == None
  {
    Rule(dv.kind, dv.operator, dv.formula1, dv.formula2,
         dv.allowBlank, dv.showDropDown, dv.showErrorMessage,
         false, None, None,
         dv.error, dv.errorTitle, dv.prompt, dv.promptTitle,
         dv.ranges)
  }

  /** Two rules impose the same constraint on the same ranges, with the same messages. */
  predicate SameConstraint(a: Rule, b: Rule)
  {
    && a.kind == b.kind && a.operator == b.operator
    && a.formula1 == b.formula1 && a.formula2 == b.formula2
    && a.allowBlank == b.allowBlank && a.showDropDown == b.showDropDown
    && a.showErrorMessage == b.showErrorMessage
    && a.error == b.error && a.errorTitle == b.errorTitle
    && a.prompt == b.prompt && a.promptTitle == b.promptTitle
    && a.ranges == b.ranges
  }

  /** A copied rule keeps the constraint, its messages and its range text
      verbatim; it equals the original exactly when the original had no
      input message, error style or IME mode set. */
  lemma RuleCopyKeepsConstraint(dv: Rule)
    ensures SameConstraint(RuleCopy(dv), dv)
    ensures RuleCopy(dv) == dv <==> !dv.showInputMessage && dv.errorStyle == None && dv.imeMode == None
  {
  }

  /** The copies of a list of rules, one per rule, in the same order. */
  function RuleCopies(rules: seq<Rule>): (copies: seq<Rule>)
    ensures |copies| == |rules|
    ensures forall i :: 0 <= i < |rules| ==> SameConstraint(copies[i], rules[i]) && !copies[i].showInputMessage
  {
    seq(|rules|, i requires 0 <= i < |rules| => RuleCopy(rules[i]))
  }

  /**
    The active sheet of the loaded workbook, read-only for the splitter:
    its cells row by row (row 1 is the header), the number of columns,
    the width recorded for each column letter, and its validation rules.
   */
  datatype Sheet<V(!new), A(!new), W(!new)> = Sheet(
    grid: seq<seq<Cell<V, A>>>,
    maxCol: int,
    widths: map<string, W>,
    validations: seq<Rule>)
  {
    /** At least one row and one column, and every row spans all columns. */
    predicate Valid()
    {
      |grid| >= 1 && maxCol >= 1 && forall r :: 0 <= r < |grid| ==> |grid[r]| == maxCol
    }

    /** The last row in use: the header counts as a row. */
    function TotalRows(): nat
    {
      |grid|
    }

    /** The cell at a 1-based row and column. */
    function At(row: int, col: int): Cell<V, A>
      requires Valid() && 1 <= row <= |grid| && 1 <= col <= maxCol
    {
      grid[row - 1][col - 1]
    }
  }
}
