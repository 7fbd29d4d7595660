/** The part of the spreadsheet library (tealeg/xlsx) that the sheet builder
    drives: a workbook holding sheets, a sheet holding rows of styled cells,
    merge directives and column widths. Only the in-memory model is kept;
    writing the container file is reduced to recording that a save was
    attempted and what the library answered. */
module SheetModel {
  import opened Wrappers

  /** The two style profiles: "standard" (wrap text, vertically centred) for
      header and data cells, "title" (also horizontally centred and bold) for
      the title row. */
  datatype Style = Standard | Title

  datatype Cell = Cell(value: string, style: Style)

  /** A styled cell with no value: a merge placeholder or a filler. */
  function Blank(style: Style): Cell {
    Cell("", style)
  }

  /** cell.Merge(hcells, vcells) on the cell at (row, col): the cell spans
      `hcells` more columns to the right and `vcells` more rows below. */
  datatype Merge = Merge(row: nat, col: nat, hcells: int, vcells: int)

  /** The rows with `cells` appended to the last one: row.AddCell always
      writes to the row most recently added by sheet.AddRow. */
  function AppendToLast(rows: seq<seq<Cell>>, cells: seq<Cell>): (r: seq<seq<Cell>>)
    requires rows != []
    ensures |r| == |rows| && r[..|rows| - 1] == rows[..|rows| - 1]
    ensures r[|rows| - 1] == rows[|rows| - 1] + cells
  {
    rows[..|rows| - 1] + [rows[|rows| - 1] + cells]
  }

  /** Appending in two steps is appending the concatenation. */
  lemma AppendToLastTwice(rows: seq<seq<Cell>>, a: seq<Cell>, b: seq<Cell>)
    requires rows != []
    ensures AppendToLast(AppendToLast(rows, a), b) == AppendToLast(rows, a + b)
  {
    var n := |rows|;
    assert rows[n - 1] + a + b == rows[n - 1] + (a + b);
  }

  /** Appending to a last row that is known. */
  lemma AppendToLastOf(rows: seq<seq<Cell>>, last: seq<Cell>, cells: seq<Cell>)
    ensures AppendToLast(rows + [last], cells) == rows + [last + cells]
  {
    var r := rows + [last];
    assert r[..|r| - 1] == rows;
  }

  class Sheet {
    const name: string
    var rows: seq<seq<Cell>>
    var merges: seq<Merge>
    var colWidths: map<nat, real>

    constructor (name: string)
      ensures this.name == name
      ensures rows == [] && merges == [] && colWidths == map[]
    {
      this.name := name;
      rows, merges, colWidths := [], [], map[];
    }

    /** sheet.AddRow: a new empty row at the bottom. */
    method AddRow()
      modifies this
      ensures rows == old(rows) + [[]]
      ensures merges == old(merges) && colWidths == old(colWidths)
    {
      rows := rows + [[]];
    }

    /** row.AddCell followed by setting the cell's value and style. */
    method AddCell(cell: Cell)
      requires rows != []
      modifies this
      ensures rows == AppendToLast(old(rows), [cell])
      ensures merges == old(merges) && colWidths == old(colWidths)
    {
      rows := AppendToLast(rows, [cell]);
    }

    /** cell.Merge on an existing cell. */
    method MergeAt(row: nat, col: nat, hcells: int, vcells: int)
      requires row < |rows| && col < |rows[row]|
      modifies this
      ensures merges == old(merges) + [Merge(row, col, hcells, vcells)]
      ensures rows == old(rows) && colWidths == old(colWidths)
    {
      merges := merges + [Merge(row, col, hcells, vcells)];
    }

    /** sheet.SetColWidth(col, col, width). Whether the library accepts the
        call is given as `refusal` (None when it accepts); a refused call
        changes nothing. */
    method SetColWidth(col: nat, width: real, refusal: Option<string>) returns (err: Option<string>)
      modifies this
      ensures err == refusal
      ensures colWidths == if refusal.None? then old(colWidths)[col := width] else old(colWidths)
      ensures rows == old(rows) && merges == old(merges)
    {
      err := refusal;
      if refusal.None? {
        colWidths := colWidths[col := width];
      }
    }
  }

  class Workbook {
    var sheets: seq<Sheet>
    /** The paths workbook.Save was called with, in order. */
    var saveAttempts: seq<string>

    /** xlsx.NewFile. */
    constructor ()
      ensures sheets == [] && saveAttempts == []
    {
      sheets, saveAttempts := [], [];
    }

    /** workbook.AddSheet(name). Whether the library refuses the name is
        given as `refusal`. */
    method AddSheet(name: string, refusal: Option<string>) returns (sheet: Sheet?, err: Option<string>)
      modifies this
      ensures err == refusal
      ensures refusal.Some? ==> sheet == null && sheets == old(sheets)
      ensures refusal.None? ==> sheet != null && fresh(sheet) && sheets == old(sheets) + [sheet]
      ensures refusal.None? ==> sheet.name == name && sheet.rows == [] && sheet.merges == [] && sheet.colWidths == map[]
      ensures saveAttempts == old(saveAttempts)
    {
      err := refusal;
      if refusal.Some? {
        sheet := null;
      } else {
        sheet := new Sheet(name);
        sheets := sheets + [sheet];
      }
    }

    /** workbook.Save(path): the attempt is recorded; the library's answer is
        given as `outcome`. */
    method Save(path: string, outcome: Option<string>) returns (err: Option<string>)
      modifies this
      ensures saveAttempts == old(saveAttempts) + [path] && err == outcome
      ensures sheets == old(sheets)
    {
      saveAttempts := saveAttempts + [path];
      err := outcome;
    }
  }
}
