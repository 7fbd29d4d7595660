# Records to a styled spreadsheet: a Dafny model

main.go turns a list of records (Name, Description, Tags, Note) into a
one-sheet spreadsheet. The export runs in this order:

1. Add a sheet named "Sheet1".
2. Write a title row with two merged title groups.
3. Write a header row with the four column labels.
4. Write one data row per record.
5. Size each column from the widest text written into it.
6. Save the workbook.

Values starting with `-` get a `'` literal-text marker. The Tags column holds
nothing, the single tag, or the tag serializer's rendering of the list,
trimmed of white space. The width accumulator is an array with one entry per
column that only grows. The persisted width of column c is
`min(50, max(10, 1.2 × accumulator[c]))`. The first phase that fails aborts
the export with that phase's error.

The project has six modules:

- `Wrappers` holds `Option` and `Result`.
- `Text` holds the sanitizer and the three standard-library string
  operations the builder uses. These are `strings.ReplaceAll` with an
  apostrophe, `strings.Split` on line breaks (with `Join` as its inverse) and
  `strings.TrimSpace`.
- `Width` holds the display-width estimator (`calculateDisplayWidth`) and the
  width clamp.
- `SheetModel` holds the in-memory part of the spreadsheet library: a
  `Workbook` class, and a `Sheet` class with rows of styled cells, merge
  directives and column widths.
- `Layout` holds specification functions: what each phase writes, as a
  function of the inputs, and the lemmas that say what it means.
- `Builder` holds the builder itself, as imperative code. The accumulator is
  an `array<real>` updated in place. Each loop carries invariants tying the
  sheet and the array to the `Layout` functions.

The collaborators the source calls are parameters, bundled in
`Layout.Library`:

- `lineWidth` stands for runewidth.StringWidth.
- `marshal` stands for yaml.Marshal.
- `setColWidth`, `addSheet` and `save` stand for the library's answers to
  SetColWidth, AddSheet and Save.

Before measuring a value, the code removes every apostrophe in it
(main.go:59), not only the sanitizer's marker. So `Text.MarkerNotMeasured`
proves two things. First, the measured text of a sanitized value equals that
of the raw value. Second, it equals the raw value itself exactly when the raw
value has no apostrophe.

## Model

| member | source | states |
|---|---|---|
| Text.Sanitize | main.go:26-31 | the result never starts with `-` |
| Text.SanitizeEquations | main.go:26-31 | a value starting with `-` gets `'` in front; any other value is returned unchanged; so the value is kept exactly when it does not start with `-` |
| Text.SanitizeIdempotent | main.go:26-31 | sanitizing twice is sanitizing once |
| Text.StripApostrophes | main.go:59 | the result holds no apostrophe and is no longer than the input |
| Text.StripApostrophesKeeps | main.go:59 | text without apostrophes is kept as it is, and no character that was not in the input appears |
| Text.StripApostrophesAppend | main.go:59 | removing apostrophes distributes over concatenation |
| Text.StripApostrophesIdempotent | main.go:59 | removing apostrophes twice is removing them once |
| Text.MarkerNotMeasured | main.go:59 | a sanitized value's measured text equals the raw value's; it is the raw text itself exactly when the raw text has no apostrophe |
| Text.Split | main.go:35 | splitting always gives at least one piece |
| Text.SplitPiecesHaveNoBreak | main.go:35 | no piece holds a line break |
| Text.JoinSplit | main.go:35 | joining the pieces with line breaks gives the text back |
| Text.SplitJoin | main.go:35 | joining pieces that hold no line break and splitting again gives the pieces back |
| Text.SplitPrefix | main.go:35 | text without a line break in front of more text lengthens only the first piece |
| Text.SplitBreak | main.go:35 | a leading line break gives an empty first piece, followed by the pieces of the rest |
| Text.TrimSpace | main.go:102 | the result is no longer than the input, and neither its first nor its last character is white space |
| Text.TrimSpaceCuts | main.go:102 | the input is white space, then the trimmed text, then white space |
| Text.TrimSpaceExact | main.go:102 | white space, then text with no white space at either end, then white space, trims to exactly that text |
| Text.TrimSpaceIdempotent | main.go:102 | trimming twice is trimming once |
| Width.MaxWidthIsMax | main.go:34-38 | the running maximum bounds every line's width, is 0 for no lines, and equals some line's width otherwise |
| Width.DisplayWidthIsWidestLine | main.go:33-39 | a text's display width bounds the width of every line of the text and equals the width of one of them |
| Width.CalculateDisplayWidth | main.go:33-39 | the loop's running maximum, starting at 0, returns the text's display width |
| Width.EmptyTextWidth | main.go:33-39 | the empty text has width 0 |
| Width.ThreeLineExample | main.go:33-39 | "a\nbb\nccc" has width 3 when every character is single-width |
| Width.SanitizedWidth | main.go:59 | the sanitizer's marker never changes a value's measured width |
| Width.AdjustedWidth | main.go:113 | the clamped width lies in [10, 50]; it equals 1.2 × width when that lies in range, 10 below it and 50 above it |
| Width.AdjustedWidthMonotone | main.go:113 | a wider measurement never gives a narrower column |
| Width.AdjustedWidthExamples | main.go:113 | measurements 0, 100 and 20 give 10, 50 and 24 |
| SheetModel.AppendToLast | main.go:55 | a cell added through a row handle lands at the end of the last row; the other rows are unchanged |
| SheetModel.Sheet.constructor | main.go:123 | a new sheet has its name and no rows, merges or column widths |
| SheetModel.Sheet.AddRow | main.go:63 | sheet.AddRow appends one empty row and changes nothing else |
| SheetModel.Sheet.AddCell | main.go:55-57 | row.AddCell, then setting the value and style, appends that cell to the last row and changes nothing else |
| SheetModel.Sheet.MergeAt | main.go:51 | cell.Merge records one merge directive for that cell and changes nothing else |
| SheetModel.Sheet.SetColWidth | main.go:114 | an accepted call sets that column's width; a refused call changes nothing, and the library's error is returned |
| SheetModel.Workbook.constructor | main.go:122 | a new workbook has no sheets and no save attempts |
| SheetModel.Workbook.AddSheet | main.go:123-127 | an accepted name appends a fresh empty sheet with that name; a refusal returns the error and adds nothing |
| SheetModel.Workbook.Save | main.go:170-173 | a save attempt for the path is recorded, and the library's answer is returned |
| Layout.TitleRow | main.go:62-78 | for four or more columns: one cell per column, with column 0's title in cell 0, column 2's title in cell 2, and styled blanks elsewhere; for fewer columns, whole groups of two |
| Layout.TitleMerges | main.go:62-78 | every merge spans one extra column and no extra row; with three or more columns there is exactly one merge at column 0 and one at column 2 |
| Layout.HeaderValues | main.go:82-84 | the header row has one value per column (Layout.SheetRowsLayout states each is the sanitized header) |
| Layout.TagsText | main.go:94-104 | the Tags text fails exactly when there are two or more tags and the serializer fails |
| Layout.TagsTextCases | main.go:94-104 | no tags give ""; one tag gives that tag; two or more give the serializer's output, trimmed, with no white space at either end; any failure carries the serializer's own error |
| Layout.TagsTextWithoutSerializer | main.go:95-97 | with fewer than two tags the serializer is never consulted |
| Layout.WriteRecords | main.go:88-109 | the data-row phase writes at most one row per record, each row holding 2 to 4 values |
| Layout.WriteRecordsSuccess | main.go:88-109 | the phase succeeds exactly when every record's tags render; it then writes one full sanitized row per record, in input order |
| Layout.WriteRecordsFailure | main.go:94-101 | a failure stops at the first record whose tags do not render: every earlier record has a full row; that record's row holds only its sanitized Name and Description; the phase's error is the serializer's |
| Layout.RecordValues | main.go:90-106 | a record leaves four values when its tags render and two otherwise, starting with its sanitized Name and Description |
| Layout.WriteRecordsStep | main.go:89-107 | after a prefix that succeeded, one more record appends its values, and a serializer failure ends the phase |
| Layout.WriteRecordsStopsAtFailure | main.go:98-101 | once the phase has failed, later records are never looked at |
| Layout.Absorb | main.go:59 | writing a row into the accumulator keeps its length |
| Layout.AbsorbAppend | main.go:59 | writing one more value raises only that value's column, to the larger of the old entry and the value's measured width |
| Layout.AbsorbAll | main.go:83-106 | the accumulator keeps one entry per column through any sequence of rows |
| Layout.AccumulatorIsColumnMax | main.go:59 | each accumulator entry is at least its starting value and every measured width written into its column, and equals one of them; so entries never decrease |
| Layout.InitialWidths | main.go:146-151 | one starting entry per column, the display width of its header |
| Layout.WidthsAppliedSpec | main.go:111-119 | every persisted width is its column's clamped measurement, in [10, 50]; the phase fails exactly when some column is refused; it then stops at the first refused column, with exactly the earlier columns set; otherwise every column is set |
| Layout.WidthsAppliedStopsAtFailure | main.go:114-116 | once a column is refused, later columns are never looked at |
| Layout.FinalWidths | main.go:146-165 | the accumulator handed to the width phase has four entries |
| Layout.FinalWidthsByPhase | main.go:146-165 | the final accumulator is the header widths, with the header row and then every data row written into them |
| Layout.FinalWidthsAreColumnMax | main.go:146-165 | each final entry is at least the header's display width, the sanitized header's measured width and every measured data value in its column, and equals one of them |
| Layout.ExportSavesOnlyAfterEveryPhase | main.go:121-176 | save is attempted exactly when the sheet was added, every record's tags rendered and every column width was accepted; the export succeeds exactly when save then succeeds |
| Layout.ExportShape | main.go:153-168 | once the sheet exists, it always holds the title row, the header row and the data rows written, with the two title merges; widths are persisted only if every data row was written |
| Layout.SheetRowsLayout | main.go:153-163 | the title row, the header row and full data rows: four cells per row, titles over the two groups, sanitized headers, then the data rows' values in order |
| Layout.ExportRows | main.go:153-163 | when every record's tags render, the sheet has 2 + \|records\| rows of four cells: title row, header row, then one sanitized row per record in input order |
| Layout.ExportSuccess | main.go:121-176 | a successful export added its sheet, rendered every record's tags, merged the two title groups and persisted a width in [10, 50] for each of the four columns and no other |
| Layout.ShippedRows | main.go:139-144 | the shipped columns give the title row "Name, Description" / blank / "Tags, Note" / blank and the header row Name, Description, Tags, Note |
| Layout.SampleRowValues | main.go:179-184 | the sample Names and Notes starting with `-` carry the marker, the others are unchanged, and the record without tags has an empty Tags value |
| Layout.SampleExport | main.go:178-185 | the sample export has 6 rows of 4 cells and two merged title groups; "-Name1", "-Note1" and "-Name3" appear with the marker; the tagless record's Tags cell is empty |
| Builder.Blanks | main.go:47-49 | n styled blanks, none when n is not positive |
| Builder.MergeCells | main.go:41-52 | appends the value and then endCol−startCol blanks to the current row, and records one merge of that many extra columns at the value's cell |
| Builder.AddCell | main.go:54-60 | appends one cell to the current row and raises only entry columnIndex of the array, to the larger of its old value and the measured width of the value with apostrophes removed |
| Builder.TitleGroupStep | main.go:66-71 | a title group written at position 0 or 2 extends the title row by its next two cells |
| Builder.TitleFillerStep | main.go:72-74 | a filler at a position past the fourth extends the title row by its next cell |
| Builder.CreateTitleRow | main.go:62-78 | the sheet gains exactly the title row and the title merges in that row |
| Builder.AppendCell | main.go:54-60 | addCell at the next column of a row under construction extends both the row and the absorbed values by one |
| Builder.CreateHeaderRow | main.go:80-86 | the sheet gains the sanitized header row, and the array absorbs it |
| Builder.RenderTags | main.go:94-104 | the Tags text computed by the three branches is the one Layout.TagsText describes |
| Builder.WriteNameAndDescription | main.go:90-92 | a new row with the sanitized Name and Description, both absorbed by the array |
| Builder.WriteRecordRow | main.go:90-106 | one record's row and array update are the record's values, and the serializer's error is returned |
| Builder.DataRowStep | main.go:89-107 | one more record moves the phase result, the sheet's rows and the accumulator on to the rows written so far plus that record's values |
| Builder.WriteDataRow | main.go:89-107 | one loop turn takes the sheet and the array from the state for records[..k] to the state for records[..k+1] |
| Builder.PopulateDataRows | main.go:88-109 | the sheet gains exactly the data rows Layout.WriteRecords describes; the array absorbs them; the serializer's error is returned |
| Builder.AdjustColumnWidths | main.go:111-119 | the sheet's column widths become exactly what Layout.WidthsApplied persists; a refusal returns the first refused column and the library's message |
| Builder.HeaderWidths | main.go:146-151 | a fresh array holding the display widths of the four headers |
| Builder.WriteSheetRows | main.go:146-163 | an empty sheet gains the title, header and data rows and the title merges; the array ends at Layout.FinalWidths when every record rendered |
| Builder.FillSheet | main.go:146-168 | the sheet's rows and merges as above; no widths after a serializer failure, otherwise the widths the width phase persists, with its error |
| Builder.ExportWorkbook | main.go:121-176 | the workbook, its single sheet, the save attempts and the error are exactly those Layout.ExportRecords describes |
| Builder.WriteRecordsToExcel | main.go:121-176 | the same, for the four shipped columns |

## Left out

- Writing the container file. Saving is reduced to recording the attempt and
  taking the library's answer as a parameter. The library's XML and zip
  output is not part of this model.
- runewidth.StringWidth. The width of one line is the parameter `lineWidth`,
  because its Unicode width tables are outside the program. The claim that a
  double-width glyph measures 2 therefore belongs to that parameter.
- yaml.Marshal. The tag serializer is the parameter `marshal`, so the exact
  block-list text it produces is not modelled. Only the three branches around
  it and the trimming are.
- Styles are the two profiles `Standard` and `Title`. Their alignment and font
  settings (main.go:129-137) are library state and not modelled.
- Widths are `real`, not float64, so rounding in `width * 1.2` is not
  modelled.
- Logging (log.Printf), the process exit in main, and the wording of the
  wrapped error messages are not modelled. Each phase's error is a
  constructor of `Layout.Error` carrying the collaborator's message.
- Builder.CreateTitleRow: returns no error, because createTitleRow always
  returns nil. Its error branch at main.go:153-156 cannot be taken.
- Builder.CreateHeaderRow: does not return the row handle, because the caller
  ignores it.
- Row handles, and so the aliasing between mergeCells' cell and row, are not
  modelled. A cell added through a handle goes to the sheet's last row, which
  is always the row the handle refers to.
- Strings are sequences of Unicode code points, not UTF-8 bytes.
  `HasPrefix(value, "-")` and `Split` on "\n" give the same answers on either
  form.
- The standard-library functions are modelled by definition, not from their
  Go source: strings.Split, strings.ReplaceAll, strings.TrimSpace, with
  unicode.IsSpace's table written out in `Text.IsSpace`.
- Builder.WriteNameAndDescription, Builder.WriteRecordRow,
  Builder.WriteDataRow, Builder.AppendCell, Builder.RenderTags,
  Builder.HeaderWidths, Builder.WriteSheetRows and Builder.FillSheet are
  pieces of the source's functions, split out so that each proof stays small.
  Together they run the same statements in the same order.
- Builder.ExportWorkbook takes the column definitions as a parameter. The
  source fixes them inside WriteRecordsToExcel, and
  Builder.WriteRecordsToExcel passes the shipped four.
