/** The sheet builder of main.go as imperative code: each helper appends to
    the sheet and updates the width accumulator in place, and is proved to
    leave exactly what the functions of module Layout describe. */
module Builder {
  import opened Wrappers
  import opened Text
  import opened Width
  import opened SheetModel
  import opened Layout

  /** `n` styled blank cells; none when `n` is not positive. */
  function Blanks(n: int, style: Style): (r: seq<Cell>)
    ensures |r| == if n > 0 then n else 0
    ensures forall i :: 0 <= i < |r| ==> r[i] == Blank(style)
  {
    seq(if n > 0 then n else 0, _ => Blank(style))
  }

  /** mergeCells: the value in a new cell, endCol - startCol styled blanks
      after it, and the first cell merged over those blanks. */
  method MergeCells(sheet: Sheet, startCol: int, endCol: int, value: string, style: Style)
    requires sheet.rows != []
    modifies sheet
    ensures sheet.rows == AppendToLast(old(sheet.rows), [Cell(value, style)] + Blanks(endCol - startCol, style))
    ensures sheet.merges == old(sheet.merges)
      + [Merge(|old(sheet.rows)| - 1, |old(sheet.rows)[|old(sheet.rows)| - 1]|, endCol - startCol, 0)]
    ensures sheet.colWidths == old(sheet.colWidths)
  {
    var row := |sheet.rows| - 1;
    var col := |sheet.rows[row]|;
    sheet.AddCell(Cell(value, style));
    var columnsToMerge := endCol - startCol;
    var i := 0;
    assert [Cell(value, style)] + Blanks(0, style) == [Cell(value, style)];
    while i < columnsToMerge
      invariant 0 <= i <= if columnsToMerge > 0 then columnsToMerge else 0
      invariant sheet.rows == AppendToLast(old(sheet.rows), [Cell(value, style)] + Blanks(i, style))
      invariant sheet.merges == old(sheet.merges) && sheet.colWidths == old(sheet.colWidths)
    {
      AppendToLastTwice(old(sheet.rows), [Cell(value, style)] + Blanks(i, style), [Blank(style)]);
      assert [Cell(value, style)] + Blanks(i, style) + [Blank(style)] == [Cell(value, style)] + Blanks(i + 1, style);
      sheet.AddCell(Blank(style));
      i := i + 1;
    }
    assert Blanks(i, style) == Blanks(columnsToMerge, style);
    sheet.MergeAt(row, col, columnsToMerge, 0);
  }

  /** addCell: the value in a new cell of the current row, and the entry of
      its column raised to the value's measured width (apostrophes removed)
      if that is larger; no other entry changes. */
  method AddCell(sheet: Sheet, value: string, style: Style, widths: array<real>, columnIndex: nat,
                 lineWidth: string -> nat)
    requires sheet.rows != [] && columnIndex < widths.Length
    modifies sheet, widths
    ensures sheet.rows == AppendToLast(old(sheet.rows), [Cell(value, style)])
    ensures sheet.merges == old(sheet.merges) && sheet.colWidths == old(sheet.colWidths)
    ensures widths[..] == old(widths[..])[columnIndex :=
      MaxReal(old(widths[columnIndex]), MeasuredWidth(value, lineWidth) as real)]
  {
    sheet.AddCell(Cell(value, style));
    var w := CalculateDisplayWidth(StripApostrophes(value), lineWidth);
    widths[columnIndex] := MaxReal(widths[columnIndex], w);
  }

  /** A title group written by mergeCells at position `p` (0 or 2) extends
      the title row built so far by its next two cells. */
  lemma TitleGroupStep(rows: seq<seq<Cell>>, columns: seq<ColumnDefinition>, style: Style, p: nat)
    requires (p == 0 || p == 2) && p < |columns|
    ensures p + 2 <= TitleWidth(|columns|)
    ensures AppendToLast(rows + [TitleRow(columns, style)[..p]], [Cell(columns[p].title, style)] + Blanks(1, style))
         == rows + [TitleRow(columns, style)[..p + 2]]
  {
    var t := TitleRow(columns, style);
    assert t[p] == Cell(columns[p].title, style) && t[p + 1] == Blank(style);
    assert [Cell(columns[p].title, style)] + Blanks(1, style) == [t[p], t[p + 1]];
    AppendToLastOf(rows, t[..p], [t[p], t[p + 1]]);
    assert t[..p + 2] == t[..p] + [t[p], t[p + 1]];
  }

  /** A filler cell at position `p` (neither 0 nor 2, nor the cell after
      either) extends the title row built so far by its next cell. */
  lemma TitleFillerStep(rows: seq<seq<Cell>>, columns: seq<ColumnDefinition>, style: Style, p: nat)
    requires 4 <= p < |columns|
    ensures p + 1 <= TitleWidth(|columns|)
    ensures AppendToLast(rows + [TitleRow(columns, style)[..p]], [Blank(style)])
         == rows + [TitleRow(columns, style)[..p + 1]]
  {
    var t := TitleRow(columns, style);
    assert t[p] == Blank(style);
    AppendToLastOf(rows, t[..p], [t[p]]);
    assert t[..p + 1] == t[..p] + [t[p]];
  }

  /** createTitleRow: a new row holding the title row, with column 0's title
      merged over columns 0-1 and column 2's over columns 2-3, then one blank
      per remaining column. The source's error result is always nil, so it
      is not modelled. */
  method CreateTitleRow(sheet: Sheet, style: Style, columns: seq<ColumnDefinition>)
    modifies sheet
    ensures sheet.rows == old(sheet.rows) + [TitleRow(columns, style)]
    ensures sheet.merges == old(sheet.merges) + TitleMerges(|columns|, |old(sheet.rows)|)
    ensures sheet.colWidths == old(sheet.colWidths)
  {
    sheet.AddRow();
    var r := |sheet.rows| - 1;
    ghost var t := TitleRow(columns, style);
    var i := 0;
    while i < |columns|
      invariant i == 0 || i == 2 || 4 <= i
      invariant i <= TitleWidth(|columns|)
      invariant |sheet.rows| == r + 1
      invariant sheet.rows == old(sheet.rows) + [t[..i]]
      invariant sheet.merges == old(sheet.merges) + TitleMerges(i, r)
      invariant sheet.colWidths == old(sheet.colWidths)
      decreases |columns| - i
    {
      if i == 0 {
        TitleGroupStep(old(sheet.rows), columns, style, 0);
        MergeCells(sheet, 0, 1, columns[0].title, style);
        i := i + 1;
      } else if i == 2 {
        TitleGroupStep(old(sheet.rows), columns, style, 2);
        MergeCells(sheet, 2, 3, columns[2].title, style);
        i := i + 1;
      } else {
        TitleFillerStep(old(sheet.rows), columns, style, i);
        sheet.AddCell(Blank(style));
      }
      i := i + 1;
    }
    assert t[..i] == t;
  }

  /** addCell at the next column of a row under construction: a sheet whose
      last row holds `values` and an accumulator that has absorbed them then
      hold `values + [v]`. */
  method AppendCell(sheet: Sheet, v: string, style: Style, widths: array<real>, columnIndex: nat,
                    lineWidth: string -> nat, ghost rows: seq<seq<Cell>>, ghost w: seq<real>, ghost values: seq<string>)
    requires columnIndex == |values| < widths.Length && |w| == widths.Length
    requires sheet.rows == rows + [Cells(values, style)]
    requires widths[..] == Absorb(w, values, lineWidth)
    modifies sheet, widths
    ensures sheet.rows == rows + [Cells(values + [v], style)]
    ensures widths[..] == Absorb(w, values + [v], lineWidth)
    ensures sheet.merges == old(sheet.merges) && sheet.colWidths == old(sheet.colWidths)
  {
    AddCell(sheet, v, style, widths, columnIndex, lineWidth);
    AppendToLastOf(rows, Cells(values, style), [Cell(v, style)]);
    CellsAppend(values, v, style);
    AbsorbAppend(w, values, v, lineWidth);
  }

  /** createHeaderRow: a new row holding every column's sanitized header,
      each written into the accumulator. */
  method CreateHeaderRow(sheet: Sheet, style: Style, columns: seq<ColumnDefinition>, widths: array<real>,
                         lineWidth: string -> nat)
    requires |columns| <= widths.Length
    modifies sheet, widths
    ensures sheet.rows == old(sheet.rows) + [Cells(HeaderValues(columns), style)]
    ensures sheet.merges == old(sheet.merges) && sheet.colWidths == old(sheet.colWidths)
    ensures widths[..] == Absorb(old(widths[..]), HeaderValues(columns), lineWidth)
  {
    sheet.AddRow();
    ghost var h := HeaderValues(columns);
    assert Absorb(old(widths[..]), h[..0], lineWidth) == old(widths[..]);
    assert Cells(h[..0], style) == [];
    var i := 0;
    while i < |columns|
      invariant 0 <= i <= |columns|
      invariant sheet.rows == old(sheet.rows) + [Cells(h[..i], style)]
      invariant sheet.merges == old(sheet.merges) && sheet.colWidths == old(sheet.colWidths)
      invariant widths[..] == Absorb(old(widths[..]), h[..i], lineWidth)
    {
      assert h[..i + 1] == h[..i] + [h[i]] && h[i] == Sanitize(columns[i].header);
      AppendCell(sheet, Sanitize(columns[i].header), style, widths, i, lineWidth, old(sheet.rows), old(widths[..]), h[..i]);
      i := i + 1;
    }
    assert h[..i] == h;
  }

  /** The Tags text of one record, as populateDataRows computes it: the tag
      itself for one tag, the serializer's output trimmed for more, nothing
      for none; a serializer error is passed on. */
  method RenderTags(tags: seq<string>, marshal: seq<string> -> Result<string, string>)
    returns (r: Result<string, string>)
    ensures r == TagsText(tags, marshal)
  {
    var text := "";
    if |tags| == 1 {
      text := tags[0];
    } else if 1 < |tags| {
      var tagYaml := marshal(tags);
      if tagYaml.Failure? {
        return Failure(tagYaml.error);
      }
      text := TrimSpace(tagYaml.value);
    }
    r := Success(text);
  }

  /** Writing one more row into the accumulator. */
  lemma AbsorbAllLast(widths: seq<real>, rows: seq<seq<string>>, row: seq<string>, lineWidth: string -> nat)
    requires RowsFit(rows, |widths|) && |row| <= |widths|
    ensures RowsFit(rows + [row], |widths|)
    ensures AbsorbAll(widths, rows + [row], lineWidth) == Absorb(AbsorbAll(widths, rows, lineWidth), row, lineWidth)
  {
    assert (rows + [row])[..|rows|] == rows;
  }

  /** The start of a data row: a new row holding the record's sanitized Name
      and Description, each written into the accumulator. */
  method WriteNameAndDescription(sheet: Sheet, style: Style, record: Record, widths: array<real>,
                                 lineWidth: string -> nat)
    requires 2 <= widths.Length
    modifies sheet, widths
    ensures sheet.rows == old(sheet.rows) + [Cells([Sanitize(record.name), Sanitize(record.description)], style)]
    ensures widths[..] == Absorb(old(widths[..]), [Sanitize(record.name), Sanitize(record.description)], lineWidth)
    ensures sheet.merges == old(sheet.merges) && sheet.colWidths == old(sheet.colWidths)
  {
    ghost var rows, w := sheet.rows, widths[..];
    sheet.AddRow();
    assert Cells([], style) == [] && Absorb(w, [], lineWidth) == w;
    var name, description := Sanitize(record.name), Sanitize(record.description);
    AppendCell(sheet, name, style, widths, 0, lineWidth, rows, w, []);
    assert [] + [name] == [name];
    AppendCell(sheet, description, style, widths, 1, lineWidth, rows, w, [name]);
    assert [name] + [description] == [name, description];
  }

  /** The body of populateDataRows' loop for one record: a new row with the
      sanitized Name and Description, then, unless the serializer fails on
      the tags, the sanitized Tags text and Note; each value is written into
      the accumulator. The serializer's error is returned. */
  method WriteRecordRow(sheet: Sheet, style: Style, record: Record, widths: array<real>,
                        marshal: seq<string> -> Result<string, string>, lineWidth: string -> nat)
    returns (failure: Option<string>)
    requires 4 <= widths.Length
    modifies sheet, widths
    ensures var t := TagsText(record.tags, marshal);
      failure == if t.Failure? then Some(t.error) else None
    ensures sheet.rows == old(sheet.rows) + [Cells(RecordValues(record, marshal), style)]
    ensures widths[..] == Absorb(old(widths[..]), RecordValues(record, marshal), lineWidth)
    ensures sheet.merges == old(sheet.merges) && sheet.colWidths == old(sheet.colWidths)
  {
    ghost var rows, w := sheet.rows, widths[..];
    WriteNameAndDescription(sheet, style, record, widths, lineWidth);
    var name, description := Sanitize(record.name), Sanitize(record.description);
    var tags := RenderTags(record.tags, marshal);
    if tags.Failure? {
      assert RecordValues(record, marshal) == [name, description];
      return Some(tags.error);
    }
    var tagsValue, note := Sanitize(tags.value), Sanitize(record.note);
    AppendCell(sheet, tagsValue, style, widths, 2, lineWidth, rows, w, [name, description]);
    assert [name, description] + [tagsValue] == [name, description, tagsValue];
    AppendCell(sheet, note, style, widths, 3, lineWidth, rows, w, [name, description, tagsValue]);
    assert [name, description, tagsValue] + [note] == [name, description, tagsValue, note];
    assert RecordValues(record, marshal) == [name, description, tagsValue, note];
    failure := None;
  }

  /** One more record's row after a prefix of records that all rendered:
      the phase's result, the sheet and the accumulator all move on to the
      rows written so far plus this record's values. */
  lemma DataRowStep(records: seq<Record>, k: nat, marshal: seq<string> -> Result<string, string>,
                    written: seq<seq<string>>, w0: seq<real>, r0: seq<seq<Cell>>, style: Style,
                    lineWidth: string -> nat, rowsNow: seq<seq<Cell>>, widthsNow: seq<real>)
    requires k < |records| && 4 <= |w0|
    requires WriteRecords(records[..k], marshal) == DataRows(written, None)
    requires RowsFit(written, |w0|)
    requires rowsNow == r0 + CellRows(written, style) + [Cells(RecordValues(records[k], marshal), style)]
    requires widthsNow == Absorb(AbsorbAll(w0, written, lineWidth), RecordValues(records[k], marshal), lineWidth)
    ensures var next := written + [RecordValues(records[k], marshal)];
      var t := TagsText(records[k].tags, marshal);
      && WriteRecords(records[..k + 1], marshal) == DataRows(next, if t.Failure? then Some(t.error) else None)
      && RowsFit(next, |w0|)
      && rowsNow == r0 + CellRows(next, style)
      && widthsNow == AbsorbAll(w0, next, lineWidth)
  {
    var values := RecordValues(records[k], marshal);
    var next := written + [values];
    var t := TagsText(records[k].tags, marshal);
    assert WriteRecords(records[..k + 1], marshal) == DataRows(next, if t.Failure? then Some(t.error) else None) by {
      WriteRecordsStep(records, k, marshal);
    }
    assert RowsFit(next, |w0|) && widthsNow == AbsorbAll(w0, next, lineWidth) by {
      AbsorbAllLast(w0, written, values, lineWidth);
    }
    assert rowsNow == r0 + CellRows(next, style) by {
      CellRowsAppend(written, values, style);
      assert r0 + CellRows(written, style) + [Cells(values, style)]
          == r0 + (CellRows(written, style) + [Cells(values, style)]);
    }
  }

  /** One turn of populateDataRows' loop, with the phase's progress carried
      as ghost state: the rows written for `records[..k]` become those for
      `records[..k + 1]`. */
  method WriteDataRow(sheet: Sheet, style: Style, records: seq<Record>, k: nat, widths: array<real>,
                      marshal: seq<string> -> Result<string, string>, lineWidth: string -> nat,
                      ghost written: seq<seq<string>>, ghost w0: seq<real>, ghost r0: seq<seq<Cell>>)
    returns (failure: Option<string>, ghost next: seq<seq<string>>)
    requires k < |records| && 4 <= widths.Length && |w0| == widths.Length
    requires WriteRecords(records[..k], marshal) == DataRows(written, None)
    requires RowsFit(written, |w0|)
    requires sheet.rows == r0 + CellRows(written, style)
    requires widths[..] == AbsorbAll(w0, written, lineWidth)
    modifies sheet, widths
    ensures next == written + [RecordValues(records[k], marshal)]
    ensures WriteRecords(records[..k + 1], marshal) == DataRows(next, failure)
    ensures RowsFit(next, |w0|)
    ensures sheet.rows == r0 + CellRows(next, style)
    ensures widths[..] == AbsorbAll(w0, next, lineWidth)
    ensures sheet.merges == old(sheet.merges) && sheet.colWidths == old(sheet.colWidths)
  {
    failure := WriteRecordRow(sheet, style, records[k], widths, marshal, lineWidth);
    DataRowStep(records, k, marshal, written, w0, r0, style, lineWidth, sheet.rows, widths[..]);
    next := written + [RecordValues(records[k], marshal)];
  }

  /** populateDataRows: one row per record until a serializer failure, which
      leaves that record's row with its first two cells and ends the phase
      with the error. */
  method PopulateDataRows(sheet: Sheet, style: Style, records: seq<Record>, widths: array<real>,
                          marshal: seq<string> -> Result<string, string>, lineWidth: string -> nat)
    returns (err: Option<Error>)
    requires 4 <= widths.Length
    modifies sheet, widths
    ensures var d := WriteRecords(records, marshal);
      && sheet.rows == old(sheet.rows) + CellRows(d.rows, style)
      && widths[..] == AbsorbAll(old(widths[..]), d.rows, lineWidth)
      && err == if d.failure.Some? then Some(MarshalTagsFailed(d.failure.value)) else None
    ensures sheet.merges == old(sheet.merges) && sheet.colWidths == old(sheet.colWidths)
  {
    ghost var w0, r0 := widths[..], sheet.rows;
    ghost var written: seq<seq<string>> := [];
    var k := 0;
    while k < |records|
      invariant 0 <= k <= |records|
      invariant WriteRecords(records[..k], marshal) == DataRows(written, None)
      invariant RowsFit(written, |w0|)
      invariant sheet.rows == r0 + CellRows(written, style)
      invariant widths[..] == AbsorbAll(w0, written, lineWidth)
      invariant sheet.merges == old(sheet.merges) && sheet.colWidths == old(sheet.colWidths)
    {
      var failure;
      failure, written := WriteDataRow(sheet, style, records, k, widths, marshal, lineWidth, written, w0, r0);
      if failure.Some? {
        WriteRecordsStopsAtFailure(records, k + 1, marshal);
        return Some(MarshalTagsFailed(failure.value));
      }
      k := k + 1;
    }
    assert records[..k] == records;
    err := None;
  }

  /** adjustColumnWidths: each column in turn is set to its clamped width;
      the first column the library refuses ends the phase with that column's
      number and the library's message. */
  method AdjustColumnWidths(sheet: Sheet, widths: array<real>, setColWidth: (nat, real) -> Option<string>)
    returns (err: Option<Error>)
    modifies sheet
    ensures var p := WidthsApplied(widths[..], setColWidth);
      && sheet.colWidths == old(sheet.colWidths) + p.persisted
      && err == if p.failure.Some? then Some(ColumnWidthFailed(p.failure.value.0, p.failure.value.1)) else None
    ensures sheet.rows == old(sheet.rows) && sheet.merges == old(sheet.merges)
  {
    assert widths[..0] == [];
    var i := 0;
    while i < widths.Length
      invariant 0 <= i <= widths.Length
      invariant WidthsApplied(widths[..i], setColWidth).failure.None?
      invariant sheet.colWidths == old(sheet.colWidths) + WidthsApplied(widths[..i], setColWidth).persisted
      invariant sheet.rows == old(sheet.rows) && sheet.merges == old(sheet.merges)
    {
      ghost var before := WidthsApplied(widths[..i], setColWidth).persisted;
      assert widths[..i + 1][..i] == widths[..i] && widths[..i + 1][i] == widths[i];
      var adjustedWidth := AdjustedWidth(widths[i]);
      var e := sheet.SetColWidth(i, adjustedWidth, setColWidth(i, adjustedWidth));
      if e.Some? {
        WidthsAppliedStopsAtFailure(widths[..], i + 1, setColWidth);
        return Some(ColumnWidthFailed(i, e.value));
      }
      assert (old(sheet.colWidths) + before)[i := adjustedWidth] == old(sheet.colWidths) + before[i := adjustedWidth];
      i := i + 1;
    }
    assert widths[..i] == widths[..];
    err := None;
  }

  /** The accumulator's starting values: the display width of each of the
      four headers, in a fresh array. */
  method HeaderWidths(columns: seq<ColumnDefinition>, lineWidth: string -> nat) returns (widths: array<real>)
    requires |columns| == 4
    ensures fresh(widths)
    ensures widths[..] == InitialWidths(columns, lineWidth)
  {
    var w0 := CalculateDisplayWidth(columns[0].header, lineWidth);
    var w1 := CalculateDisplayWidth(columns[1].header, lineWidth);
    var w2 := CalculateDisplayWidth(columns[2].header, lineWidth);
    var w3 := CalculateDisplayWidth(columns[3].header, lineWidth);
    widths := new real[4] [w0, w1, w2, w3];
  }

  /** The phases of the export that write rows into a new, empty sheet:
      seed the accumulator with the headers' display widths, then write the
      title, header and data rows. When every record rendered, the
      accumulator ends at the export's final widths. */
  method WriteSheetRows(sheet: Sheet, records: seq<Record>, columns: seq<ColumnDefinition>, lib: Library)
    returns (maxColumnWidths: array<real>, err: Option<Error>)
    requires |columns| == 4
    requires sheet.rows == [] && sheet.merges == [] && sheet.colWidths == map[]
    modifies sheet
    ensures fresh(maxColumnWidths)
    ensures var d := WriteRecords(records, lib.marshal);
      && sheet.rows == [TitleRow(columns, Title), Cells(HeaderValues(columns), Standard)] + CellRows(d.rows, Standard)
      && sheet.merges == TitleMerges(|columns|, 0)
      && sheet.colWidths == map[]
      && err == (if d.failure.Some? then Some(MarshalTagsFailed(d.failure.value)) else None)
      && (d.failure.None? ==> maxColumnWidths[..] == FinalWidths(records, columns, lib))
  {
    maxColumnWidths := HeaderWidths(columns, lib.lineWidth);
    CreateTitleRow(sheet, Title, columns);
    CreateHeaderRow(sheet, Standard, columns, maxColumnWidths, lib.lineWidth);
    ghost var d := WriteRecords(records, lib.marshal);
    err := PopulateDataRows(sheet, Standard, records, maxColumnWidths, lib.marshal, lib.lineWidth);
    assert sheet.rows == [TitleRow(columns, Title), Cells(HeaderValues(columns), Standard)] + CellRows(d.rows, Standard);
    if err.None? {
      FinalWidthsByPhase(records, columns, lib);
    }
  }

  /** The phases of the export that fill a new, empty sheet: the rows, then
      the column widths. The first phase that fails ends the export with its
      error. */
  method FillSheet(sheet: Sheet, records: seq<Record>, columns: seq<ColumnDefinition>, lib: Library)
    returns (err: Option<Error>)
    requires |columns| == 4
    requires sheet.rows == [] && sheet.merges == [] && sheet.colWidths == map[]
    modifies sheet
    ensures var d := WriteRecords(records, lib.marshal);
      && sheet.rows == [TitleRow(columns, Title), Cells(HeaderValues(columns), Standard)] + CellRows(d.rows, Standard)
      && sheet.merges == TitleMerges(|columns|, 0)
      && (d.failure.Some? ==> sheet.colWidths == map[] && err == Some(MarshalTagsFailed(d.failure.value)))
      && (d.failure.None? ==>
            var p := WidthsApplied(FinalWidths(records, columns, lib), lib.setColWidth);
            && sheet.colWidths == p.persisted
            && err == if p.failure.Some? then Some(ColumnWidthFailed(p.failure.value.0, p.failure.value.1)) else None)
  {
    var maxColumnWidths;
    maxColumnWidths, err := WriteSheetRows(sheet, records, columns, lib);
    if err.Some? {
      return;
    }
    err := AdjustColumnWidths(sheet, maxColumnWidths, lib.setColWidth);
    assert map[] + WidthsApplied(FinalWidths(records, columns, lib), lib.setColWidth).persisted
        == WidthsApplied(FinalWidths(records, columns, lib), lib.setColWidth).persisted;
  }

  /** The export for a given set of four columns: add the sheet, fill it,
      save; the first phase that fails ends the export with its error. The
      workbook and its sheet are left exactly as the export's function
      describes. */
  method ExportWorkbook(records: seq<Record>, columns: seq<ColumnDefinition>, filePath: string, lib: Library)
    returns (workbook: Workbook, err: Option<Error>)
    requires |columns| == 4
    ensures fresh(workbook)
    ensures var x := ExportRecords(records, columns, filePath, lib);
      && err == x.error
      && (x.saveAttempted <==> workbook.saveAttempts == [filePath])
      && (!x.saveAttempted ==> workbook.saveAttempts == [])
      && (!x.sheetAdded ==> workbook.sheets == [])
      && (x.sheetAdded ==>
            && |workbook.sheets| == 1
            && workbook.sheets[0].name == "Sheet1"
            && workbook.sheets[0].rows == x.rows
            && workbook.sheets[0].merges == x.merges
            && workbook.sheets[0].colWidths == x.colWidths)
  {
    workbook := new Workbook();
    var sheet, sheetErr := workbook.AddSheet("Sheet1", lib.addSheet("Sheet1"));
    if sheetErr.Some? {
      return workbook, Some(AddSheetFailed(sheetErr.value));
    }
    err := FillSheet(sheet, records, columns, lib);
    if err.Some? {
      return;
    }
    var saveErr := workbook.Save(filePath, lib.save(filePath));
    if saveErr.Some? {
      return workbook, Some(SaveFailed(saveErr.value));
    }
  }

  /** WriteRecordsToExcel: the export with the four shipped columns. */
  method WriteRecordsToExcel(records: seq<Record>, filePath: string, lib: Library)
    returns (workbook: Workbook, err: Option<Error>)
    ensures fresh(workbook)
    ensures var x := ExportRecords(records, ShippedColumns, filePath, lib);
      && err == x.error
      && (x.saveAttempted <==> workbook.saveAttempts == [filePath])
      && (!x.saveAttempted ==> workbook.saveAttempts == [])
      && (!x.sheetAdded ==> workbook.sheets == [])
      && (x.sheetAdded ==>
            && |workbook.sheets| == 1
            && workbook.sheets[0].name == "Sheet1"
            && workbook.sheets[0].rows == x.rows
            && workbook.sheets[0].merges == x.merges
            && workbook.sheets[0].colWidths == x.colWidths)
  {
    workbook, err := ExportWorkbook(records, ShippedColumns, filePath, lib);
  }
}
