/** What the sheet builder of main.go writes, as functions of its inputs: the
    title row, the header row, the data rows, the width accumulator and the
    persisted column widths. The methods in module Builder are proved to
    produce exactly these; the lemmas here say what they mean. */
module Layout {
  import opened Wrappers
  import opened Text
  import opened Width
  import opened SheetModel

  /** One record to export. */
  datatype Record = Record(name: string, description: string, tags: seq<string>, note: string)

  /** One column: its label in the header row and its shared title in the
      merged title row. */
  datatype ColumnDefinition = ColumnDefinition(header: string, title: string)

  /** The four columns the program writes, in their fixed order. */
  const ShippedColumns: seq<ColumnDefinition> := [
    ColumnDefinition("Name", "Name, Description"),
    ColumnDefinition("Description", "Name, Description"),
    ColumnDefinition("Tags", "Tags, Note"),
    ColumnDefinition("Note", "Tags, Note")
  ]

  /** The phase that failed, with the collaborator's own message. */
  datatype Error =
    | AddSheetFailed(cause: string)
    | MarshalTagsFailed(cause: string)
    | ColumnWidthFailed(column: nat, cause: string)
    | SaveFailed(cause: string)

  // ---------------------------------------------------------------------------
  // Title row
  // ---------------------------------------------------------------------------

  /** How many cells the title loop emits for `n` columns: the group {0,1}
      as soon as there is a column, the group {2,3} as soon as there are
      three, and one filler for every column after the fourth. */
  function TitleWidth(n: nat): nat {
    if n == 0 then 0 else if n <= 2 then 2 else if n <= 4 then 4 else n
  }

  /** The title cell at position `p`: the first cell of each group carries the
      group's title, every other cell is a styled blank. */
  function TitleCell(columns: seq<ColumnDefinition>, p: nat, style: Style): Cell
    requires |columns| > 0
    requires p == 2 ==> |columns| > 2
  {
    if p == 0 then Cell(columns[0].title, style)
    else if p == 2 then Cell(columns[2].title, style)
    else Blank(style)
  }

  /** The title row. With at least four columns it has one cell per column,
      the titles of columns 0 and 2 in cells 0 and 2, and blanks elsewhere. */
  function TitleRow(columns: seq<ColumnDefinition>, style: Style): (r: seq<Cell>)
    ensures |r| == TitleWidth(|columns|)
    ensures |columns| >= 4 ==>
      && |r| == |columns|
      && r[0] == Cell(columns[0].title, style) && r[1] == Blank(style)
      && r[2] == Cell(columns[2].title, style) && r[3] == Blank(style)
      && forall p :: 4 <= p < |r| ==> r[p] == Blank(style)
  {
    seq(TitleWidth(|columns|), (p: nat) requires p < TitleWidth(|columns|) => TitleCell(columns, p, style))
  }

  /** The merge directives of the title row in row `row`: one per group that
      is emitted, each spanning one extra column and no extra row. */
  function TitleMerges(n: nat, row: nat): (r: seq<Merge>)
    ensures n >= 3 ==> r == [Merge(row, 0, 1, 0), Merge(row, 2, 1, 0)]
    ensures forall k :: 0 <= k < |r| ==> r[k].row == row && r[k].hcells == 1 && r[k].vcells == 0
    ensures |r| <= 2 && (n > 0 <==> r != [])
  {
    if n == 0 then [] else if n <= 2 then [Merge(row, 0, 1, 0)] else [Merge(row, 0, 1, 0), Merge(row, 2, 1, 0)]
  }

  // ---------------------------------------------------------------------------
  // Cell values and rows
  // ---------------------------------------------------------------------------

  /** The values of a row as cells of one style. */
  function Cells(values: seq<string>, style: Style): seq<Cell> {
    seq(|values|, i requires 0 <= i < |values| => Cell(values[i], style))
  }

  function CellRows(rows: seq<seq<string>>, style: Style): seq<seq<Cell>> {
    seq(|rows|, j requires 0 <= j < |rows| => Cells(rows[j], style))
  }

  lemma CellsAppend(values: seq<string>, v: string, style: Style)
    ensures Cells(values + [v], style) == Cells(values, style) + [Cell(v, style)]
  {
  }

  lemma CellRowsAppend(rows: seq<seq<string>>, row: seq<string>, style: Style)
    ensures CellRows(rows + [row], style) == CellRows(rows, style) + [Cells(row, style)]
  {
  }

  /** The header row's values: every header, sanitized. */
  function HeaderValues(columns: seq<ColumnDefinition>): (r: seq<string>)
    ensures |r| == |columns|
  {
    seq(|columns|, i requires 0 <= i < |columns| => Sanitize(columns[i].header))
  }

  /** The text written into the Tags column: nothing for no tags, the tag
      itself for one tag, and for more the serializer's rendering of the list
      with surrounding white space trimmed. The serializer's error is the
      result's error. */
  function TagsText(tags: seq<string>, marshal: seq<string> -> Result<string, string>): (r: Result<string, string>)
    ensures r.Failure? <==> |tags| >= 2 && marshal(tags).Failure?
  {
    if |tags| == 1 then Success(tags[0])
    else if 1 < |tags| then
      match marshal(tags)
      case Failure(e) => Failure(e)
      case Success(y) => Success(TrimSpace(y))
    else Success("")
  }

  /** The three cases of the Tags text, and the serializer's error passed
      on unchanged. */
  lemma TagsTextCases(tags: seq<string>, marshal: seq<string> -> Result<string, string>)
    ensures var r := TagsText(tags, marshal);
      && (r.Failure? ==> r.error == marshal(tags).error)
      && (|tags| == 0 ==> r == Success(""))
      && (|tags| == 1 ==> r == Success(tags[0]))
      && (|tags| >= 2 && r.Success? ==>
            r.value == TrimSpace(marshal(tags).value)
            && (r.value == [] || (!IsSpace(r.value[0]) && !IsSpace(r.value[|r.value| - 1]))))
  {
  }

  /** With fewer than two tags the serializer is not consulted. */
  lemma TagsTextWithoutSerializer(tags: seq<string>, m1: seq<string> -> Result<string, string>,
                                  m2: seq<string> -> Result<string, string>)
    requires |tags| <= 1
    ensures TagsText(tags, m1) == TagsText(tags, m2)
  {
  }

  /** The four values of a data row, in column order, each sanitized. */
  function RecordRow(record: Record, tagsText: string): seq<string> {
    [Sanitize(record.name), Sanitize(record.description), Sanitize(tagsText), Sanitize(record.note)]
  }

  /** What the data-row phase writes: the rows' values, and the serializer's
      error if it stopped the phase. */
  datatype DataRows = DataRows(rows: seq<seq<string>>, failure: Option<string>)

  /** The data-row phase, record by record: each record appends its row; a
      serializer failure leaves the record's Name and Description cells in
      place and ends the phase. */
  function WriteRecords(records: seq<Record>, marshal: seq<string> -> Result<string, string>): (d: DataRows)
    ensures |d.rows| <= |records|
    ensures forall j :: 0 <= j < |d.rows| ==> 2 <= |d.rows[j]| <= 4
    decreases |records|
  {
    if records == [] then DataRows([], None)
    else
      var prev := WriteRecords(records[..|records| - 1], marshal);
      var record := records[|records| - 1];
      if prev.failure.Some? then prev
      else match TagsText(record.tags, marshal)
        case Success(t) => DataRows(prev.rows + [RecordRow(record, t)], None)
        case Failure(e) => DataRows(prev.rows + [[Sanitize(record.name), Sanitize(record.description)]], Some(e))
  }

  /** The phase succeeds exactly when every record's tags render, and then
      it writes one full row per record, in input order. */
  lemma {:induction false} WriteRecordsSuccess(records: seq<Record>, marshal: seq<string> -> Result<string, string>)
    ensures WriteRecords(records, marshal).failure.None?
        <==> forall j :: 0 <= j < |records| ==> TagsText(records[j].tags, marshal).Success?
    ensures WriteRecords(records, marshal).failure.None? ==>
      var d := WriteRecords(records, marshal);
      |d.rows| == |records|
      && forall j :: 0 <= j < |records| ==> d.rows[j] == RecordRow(records[j], TagsText(records[j].tags, marshal).value)
    decreases |records|
  {
    if records != [] {
      var init := records[..|records| - 1];
      WriteRecordsSuccess(init, marshal);
      assert forall j :: 0 <= j < |init| ==> init[j] == records[j];
      var prev := WriteRecords(init, marshal);
      if prev.failure.Some? {
        var j :| 0 <= j < |init| && TagsText(init[j].tags, marshal).Failure?;
        assert TagsText(records[j].tags, marshal).Failure?;
      }
    }
  }

  /** A failure stops the phase at the first record whose tags do not render:
      the rows of the records before it are complete, and its own row holds
      only the Name and Description values. */
  lemma {:induction false} WriteRecordsFailure(records: seq<Record>, marshal: seq<string> -> Result<string, string>)
    returns (k: nat)
    requires WriteRecords(records, marshal).failure.Some?
    ensures k < |records|
    ensures forall j :: 0 <= j < k ==> TagsText(records[j].tags, marshal).Success?
    ensures TagsText(records[k].tags, marshal) == Failure(WriteRecords(records, marshal).failure.value)
    ensures var d := WriteRecords(records, marshal);
      |d.rows| == k + 1
      && (forall j :: 0 <= j < k ==> d.rows[j] == RecordRow(records[j], TagsText(records[j].tags, marshal).value))
      && d.rows[k] == [Sanitize(records[k].name), Sanitize(records[k].description)]
    decreases |records|
  {
    var init := records[..|records| - 1];
    var prev := WriteRecords(init, marshal);
    assert forall j :: 0 <= j < |init| ==> init[j] == records[j];
    if prev.failure.Some? {
      k := WriteRecordsFailure(init, marshal);
    } else {
      k := |records| - 1;
      WriteRecordsSuccess(init, marshal);
    }
  }

  /** The values one record leaves in its row: all four when its tags
      render, only Name and Description when the serializer fails. */
  function RecordValues(record: Record, marshal: seq<string> -> Result<string, string>): (r: seq<string>)
    ensures |r| == if TagsText(record.tags, marshal).Success? then 4 else 2
    ensures r[0] == Sanitize(record.name) && r[1] == Sanitize(record.description)
  {
    match TagsText(record.tags, marshal)
    case Success(t) => RecordRow(record, t)
    case Failure(_) => [Sanitize(record.name), Sanitize(record.description)]
  }

  /** One more record after a prefix that succeeded: its values are appended,
      and its serializer error, if any, ends the phase. */
  lemma WriteRecordsStep(records: seq<Record>, k: nat, marshal: seq<string> -> Result<string, string>)
    requires k < |records|
    requires WriteRecords(records[..k], marshal).failure.None?
    ensures var t := TagsText(records[k].tags, marshal);
      WriteRecords(records[..k + 1], marshal) ==
        DataRows(WriteRecords(records[..k], marshal).rows + [RecordValues(records[k], marshal)],
                 if t.Failure? then Some(t.error) else None)
  {
    assert records[..k + 1][..k] == records[..k];
  }

  /** Once the phase has failed on a prefix of the records, the records after
      it are never looked at. */
  lemma {:induction false} WriteRecordsStopsAtFailure(records: seq<Record>, i: nat,
                                                      marshal: seq<string> -> Result<string, string>)
    requires i <= |records|
    requires WriteRecords(records[..i], marshal).failure.Some?
    ensures WriteRecords(records, marshal) == WriteRecords(records[..i], marshal)
    decreases |records| - i
  {
    if i < |records| {
      var n := |records|;
      assert records[..i] == records[..n - 1][..i];
      WriteRecordsStopsAtFailure(records[..n - 1], i, marshal);
    } else {
      assert records[..i] == records;
    }
  }

  // ---------------------------------------------------------------------------
  // Width accumulator
  // ---------------------------------------------------------------------------

  /** One row written into the accumulator: the entry of every column the row
      reaches rises to the measured width of its value if that is larger. */
  function Absorb(widths: seq<real>, row: seq<string>, lineWidth: string -> nat): (r: seq<real>)
    requires |row| <= |widths|
    ensures |r| == |widths|
  {
    seq(|widths|, c requires 0 <= c < |widths| =>
      if c < |row| then MaxReal(widths[c], MeasuredWidth(row[c], lineWidth) as real) else widths[c])
  }

  predicate RowsFit(rows: seq<seq<string>>, n: nat) {
    forall j :: 0 <= j < |rows| ==> |rows[j]| <= n
  }

  /** The accumulator after the rows are written one after the other. */
  function AbsorbAll(widths: seq<real>, rows: seq<seq<string>>, lineWidth: string -> nat): (r: seq<real>)
    requires RowsFit(rows, |widths|)
    ensures |r| == |widths|
    decreases |rows|
  {
    if rows == [] then widths
    else Absorb(AbsorbAll(widths, rows[..|rows| - 1], lineWidth), rows[|rows| - 1], lineWidth)
  }

  /** Writing one more value to the end of a row. */
  lemma AbsorbAppend(widths: seq<real>, row: seq<string>, v: string, lineWidth: string -> nat)
    requires |row| < |widths|
    ensures Absorb(widths, row + [v], lineWidth)
         == Absorb(widths, row, lineWidth)[|row| := MaxReal(widths[|row|], MeasuredWidth(v, lineWidth) as real)]
  {
  }

  /** Writing rows in two batches is writing them all. */
  lemma {:induction false} AbsorbAllAppend(widths: seq<real>, a: seq<seq<string>>, b: seq<seq<string>>,
                                           lineWidth: string -> nat)
    requires RowsFit(a, |widths|) && RowsFit(b, |widths|)
    ensures RowsFit(a + b, |widths|)
    ensures AbsorbAll(AbsorbAll(widths, a, lineWidth), b, lineWidth) == AbsorbAll(widths, a + b, lineWidth)
    decreases |b|
  {
    if b == [] {
      assert a + b == a;
    } else {
      var n := |b|;
      AbsorbAllAppend(widths, a, b[..n - 1], lineWidth);
      assert (a + b)[..|a + b| - 1] == a + b[..n - 1];
      assert (a + b)[|a + b| - 1] == b[n - 1];
    }
  }

  /** Each accumulator entry is the maximum of its starting value and the
      measured widths of every value written in that column: it is at least
      each of them, and equal to one of them. So no entry ever decreases. */
  lemma {:induction false} AccumulatorIsColumnMax(widths: seq<real>, rows: seq<seq<string>>, c: nat,
                                                  lineWidth: string -> nat)
    requires RowsFit(rows, |widths|) && c < |widths|
    ensures AbsorbAll(widths, rows, lineWidth)[c] >= widths[c]
    ensures forall j :: 0 <= j < |rows| && c < |rows[j]| ==>
      AbsorbAll(widths, rows, lineWidth)[c] >= MeasuredWidth(rows[j][c], lineWidth) as real
    ensures AbsorbAll(widths, rows, lineWidth)[c] == widths[c]
      || exists j :: 0 <= j < |rows| && c < |rows[j]|
           && AbsorbAll(widths, rows, lineWidth)[c] == MeasuredWidth(rows[j][c], lineWidth) as real
    decreases |rows|
  {
    if rows != [] {
      var n := |rows|;
      var init := rows[..n - 1];
      var last := rows[n - 1];
      AccumulatorIsColumnMax(widths, init, c, lineWidth);
      var before := AbsorbAll(widths, init, lineWidth)[c];
      var after := AbsorbAll(widths, rows, lineWidth)[c];
      assert after == if c < |last| then MaxReal(before, MeasuredWidth(last[c], lineWidth) as real) else before;
      forall j | 0 <= j < n && c < |rows[j]|
        ensures after >= MeasuredWidth(rows[j][c], lineWidth) as real
      {
        if j < n - 1 {
          assert rows[j] == init[j];
        }
      }
      if after != widths[c] {
        if c < |last| && after == MeasuredWidth(last[c], lineWidth) as real {
          assert c < |rows[n - 1]| && after == MeasuredWidth(rows[n - 1][c], lineWidth) as real;
        } else {
          assert after == before;
          var j :| 0 <= j < |init| && c < |init[j]| && before == MeasuredWidth(init[j][c], lineWidth) as real;
          assert rows[j] == init[j];
          assert 0 <= j < |rows| && c < |rows[j]| && after == MeasuredWidth(rows[j][c], lineWidth) as real;
        }
      }
    }
  }

  /** The accumulator's starting values: the display width of each header. */
  function InitialWidths(columns: seq<ColumnDefinition>, lineWidth: string -> nat): (r: seq<real>)
    ensures |r| == |columns|
  {
    seq(|columns|, i requires 0 <= i < |columns| => DisplayWidth(columns[i].header, lineWidth) as real)
  }

  // ---------------------------------------------------------------------------
  // Column widths
  // ---------------------------------------------------------------------------

  /** What the width phase persists, and the column and message of the call
      the library refused, if any. */
  datatype WidthPhase = WidthPhase(persisted: map<nat, real>, failure: Option<(nat, string)>)

  /** The width phase, column by column: each column gets its adjusted width
      unless the library refuses, which ends the phase. */
  function WidthsApplied(widths: seq<real>, setColWidth: (nat, real) -> Option<string>): WidthPhase
    decreases |widths|
  {
    if widths == [] then WidthPhase(map[], None)
    else
      var c := |widths| - 1;
      var prev := WidthsApplied(widths[..c], setColWidth);
      if prev.failure.Some? then prev
      else match setColWidth(c, AdjustedWidth(widths[c]))
        case None => WidthPhase(prev.persisted[c := AdjustedWidth(widths[c])], None)
        case Some(e) => WidthPhase(prev.persisted, Some((c, e)))
  }

  /** Every persisted width is the adjusted measurement of its column, so it
      lies in [10, 50]. The phase fails exactly when the library refuses some
      column; it then stops at the first refused column, having set exactly
      the columns before it. Otherwise every column is set. */
  lemma {:induction false} WidthsAppliedSpec(widths: seq<real>, setColWidth: (nat, real) -> Option<string>)
    ensures var p := WidthsApplied(widths, setColWidth);
      forall c :: c in p.persisted ==>
        c < |widths| && p.persisted[c] == AdjustedWidth(widths[c]) && 10.0 <= p.persisted[c] <= 50.0
    ensures var p := WidthsApplied(widths, setColWidth);
      p.failure.None? <==> forall c :: 0 <= c < |widths| ==> setColWidth(c, AdjustedWidth(widths[c])).None?
    ensures var p := WidthsApplied(widths, setColWidth);
      p.failure.None? ==> forall c: nat :: c in p.persisted <==> c < |widths|
    ensures var p := WidthsApplied(widths, setColWidth);
      p.failure.Some? ==>
        var k := p.failure.value.0;
        && k < |widths|
        && setColWidth(k, AdjustedWidth(widths[k])) == Some(p.failure.value.1)
        && (forall c :: 0 <= c < k ==> setColWidth(c, AdjustedWidth(widths[c])).None?)
        && forall c: nat :: c in p.persisted <==> c < k
    decreases |widths|
  {
    if widths != [] {
      var n := |widths| - 1;
      var init := widths[..n];
      WidthsAppliedSpec(init, setColWidth);
      assert forall c :: 0 <= c < n ==> init[c] == widths[c];
      var prev := WidthsApplied(init, setColWidth);
    }
  }

  /** Once the library has refused a column, the columns after it are never
      looked at. */
  lemma {:induction false} WidthsAppliedStopsAtFailure(widths: seq<real>, i: nat,
                                                       setColWidth: (nat, real) -> Option<string>)
    requires i <= |widths|
    requires WidthsApplied(widths[..i], setColWidth).failure.Some?
    ensures WidthsApplied(widths, setColWidth) == WidthsApplied(widths[..i], setColWidth)
    decreases |widths| - i
  {
    if i < |widths| {
      var n := |widths|;
      assert widths[..i] == widths[..n - 1][..i];
      WidthsAppliedStopsAtFailure(widths[..n - 1], i, setColWidth);
    } else {
      assert widths[..i] == widths;
    }
  }

  // ---------------------------------------------------------------------------
  // The whole export
  // ---------------------------------------------------------------------------

  /** The collaborators the export depends on: whether the library accepts a
      sheet name, the tag serializer, whether the library accepts a column
      width, the outcome of saving to a path, and the width of one line of
      text. */
  datatype Library = Library(
    addSheet: string -> Option<string>,
    marshal: seq<string> -> Result<string, string>,
    setColWidth: (nat, real) -> Option<string>,
    save: string -> Option<string>,
    lineWidth: string -> nat)

  /** The accumulator handed to the width phase: the header widths, then the
      header row and every data row written into it. */
  function FinalWidths(records: seq<Record>, columns: seq<ColumnDefinition>, lib: Library): (r: seq<real>)
    requires |columns| == 4
    ensures |r| == 4
  {
    var d := WriteRecords(records, lib.marshal);
    AbsorbAll(InitialWidths(columns, lib.lineWidth), [HeaderValues(columns)] + d.rows, lib.lineWidth)
  }

  /** The final accumulator phase by phase: the header row written into the
      header widths, then the data rows. */
  lemma FinalWidthsByPhase(records: seq<Record>, columns: seq<ColumnDefinition>, lib: Library)
    requires |columns| == 4
    ensures var d := WriteRecords(records, lib.marshal);
      && RowsFit(d.rows, 4)
      && FinalWidths(records, columns, lib)
         == AbsorbAll(Absorb(InitialWidths(columns, lib.lineWidth), HeaderValues(columns), lib.lineWidth),
                      d.rows, lib.lineWidth)
  {
    var d := WriteRecords(records, lib.marshal);
    var w0 := InitialWidths(columns, lib.lineWidth);
    var h := HeaderValues(columns);
    assert [h][..0] == [];
    assert AbsorbAll(w0, [h], lib.lineWidth) == Absorb(w0, h, lib.lineWidth);
    AbsorbAllAppend(w0, [h], d.rows, lib.lineWidth);
  }

  /** Each entry of the final accumulator is the maximum of the header's width
      and the measured widths of every value written in that column. */
  lemma FinalWidthsAreColumnMax(records: seq<Record>, columns: seq<ColumnDefinition>, lib: Library, c: nat)
    requires |columns| == 4 && c < 4
    ensures var w := FinalWidths(records, columns, lib)[c];
      var d := WriteRecords(records, lib.marshal);
      && w >= DisplayWidth(columns[c].header, lib.lineWidth) as real
      && w >= MeasuredWidth(Sanitize(columns[c].header), lib.lineWidth) as real
      && (forall j :: 0 <= j < |d.rows| && c < |d.rows[j]| ==> w >= MeasuredWidth(d.rows[j][c], lib.lineWidth) as real)
      && (|| w == DisplayWidth(columns[c].header, lib.lineWidth) as real
          || w == MeasuredWidth(Sanitize(columns[c].header), lib.lineWidth) as real
          || exists j :: 0 <= j < |d.rows| && c < |d.rows[j]| && w == MeasuredWidth(d.rows[j][c], lib.lineWidth) as real)
  {
    var d := WriteRecords(records, lib.marshal);
    var rows := [HeaderValues(columns)] + d.rows;
    var w0 := InitialWidths(columns, lib.lineWidth);
    AccumulatorIsColumnMax(w0, rows, c, lib.lineWidth);
    var w := FinalWidths(records, columns, lib)[c];
    assert rows[0] == HeaderValues(columns) && rows[0][c] == Sanitize(columns[c].header);
    assert forall j :: 0 <= j < |d.rows| ==> rows[j + 1] == d.rows[j];
    if w != w0[c] && w != MeasuredWidth(Sanitize(columns[c].header), lib.lineWidth) as real {
      var j :| 0 <= j < |rows| && c < |rows[j]| && w == MeasuredWidth(rows[j][c], lib.lineWidth) as real;
      assert j != 0;
      assert 0 <= j - 1 < |d.rows| && c < |d.rows[j - 1]| && w == MeasuredWidth(d.rows[j - 1][c], lib.lineWidth) as real;
    }
  }

  /** What the export leaves behind. */
  datatype Export = Export(
    sheetAdded: bool,
    rows: seq<seq<Cell>>,
    merges: seq<Merge>,
    colWidths: map<nat, real>,
    saveAttempted: bool,
    error: Option<Error>)

  /** The export's phases in order: add the sheet, title row, header row, data
      rows, column widths, save. The first failure ends it. */
  function ExportRecords(records: seq<Record>, columns: seq<ColumnDefinition>, filePath: string, lib: Library): Export
    requires |columns| == 4
  {
    match lib.addSheet("Sheet1")
    case Some(e) => Export(false, [], [], map[], false, Some(AddSheetFailed(e)))
    case None =>
      var d := WriteRecords(records, lib.marshal);
      var rows := [TitleRow(columns, Title), Cells(HeaderValues(columns), Standard)] + CellRows(d.rows, Standard);
      var merges := TitleMerges(|columns|, 0);
      if d.failure.Some? then Export(true, rows, merges, map[], false, Some(MarshalTagsFailed(d.failure.value)))
      else
        var p := WidthsApplied(FinalWidths(records, columns, lib), lib.setColWidth);
        if p.failure.Some? then
          Export(true, rows, merges, p.persisted, false, Some(ColumnWidthFailed(p.failure.value.0, p.failure.value.1)))
        else
          match lib.save(filePath)
          case Some(e) => Export(true, rows, merges, p.persisted, true, Some(SaveFailed(e)))
          case None => Export(true, rows, merges, p.persisted, true, None)
  }

  /** Save is reached only when every earlier phase succeeded, and the export
      succeeds exactly when every phase, save included, does. */
  lemma ExportSavesOnlyAfterEveryPhase(records: seq<Record>, columns: seq<ColumnDefinition>, filePath: string,
                                       lib: Library)
    requires |columns| == 4
    ensures var x := ExportRecords(records, columns, filePath, lib);
      x.saveAttempted <==>
        && lib.addSheet("Sheet1").None?
        && (forall j :: 0 <= j < |records| ==> TagsText(records[j].tags, lib.marshal).Success?)
        && WidthsApplied(FinalWidths(records, columns, lib), lib.setColWidth).failure.None?
    ensures var x := ExportRecords(records, columns, filePath, lib);
      x.error.None? <==> x.saveAttempted && lib.save(filePath).None?
  {
    WriteRecordsSuccess(records, lib.marshal);
  }

  /** Once the sheet exists, the export writes the title, header and data rows
      and the title merges whatever happens later; widths are persisted only
      after every data row has been written. */
  lemma ExportShape(records: seq<Record>, columns: seq<ColumnDefinition>, filePath: string, lib: Library)
    requires |columns| == 4
    requires lib.addSheet("Sheet1").None?
    ensures var x := ExportRecords(records, columns, filePath, lib);
      var d := WriteRecords(records, lib.marshal);
      && x.sheetAdded
      && x.rows == [TitleRow(columns, Title), Cells(HeaderValues(columns), Standard)] + CellRows(d.rows, Standard)
      && x.merges == [Merge(0, 0, 1, 0), Merge(0, 2, 1, 0)]
      && (d.failure.Some? ==> x.colWidths == map[] && x.error == Some(MarshalTagsFailed(d.failure.value)))
      && (d.failure.None? ==> x.colWidths == WidthsApplied(FinalWidths(records, columns, lib), lib.setColWidth).persisted)
  {
  }

  /** The title row, the header row and then full data rows: four cells in
      every row, the titles of columns 0 and 2 over the first two groups, the
      sanitized headers, then the data rows' values in order. */
  lemma SheetRowsLayout(columns: seq<ColumnDefinition>, rows: seq<seq<string>>, sheetRows: seq<seq<Cell>>)
    requires |columns| == 4 && forall j :: 0 <= j < |rows| ==> |rows[j]| == 4
    requires sheetRows == [TitleRow(columns, Title), Cells(HeaderValues(columns), Standard)] + CellRows(rows, Standard)
    ensures |sheetRows| == 2 + |rows|
    ensures forall j :: 0 <= j < |sheetRows| ==> |sheetRows[j]| == 4
    ensures sheetRows[0] == [Cell(columns[0].title, Title), Blank(Title), Cell(columns[2].title, Title), Blank(Title)]
    ensures forall i :: 0 <= i < 4 ==> sheetRows[1][i] == Cell(Sanitize(columns[i].header), Standard)
    ensures forall j :: 0 <= j < |rows| ==> sheetRows[2 + j] == Cells(rows[j], Standard)
  {
    var t := TitleRow(columns, Title);
    assert sheetRows[0] == t;
    assert t == [t[0], t[1], t[2], t[3]];
    forall j | 0 <= j < |sheetRows|
      ensures |sheetRows[j]| == 4
    {
      if j >= 2 {
        assert sheetRows[j] == Cells(rows[j - 2], Standard);
      }
    }
  }

  /** Once the sheet exists and every record's tags render, the sheet holds
      the title row, the header row and one row per record in input order:
      2 + |records| rows of four cells each. */
  lemma ExportRows(records: seq<Record>, columns: seq<ColumnDefinition>, filePath: string, lib: Library)
    requires |columns| == 4
    requires lib.addSheet("Sheet1").None?
    requires forall j :: 0 <= j < |records| ==> TagsText(records[j].tags, lib.marshal).Success?
    ensures var x := ExportRecords(records, columns, filePath, lib);
      && |x.rows| == 2 + |records|
      && (forall j :: 0 <= j < |x.rows| ==> |x.rows[j]| == 4)
      && x.rows[0] == [Cell(columns[0].title, Title), Blank(Title), Cell(columns[2].title, Title), Blank(Title)]
      && (forall i :: 0 <= i < 4 ==> x.rows[1][i] == Cell(Sanitize(columns[i].header), Standard))
      && (forall j :: 0 <= j < |records| ==>
            x.rows[2 + j] == Cells(RecordRow(records[j], TagsText(records[j].tags, lib.marshal).value), Standard))
  {
    ExportShape(records, columns, filePath, lib);
    WriteRecordsSuccess(records, lib.marshal);
    var d := WriteRecords(records, lib.marshal);
    SheetRowsLayout(columns, d.rows, ExportRecords(records, columns, filePath, lib).rows);
  }

  /** A successful export had its sheet, rendered every record's tags (so
      ExportRows describes its sheet), merged the two title groups and
      persisted a width in [10, 50] for each of the four columns. */
  lemma ExportSuccess(records: seq<Record>, columns: seq<ColumnDefinition>, filePath: string, lib: Library)
    requires |columns| == 4
    requires ExportRecords(records, columns, filePath, lib).error.None?
    ensures lib.addSheet("Sheet1").None?
    ensures forall j :: 0 <= j < |records| ==> TagsText(records[j].tags, lib.marshal).Success?
    ensures var x := ExportRecords(records, columns, filePath, lib);
      && x.saveAttempted
      && x.merges == [Merge(0, 0, 1, 0), Merge(0, 2, 1, 0)]
      && (forall c: nat :: c in x.colWidths <==> c < 4)
      && forall c :: c in x.colWidths ==> 10.0 <= x.colWidths[c] <= 50.0
  {
    ExportSavesOnlyAfterEveryPhase(records, columns, filePath, lib);
    ExportShape(records, columns, filePath, lib);
    var ws := FinalWidths(records, columns, lib);
    WidthsAppliedSpec(ws, lib.setColWidth);
  }

  /** The fixed title and header rows of the shipped columns. */
  lemma ShippedRows()
    ensures TitleRow(ShippedColumns, Title)
         == [Cell("Name, Description", Title), Blank(Title), Cell("Tags, Note", Title), Blank(Title)]
    ensures Cells(HeaderValues(ShippedColumns), Standard)
         == [Cell("Name", Standard), Cell("Description", Standard), Cell("Tags", Standard), Cell("Note", Standard)]
  {
    var h := HeaderValues(ShippedColumns);
    assert h[0] == "Name" && h[1] == "Description" && h[2] == "Tags" && h[3] == "Note";
  }

  /** The four records the program exports. */
  const SampleRecords: seq<Record> := [
    Record("-Name1", "First line\nSecond line", ["go", "excel", "example1"], "-Note1"),
    Record("NormalName", "Single line description", ["yaml", "example2"], "Note2"),
    Record("-Name3", "Multi-line\ntest\nexample", ["multi", "line"], "Additional note"),
    Record("SingleTagName", "Single tag description", [], "Single tag note")
  ]

  /** The values the sample records put in the cells checked below, whatever
      their Tags text. */
  lemma SampleRowValues(t0: string, t1: string, t2: string)
    ensures RecordRow(SampleRecords[0], t0)[0] == "'-Name1" && RecordRow(SampleRecords[0], t0)[3] == "'-Note1"
    ensures RecordRow(SampleRecords[1], t1)[0] == "NormalName"
    ensures RecordRow(SampleRecords[2], t2)[0] == "'-Name3" && RecordRow(SampleRecords[2], t2)[3] == "Additional note"
    ensures RecordRow(SampleRecords[3], "")[2] == ""
  {
    assert Sanitize("-Name1") == "'-Name1";
    assert Sanitize("-Note1") == "'-Note1";
    assert Sanitize("-Name3") == "'-Name3";
  }

  /** The sample export: six rows, two merged title groups, the Name and Note
      values that start with `-` carry the marker, and the record without tags
      gets an empty Tags cell. */
  lemma SampleExport(filePath: string, lib: Library)
    requires lib.addSheet("Sheet1").None?
    requires forall j :: 0 <= j < 3 ==> lib.marshal(SampleRecords[j].tags).Success?
    ensures var x := ExportRecords(SampleRecords, ShippedColumns, filePath, lib);
      && |x.rows| == 6
      && (forall j :: 0 <= j < 6 ==> |x.rows[j]| == 4)
      && x.merges == [Merge(0, 0, 1, 0), Merge(0, 2, 1, 0)]
      && x.rows[2][0].value == "'-Name1" && x.rows[2][3].value == "'-Note1"
      && x.rows[4][0].value == "'-Name3"
      && x.rows[3][0].value == "NormalName" && x.rows[4][3].value == "Additional note"
      && x.rows[5][2].value == ""
  {
    var records, columns, m := SampleRecords, ShippedColumns, lib.marshal;
    assert forall j :: 0 <= j < 4 ==> TagsText(records[j].tags, m).Success?;
    ExportRows(records, columns, filePath, lib);
    ExportShape(records, columns, filePath, lib);
    var t := seq(4, j requires 0 <= j < 4 => TagsText(records[j].tags, m).value);
    assert t[3] == "";
    SampleRowValues(t[0], t[1], t[2]);
  }
}
