/** The display-width estimator (calculateDisplayWidth) and the clamp applied
    to the measured widths when the columns are sized (adjustColumnWidths).
    The width of one line of text is supplied by the caller as `lineWidth`:
    it stands for runewidth.StringWidth, whose Unicode width tables are not
    part of this model. */
module Width {
  import opened Text

  function MaxNat(a: nat, b: nat): nat {
    if a >= b then a else b
  }

  function MaxReal(a: real, b: real): real {
    if a >= b then a else b
  }

  function MinReal(a: real, b: real): real {
    if a <= b then a else b
  }

  /** The largest line width over `lines`, 0 when there are none; taken line
      by line from the front, as the estimator's loop does. */
  function MaxWidth(lines: seq<string>, lineWidth: string -> nat): nat
    decreases |lines|
  {
    if lines == [] then 0
    else MaxNat(MaxWidth(lines[..|lines| - 1], lineWidth), lineWidth(lines[|lines| - 1]))
  }

  /** MaxWidth is the maximum: no line is wider, and some line (if any) is
      exactly that wide. */
  lemma {:induction false} MaxWidthIsMax(lines: seq<string>, lineWidth: string -> nat)
    ensures forall i :: 0 <= i < |lines| ==> lineWidth(lines[i]) <= MaxWidth(lines, lineWidth)
    ensures lines == [] ==> MaxWidth(lines, lineWidth) == 0
    ensures lines != [] ==>
      exists i :: 0 <= i < |lines| && MaxWidth(lines, lineWidth) == lineWidth(lines[i])
    decreases |lines|
  {
    if lines != [] {
      var init := lines[..|lines| - 1];
      MaxWidthIsMax(init, lineWidth);
      assert forall i :: 0 <= i < |init| ==> lines[i] == init[i];
      if init != [] && MaxWidth(init, lineWidth) >= lineWidth(lines[|lines| - 1]) {
        var j :| 0 <= j < |init| && MaxWidth(init, lineWidth) == lineWidth(init[j]);
        assert MaxWidth(lines, lineWidth) == lineWidth(lines[j]);
      } else {
        assert MaxWidth(lines, lineWidth) == lineWidth(lines[|lines| - 1]);
      }
    }
  }

  /** The display width of a possibly multi-line text: the width of its widest
      line. */
  function DisplayWidth(content: string, lineWidth: string -> nat): nat {
    MaxWidth(Split(content), lineWidth)
  }

  /** The display width bounds every line of the text and is attained by one
      of them (a text always has at least one line). */
  lemma DisplayWidthIsWidestLine(content: string, lineWidth: string -> nat)
    ensures forall l :: l in Split(content) ==> lineWidth(l) <= DisplayWidth(content, lineWidth)
    ensures exists l :: l in Split(content) && DisplayWidth(content, lineWidth) == lineWidth(l)
  {
    var lines := Split(content);
    MaxWidthIsMax(lines, lineWidth);
    var i :| 0 <= i < |lines| && MaxWidth(lines, lineWidth) == lineWidth(lines[i]);
    assert lines[i] in lines;
  }

  /** The empty text has width 0 for any line measure that gives the empty
      line width 0, as runewidth.StringWidth does. */
  lemma EmptyTextWidth(lineWidth: string -> nat)
    requires lineWidth("") == 0
    ensures DisplayWidth("", lineWidth) == 0
  {
    assert Split("") == [""];
    assert [""][..0] == [];
  }

  /** The line measure for text whose every character is single-width. */
  function SingleWidth(line: string): nat {
    |line|
  }

  /** "a\nbb\nccc" is as wide as its longest line, "ccc". */
  lemma ThreeLineExample()
    ensures DisplayWidth("a\nbb\nccc", SingleWidth) == 3
  {
    var lines := ["a", "bb", "ccc"];
    assert Join(lines) == "a\nbb\nccc";
    SplitJoin(lines);
    assert lines[..2][..1] == ["a"];
    assert lines[..2] == ["a", "bb"];
    assert lines[..1] == ["a"];
    assert MaxWidth(lines[..1], SingleWidth) == 1;
  }

  /** calculateDisplayWidth: the maximum over the lines of `content`, taken
      with a running maximum that starts at 0. */
  method CalculateDisplayWidth(content: string, lineWidth: string -> nat) returns (width: real)
    ensures width == DisplayWidth(content, lineWidth) as real
  {
    var lines := Split(content);
    width := 0.0;
    var i := 0;
    while i < |lines|
      invariant 0 <= i <= |lines|
      invariant width == MaxWidth(lines[..i], lineWidth) as real
    {
      assert lines[..i + 1][..i] == lines[..i];
      width := MaxReal(width, lineWidth(lines[i]) as real);
      i := i + 1;
    }
    assert lines[..i] == lines;
  }

  /** The width recorded for a cell value: the display width of the value with
      every apostrophe removed (strings.ReplaceAll(value, "'", "")). */
  function MeasuredWidth(value: string, lineWidth: string -> nat): nat {
    DisplayWidth(StripApostrophes(value), lineWidth)
  }

  /** The sanitizer's marker does not widen a column. */
  lemma SanitizedWidth(value: string, lineWidth: string -> nat)
    ensures MeasuredWidth(Sanitize(value), lineWidth) == MeasuredWidth(value, lineWidth)
  {
    MarkerNotMeasured(value);
  }

  /** The persisted column width: 1.2 times the measured width, but no less
      than 10 and no more than 50. */
  function AdjustedWidth(width: real): (r: real)
    ensures 10.0 <= r <= 50.0
    ensures 10.0 <= width * 1.2 <= 50.0 ==> r == width * 1.2
    ensures width * 1.2 < 10.0 ==> r == 10.0
    ensures width * 1.2 > 50.0 ==> r == 50.0
  {
    MinReal(50.0, MaxReal(10.0, width * 1.2))
  }

  /** A wider measurement never gives a narrower column. */
  lemma AdjustedWidthMonotone(a: real, b: real)
    requires a <= b
    ensures AdjustedWidth(a) <= AdjustedWidth(b)
  {
  }

  /** The floor, the ceiling and a width in between. */
  lemma AdjustedWidthExamples()
    ensures AdjustedWidth(0.0) == 10.0
    ensures AdjustedWidth(100.0) == 50.0
    ensures AdjustedWidth(20.0) == 24.0
  {
  }
}
