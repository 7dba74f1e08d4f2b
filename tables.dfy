/** renderTable: column widths measured in bytes over the data rows (at
    least 3 each), rounded borders, separator rows drawn as inner borders,
    cells padded to their column's width and a header row styled apart. */
module Tables {
  import opened Bytes
  import opened Utf8
  import opened Document
  import opened Styles
  import opened Inline

  /** The rendered text of a cell. */
  function CellText(r: Renderer, c: Column): Bytes {
    InlineNodes(r, c.children)
  }

  /** The text of every cell of a row. */
  function CellTexts(r: Renderer, cols: seq<Column>): (ts: seq<Bytes>)
    ensures |ts| == |cols|
    ensures forall i :: 0 <= i < |cols| ==> ts[i] == CellText(r, cols[i])
  {
    seq(|cols|, i requires 0 <= i < |cols| => CellText(r, cols[i]))
  }

  /** The narrowest a column gets. */
  const MinWidth: nat := 3

  function Clamp(n: nat): nat { if n < MinWidth then MinWidth else n }

  /** One data row's cells folded into the widths so far: each column keeps
      the larger of its width and the cell's clamped length; a cell beyond
      the last column appends a column. */
  function Merge(acc: seq<nat>, lens: seq<nat>): (m: seq<nat>)
    ensures |m| == Max(|acc|, |lens|)
  {
    seq(Max(|acc|, |lens|), i requires 0 <= i < Max(|acc|, |lens|) =>
      if i < |lens| then (if i < |acc| then Max(acc[i], Clamp(lens[i])) else Clamp(lens[i]))
      else acc[i])
  }

  function CellLengths(r: Renderer, cols: seq<Column>): (ls: seq<nat>)
    ensures |ls| == |cols|
  {
    seq(|cols|, i requires 0 <= i < |cols| => |CellText(r, cols[i])|)
  }

  /** The first pass of renderTable over the rows, in order, separator rows
      skipped. */
  function ColumnWidths(r: Renderer, rows: seq<Row>): seq<nat>
    decreases |rows|
  {
    if rows == [] then []
    else
      var acc := ColumnWidths(r, rows[..|rows| - 1]);
      var last := rows[|rows| - 1];
      if last.isSpecial then acc else Merge(acc, CellLengths(r, last.columns))
  }

  predicate DataRow(rows: seq<Row>, j: int) {
    0 <= j < |rows| && !rows[j].isSpecial
  }

  /** There are as many columns as the longest data row has cells. */
  lemma {:induction false} WidthsCount(r: Renderer, rows: seq<Row>)
    ensures forall j :: DataRow(rows, j) ==> |rows[j].columns| <= |ColumnWidths(r, rows)|
    ensures |ColumnWidths(r, rows)| > 0 ==>
              exists j :: DataRow(rows, j) && |rows[j].columns| == |ColumnWidths(r, rows)|
    decreases |rows|
  {
    if rows != [] {
      var init := rows[..|rows| - 1];
      WidthsCount(r, init);
      assert forall j :: DataRow(init, j) ==> DataRow(rows, j) && init[j] == rows[j];
      var n := |ColumnWidths(r, init)|;
      if n > 0 {
        var j :| DataRow(init, j) && |init[j].columns| == n;
        assert DataRow(rows, j) && rows[j] == init[j];
      }
    }
  }

  /** Every width is at least 3 and at least the byte length of every cell
      of its column in a data row. */
  lemma {:induction false} WidthsCover(r: Renderer, rows: seq<Row>)
    ensures forall i :: 0 <= i < |ColumnWidths(r, rows)| ==> ColumnWidths(r, rows)[i] >= MinWidth
    ensures forall j, i :: DataRow(rows, j) && 0 <= i < |rows[j].columns| ==>
              i < |ColumnWidths(r, rows)| && |CellText(r, rows[j].columns[i])| <= ColumnWidths(r, rows)[i]
    decreases |rows|
  {
    if rows != [] {
      var init := rows[..|rows| - 1];
      WidthsCover(r, init);
      WidthsMonotone(r, rows);
      assert forall j :: DataRow(rows, j) && j < |rows| - 1 ==> DataRow(init, j) && init[j] == rows[j];
    }
  }

  /** Cells of 5, 2 and 8 bytes in one data row give columns of 5, 3 and 8:
      the short column is raised to the minimum. */
  lemma MergeExample()
    ensures Merge([], [5, 2, 8]) == [5, 3, 8]
  {
  }

  /** Adding a row never narrows a column. */
  lemma WidthsMonotone(r: Renderer, rows: seq<Row>)
    requires rows != []
    ensures var before, after := ColumnWidths(r, rows[..|rows| - 1]), ColumnWidths(r, rows);
            |before| <= |after| && forall i :: 0 <= i < |before| ==> before[i] <= after[i]
  {
  }

  /** Every width over 3 is the byte length of some cell of its column. */
  lemma {:induction false} WidthsAttained(r: Renderer, rows: seq<Row>)
    ensures forall i :: 0 <= i < |ColumnWidths(r, rows)| ==>
              ColumnWidths(r, rows)[i] == MinWidth
              || exists j :: DataRow(rows, j) && i < |rows[j].columns|
                             && ColumnWidths(r, rows)[i] == |CellText(r, rows[j].columns[i])|
    decreases |rows|
  {
    if rows != [] {
      var init := rows[..|rows| - 1];
      WidthsAttained(r, init);
      var before, after := ColumnWidths(r, init), ColumnWidths(r, rows);
      forall i | 0 <= i < |after|
        ensures after[i] == MinWidth
                || exists j :: DataRow(rows, j) && i < |rows[j].columns|
                               && after[i] == |CellText(r, rows[j].columns[i])|
      {
        var last := |rows| - 1;
        if !rows[last].isSpecial && i < |rows[last].columns|
           && after[i] == |CellText(r, rows[last].columns[i])| {
          assert DataRow(rows, last);
        } else if after[i] != MinWidth {
          assert i < |before| && after[i] == before[i];
          var j :| DataRow(init, j) && i < |init[j].columns| && before[i] == |CellText(r, init[j].columns[i])|;
          assert DataRow(rows, j) && rows[j] == init[j];
        }
      }
    }
  }

  /** renderBorder: the left glyph, one run of `fill` two longer than each
      width, a `mid` glyph between neighbouring runs, the right glyph. */
  function Border(theme: Theme, ws: seq<nat>, left: Bytes, mid: Bytes, right: Bytes, fill: Bytes): Bytes {
    theme.apply(Role.TableBorder, left) + Runs(theme, ws, mid, fill)
    + theme.apply(Role.TableBorder, right)
  }

  function Runs(theme: Theme, ws: seq<nat>, mid: Bytes, fill: Bytes): Bytes
    decreases |ws|
  {
    if ws == [] then []
    else
      theme.apply(Role.TableBorder, Repeat(fill, ws[0] + 2))
      + (if |ws| > 1 then theme.apply(Role.TableBorder, mid) else [])
      + Runs(theme, ws[1..], mid, fill)
  }

  function FillRuns(ws: seq<nat>, fill: Bytes): (fs: seq<Bytes>)
    ensures |fs| == |ws|
  {
    seq(|ws|, i requires 0 <= i < |ws| => Repeat(fill, ws[i] + 2))
  }

  /** With the identity styles, a border is its runs joined by `mid`: one run
      of w+2 fill glyphs per column and exactly one mid glyph between two. */
  lemma {:induction false} BorderPlain(ws: seq<nat>, left: Bytes, mid: Bytes, right: Bytes, fill: Bytes)
    ensures Border(Plain(), ws, left, mid, right, fill) == left + Join(FillRuns(ws, fill), mid) + right
  {
    RunsPlain(ws, mid, fill);
  }

  lemma {:induction false} RunsPlain(ws: seq<nat>, mid: Bytes, fill: Bytes)
    ensures Runs(Plain(), ws, mid, fill) == Join(FillRuns(ws, fill), mid)
    decreases |ws|
  {
    if ws != [] {
      RunsPlain(ws[1..], mid, fill);
      assert FillRuns(ws, fill)[1..] == FillRuns(ws[1..], fill);
    }
  }

  /** Whether row `idx` is drawn in the header style: it is the first row and
      the second row is a separator. */
  predicate IsHeader(rows: seq<Row>, idx: int) {
    idx == 0 && |rows| > 1 && rows[1].isSpecial
  }

  function CellRole(header: bool): Role {
    if header then Role.TableHeader else Role.TableCell
  }

  /** `" %-*s "`: the cell text padded to the column width with a space on
      each side. */
  function Cell(content: Bytes, width: nat): Bytes {
    [SPACE] + PadRight(content, width) + [SPACE]
  }

  /** The cells of a row from column `i` on, each followed by a `│`; a cell
      with no column of its own is padded to 3. */
  function Cells(theme: Theme, ws: seq<nat>, contents: seq<Bytes>, role: Role, i: nat): Bytes
    decreases |contents| - i
  {
    if i >= |contents| then []
    else
      var w := if i < |ws| then ws[i] else MinWidth;
      theme.apply(role, Cell(contents[i], w)) + theme.apply(Role.TableBorder, V_LINE)
      + Cells(theme, ws, contents, role, i + 1)
  }

  /** A data row: `│` and then the cells. */
  function RowLine(theme: Theme, ws: seq<nat>, contents: seq<Bytes>, header: bool): Bytes {
    theme.apply(Role.TableBorder, V_LINE) + Cells(theme, ws, contents, CellRole(header), 0)
  }

  /** Only the first row can take the header style, and it takes it
      exactly when the second row is a separator; every other data row
      takes the cell style. */
  lemma HeaderRows(r: Renderer, rows: seq<Row>, ws: seq<nat>)
    ensures forall j :: 0 <= j < |rows| && !rows[j].isSpecial ==>
              RowText(r, rows, ws, j)
              == r.theme.apply(Role.TableBorder, V_LINE)
                 + Cells(r.theme, ws, CellTexts(r, rows[j].columns),
                         if j == 0 && |rows| > 1 && rows[1].isSpecial then Role.TableHeader else Role.TableCell, 0)
  {
  }

  /** The header changes the style and nothing else: with the identity
      styles a header row reads exactly like a data row. */
  lemma HeaderStyleOnly(ws: seq<nat>, contents: seq<Bytes>)
    ensures RowLine(Plain(), ws, contents, true) == RowLine(Plain(), ws, contents, false)
  {
    CellsAnyRole(ws, contents, 0);
  }

  lemma {:induction false} CellsAnyRole(ws: seq<nat>, contents: seq<Bytes>, i: nat)
    ensures Cells(Plain(), ws, contents, Role.TableHeader, i) == Cells(Plain(), ws, contents, Role.TableCell, i)
    decreases |contents| - i
  {
    if i < |contents| {
      CellsAnyRole(ws, contents, i + 1);
    }
  }

  /** The rows from `idx` on, each with its newline. */
  function RowLines(r: Renderer, rows: seq<Row>, ws: seq<nat>, idx: nat): Bytes
    decreases |rows| - idx
  {
    if idx >= |rows| then []
    else RowText(r, rows, ws, idx) + [NEWLINE] + RowLines(r, rows, ws, idx + 1)
  }

  /** Row `idx`: a separator as an inner border, any other row as its cells. */
  function RowText(r: Renderer, rows: seq<Row>, ws: seq<nat>, idx: nat): Bytes
    requires idx < |rows|
  {
    if rows[idx].isSpecial then Border(r.theme, ws, TEE_RIGHT, CROSS, TEE_LEFT, H_LINE)
    else RowLine(r.theme, ws, CellTexts(r, rows[idx].columns), IsHeader(rows, idx))
  }

  function RowTexts(r: Renderer, rows: seq<Row>, ws: seq<nat>): (ts: seq<Bytes>)
    ensures |ts| == |rows| && forall i :: 0 <= i < |rows| ==> ts[i] == RowText(r, rows, ws, i)
  {
    seq(|rows|, i requires 0 <= i < |rows| => RowText(r, rows, ws, i))
  }

  /** The row lines are the row texts, each with its newline. */
  lemma {:induction false} RowLinesEach(r: Renderer, rows: seq<Row>, ws: seq<nat>, idx: nat)
    requires idx <= |rows|
    ensures RowLines(r, rows, ws, idx) == EachLine(RowTexts(r, rows, ws)[idx..])
    decreases |rows| - idx
  {
    if idx < |rows| {
      RowLinesEach(r, rows, ws, idx + 1);
      assert RowTexts(r, rows, ws)[idx..][1..] == RowTexts(r, rows, ws)[idx + 1..];
    }
  }

  /** renderTable */
  function TableOut(r: Renderer, rows: seq<Row>): Bytes {
    if rows == [] then []
    else
      var ws := ColumnWidths(r, rows);
      if ws == [] then []
      else
        Border(r.theme, ws, ROUND_TOP_LEFT, TEE_DOWN, ROUND_TOP_RIGHT, H_LINE) + [NEWLINE]
        + RowLines(r, rows, ws, 0)
        + Border(r.theme, ws, ROUND_BOTTOM_LEFT, TEE_UP, ROUND_BOTTOM_RIGHT, H_LINE)
  }

  /** A table renders as nothing exactly when it has no rows or no data
      cell; with the identity styles every other table shows its borders. */
  lemma TableEmpty(r: Renderer, rows: seq<Row>)
    ensures (rows == [] || forall j :: DataRow(rows, j) ==> rows[j].columns == [])
            ==> TableOut(r, rows) == []
    ensures r.theme == Plain() && TableOut(r, rows) == [] ==>
            rows == [] || forall j :: DataRow(rows, j) ==> rows[j].columns == []
  {
    WidthsCount(r, rows);
    if rows != [] && r.theme == Plain() {
      var ws := ColumnWidths(r, rows);
      if ws != [] {
        assert |TableOut(r, rows)| >= |ROUND_TOP_LEFT|;
      }
    }
  }
  // Alignment: with the identity styles every data row is as many runes
  // wide as the borders over the columns it fills.

  /** The runes a stretch of columns takes in a border or a row: each width,
      the two padding spaces and one glyph after it. */
  function Span(ws: seq<nat>, i: nat, n: nat): nat
    requires n <= |ws|
    decreases n - i
  {
    if i >= n then 0 else ws[i] + 3 + Span(ws, i + 1, n)
  }

  /** The box-drawing glyphs: three bytes, all in U+2500..U+257F. */
  predicate BoxGlyph(g: Bytes) {
    |g| == 3 && g[0] == 0xE2 && 0x94 <= g[1] <= 0x95 && 0x80 <= g[2] <= 0xBF
  }

  lemma GlyphRunes(g: Bytes)
    requires BoxGlyph(g)
    ensures Valid(g) && RuneCount(g) == 1
  {
    assert g[3..] == [];
    assert Decode(g) == (Decode(g).0, 3);
  }

  lemma SpaceRunes(n: nat)
    ensures Valid(Repeat([SPACE], n)) && RuneCount(Repeat([SPACE], n)) == n
  {
    assert Decode([SPACE]) == (SPACE as int, 1);
    assert [SPACE][1..] == [];
    RuneCountRepeat([SPACE], n);
  }

  /** One padded cell and the `│` after it. */
  lemma CellRunes(c: Bytes, w: nat, rest: Bytes)
    ensures RuneCount(Cell(c, w) + V_LINE + rest) == Max(w, RuneCount(c)) + 3 + RuneCount(rest)
  {
    var padded, glyphRest := PadRight(c, w), V_LINE + rest;
    var after := [SPACE] + glyphRest;
    CellSplit(c, w, rest);
    OneSpace();
    VLineRunes(rest);
    RuneCountConcatValid([SPACE], glyphRest);
    PadRightRunes(c, w);
    RuneCountConcatAscii(padded, after);
    RuneCountConcatValid([SPACE], padded + after);
  }

  lemma CellSplit(c: Bytes, w: nat, rest: Bytes)
    ensures Cell(c, w) + V_LINE + rest == [SPACE] + (PadRight(c, w) + ([SPACE] + (V_LINE + rest)))
  {
  }

  lemma VLineRunes(rest: Bytes)
    ensures RuneCount(V_LINE + rest) == 1 + RuneCount(rest)
  {
    GlyphRunes(V_LINE);
    RuneCountConcatValid(V_LINE, rest);
  }

  lemma OneSpace()
    ensures Valid([SPACE]) && RuneCount([SPACE]) == 1
  {
    SpaceRunes(1);
    assert Repeat([SPACE], 1) == [SPACE];
  }

  /** The cells from column `i` on take the widths of their columns. */
  lemma {:induction false} CellsRunes(ws: seq<nat>, contents: seq<Bytes>, role: Role, i: nat)
    requires |contents| <= |ws|
    requires forall k :: i <= k < |contents| ==> |contents[k]| <= ws[k]
    ensures RuneCount(Cells(Plain(), ws, contents, role, i)) == Span(ws, i, |contents|)
    decreases |contents| - i
  {
    if i < |contents| {
      CellsRunes(ws, contents, role, i + 1);
      var rest := Cells(Plain(), ws, contents, role, i + 1);
      CellRunes(contents[i], ws[i], rest);
      assert RuneCount(contents[i]) <= |contents[i]|;
    }
  }

  /** The border runs: one fewer mid glyph than columns. */
  lemma {:induction false} RunsRunes(ws: seq<nat>, mid: Bytes, fill: Bytes)
    requires ws != []
    requires Valid(mid) && RuneCount(mid) == 1 && RepeatRunes(fill)
    ensures RuneCount(Runs(Plain(), ws, mid, fill)) + 1 == Span(ws, 0, |ws|)
    ensures Valid(Runs(Plain(), ws, mid, fill))
    decreases |ws|
  {
    if |ws| == 1 {
      RunsOne(ws, mid, fill);
    } else {
      RunsRunes(ws[1..], mid, fill);
      SpanShift(ws, 1, |ws|);
      RunsCount(ws, mid, fill, ws[0] + 2, Span(ws, 1, |ws|));
    }
  }

  /** Every repetition of `fill` is valid and has as many runes as copies. */
  ghost predicate RepeatRunes(fill: Bytes) {
    forall n: nat :: Valid(Repeat(fill, n)) && RuneCount(Repeat(fill, n)) == n
  }

  lemma FillRunes(fill: Bytes)
    requires Valid(fill) && RuneCount(fill) == 1
    ensures RepeatRunes(fill)
  {
    forall n: nat ensures Valid(Repeat(fill, n)) && RuneCount(Repeat(fill, n)) == n {
      RuneCountRepeat(fill, n);
    }
  }

  lemma RunsOne(ws: seq<nat>, mid: Bytes, fill: Bytes)
    requires |ws| == 1 && RepeatRunes(fill)
    ensures RuneCount(Runs(Plain(), ws, mid, fill)) + 1 == Span(ws, 0, |ws|)
    ensures Valid(Runs(Plain(), ws, mid, fill))
  {
    var run := Repeat(fill, ws[0] + 2);
    assert Runs(Plain(), ws[1..], mid, fill) == [];
    assert Runs(Plain(), ws, mid, fill) == run + [] + [];
    assert run + [] + [] == run;
  }

  /** Runes of a run, a one-rune glyph and the runs after them. */
  lemma RunsCount(ws: seq<nat>, mid: Bytes, fill: Bytes, a: nat, b: nat)
    requires |ws| > 1
    requires Valid(Repeat(fill, ws[0] + 2)) && RuneCount(Repeat(fill, ws[0] + 2)) == a
    requires Valid(mid) && RuneCount(mid) == 1
    requires Valid(Runs(Plain(), ws[1..], mid, fill)) && RuneCount(Runs(Plain(), ws[1..], mid, fill)) + 1 == b
    ensures RuneCount(Runs(Plain(), ws, mid, fill)) == a + b && Valid(Runs(Plain(), ws, mid, fill))
  {
    var run, rest := Repeat(fill, ws[0] + 2), Runs(Plain(), ws[1..], mid, fill);
    RunsUnfold(ws, mid, fill);
    RuneCount3(run, mid, rest);
  }

  lemma RunsUnfold(ws: seq<nat>, mid: Bytes, fill: Bytes)
    requires |ws| > 1
    ensures Runs(Plain(), ws, mid, fill) == Repeat(fill, ws[0] + 2) + mid + Runs(Plain(), ws[1..], mid, fill)
  {
  }

  /** Dropping the first width shifts the stretch by one column. */
  lemma {:induction false} SpanShift(ws: seq<nat>, i: nat, n: nat)
    requires 1 <= i <= n <= |ws|
    ensures Span(ws[1..], i - 1, n - 1) == Span(ws, i, n)
    decreases n - i
  {
    if i < n {
      SpanShift(ws, i + 1, n);
    }
  }

  lemma HLineRunes()
    ensures Valid(H_LINE) && RuneCount(H_LINE) == 1
  {
    GlyphRunes(H_LINE);
  }

  lemma BorderConcat(ws: seq<nat>, left: Bytes, mid: Bytes, right: Bytes)
    ensures Border(Plain(), ws, left, mid, right, H_LINE) == left + (Runs(Plain(), ws, mid, H_LINE) + right)
  {
  }

  /** With the identity style, a border over at least one column of widths
      `ws` takes one rune more than the stretch of all of them. */
  lemma BorderRunes(ws: seq<nat>, left: Bytes, mid: Bytes, right: Bytes)
    requires ws != []
    requires BoxGlyph(left) && BoxGlyph(mid) && BoxGlyph(right)
    ensures RuneCount(Border(Plain(), ws, left, mid, right, H_LINE)) == Span(ws, 0, |ws|) + 1
  {
    GlyphRunes(left);
    GlyphRunes(mid);
    GlyphRunes(right);
    HLineRunes();
    FillRunes(H_LINE);
    RunsRunes(ws, mid, H_LINE);
    var runs := Runs(Plain(), ws, mid, H_LINE);
    var border := Border(Plain(), ws, left, mid, right, H_LINE);
    BorderConcat(ws, left, mid, right);
    RuneCountConcatValid(left, runs + right);
    RuneCountConcatValid(runs, right);
  }

  /** With the identity styles, a data row is as wide in runes as the border
      stretch over its cells, and a row that fills every column is exactly
      as wide as the table's borders: cells are measured in bytes, which is
      never less than their runes, so no cell overflows its column. */
  lemma RowAligned(r: Renderer, rows: seq<Row>, j: int)
    requires r.theme == Plain() && DataRow(rows, j)
    ensures var ws := ColumnWidths(r, rows);
            var line := RowLine(r.theme, ws, CellTexts(r, rows[j].columns), IsHeader(rows, j));
            && |rows[j].columns| <= |ws|
            && RuneCount(line) == 1 + Span(ws, 0, |rows[j].columns|)
            && (0 < |rows[j].columns| == |ws| ==>
                  RuneCount(line) == RuneCount(Border(r.theme, ws, ROUND_TOP_LEFT, TEE_DOWN, ROUND_TOP_RIGHT, H_LINE))
                  && RuneCount(line) == RuneCount(Border(r.theme, ws, TEE_RIGHT, CROSS, TEE_LEFT, H_LINE))
                  && RuneCount(line) == RuneCount(Border(r.theme, ws, ROUND_BOTTOM_LEFT, TEE_UP, ROUND_BOTTOM_RIGHT, H_LINE)))
  {
    var ws := ColumnWidths(r, rows);
    var cols := rows[j].columns;
    var contents := CellTexts(r, cols);
    WidthsCover(r, rows);
    WidthsCount(r, rows);
    CellsRunes(ws, contents, CellRole(IsHeader(rows, j)), 0);
    var cells := Cells(Plain(), ws, contents, CellRole(IsHeader(rows, j)), 0);
    GlyphRunes(V_LINE);
    RuneCountConcatValid(V_LINE, cells);
    if 0 < |cols| == |ws| {
      BorderRunes(ws, ROUND_TOP_LEFT, TEE_DOWN, ROUND_TOP_RIGHT);
      BorderRunes(ws, TEE_RIGHT, CROSS, TEE_LEFT);
      BorderRunes(ws, ROUND_BOTTOM_LEFT, TEE_UP, ROUND_BOTTOM_RIGHT);
    }
  }
  // The loops of renderTable.

  /** Growing the widths by cell `i` of a row: a new column when `i` is past
      the last one, else the larger of the two. */
  lemma MergeStep(acc: seq<nat>, lens: seq<nat>, i: nat)
    requires i < |lens|
    ensures var cw := Merge(acc, lens[..i]);
            Merge(acc, lens[..i + 1])
            == if i >= |cw| then cw + [Clamp(lens[i])] else cw[i := Max(cw[i], Clamp(lens[i]))]
  {
    var cw := Merge(acc, lens[..i]);
    var next := Merge(acc, lens[..i + 1]);
    var want := if i >= |cw| then cw + [Clamp(lens[i])] else cw[i := Max(cw[i], Clamp(lens[i]))];
    assert |next| == |want|;
    forall k | 0 <= k < |next| ensures next[k] == want[k] {
      if k < i {
        assert lens[..i + 1][k] == lens[..i][k];
      }
    }
  }

  /** The first pass: `colWidths` grows by append and is raised in place. */
  method ComputeColumnWidths(r: Renderer, rows: seq<Row>) returns (colWidths: seq<nat>)
    ensures colWidths == ColumnWidths(r, rows)
  {
    colWidths := [];
    var k := 0;
    while k < |rows|
      invariant 0 <= k <= |rows|
      invariant colWidths == ColumnWidths(r, rows[..k])
    {
      var row := rows[k];
      assert rows[..k + 1][..k] == rows[..k];
      if !row.isSpecial {
        ghost var acc := colWidths;
        ghost var lens := CellLengths(r, row.columns);
        var i := 0;
        while i < |row.columns|
          invariant 0 <= i <= |row.columns|
          invariant colWidths == Merge(acc, lens[..i])
        {
          var content := InlineNodes(r, row.columns[i].children);
          var width := |content|;
          if width < 3 {
            width := 3;
          }
          MergeStep(acc, lens, i);
          if i >= |colWidths| {
            colWidths := colWidths + [width];
          } else if width > colWidths[i] {
            colWidths := colWidths[i := width];
          }
          i := i + 1;
        }
        assert lens[..i] == lens;
      }
      k := k + 1;
    }
    assert rows[..k] == rows;
  }

  /** renderBorder's loop. */
  method WriteBorder(theme: Theme, ws: seq<nat>, left: Bytes, mid: Bytes, right: Bytes, fill: Bytes)
    returns (b: Bytes)
    ensures b == Border(theme, ws, left, mid, right, fill)
  {
    b := theme.apply(Role.TableBorder, left);
    var i := 0;
    while i < |ws|
      invariant 0 <= i <= |ws|
      invariant b + Runs(theme, ws[i..], mid, fill) + theme.apply(Role.TableBorder, right)
                == Border(theme, ws, left, mid, right, fill)
    {
      assert ws[i..][1..] == ws[i + 1..];
      b := b + theme.apply(Role.TableBorder, Repeat(fill, ws[i] + 2));
      if i < |ws| - 1 {
        b := b + theme.apply(Role.TableBorder, mid);
      }
      i := i + 1;
    }
    b := b + theme.apply(Role.TableBorder, right);
  }

  lemma CellsStep(theme: Theme, ws: seq<nat>, contents: seq<Bytes>, role: Role, i: nat, line: Bytes, target: Bytes, styled: Bytes)
    requires i < |contents| && line + Cells(theme, ws, contents, role, i) == target
    requires styled == theme.apply(role, Cell(contents[i], if i < |ws| then ws[i] else MinWidth))
    ensures (line + styled + theme.apply(Role.TableBorder, V_LINE)) + Cells(theme, ws, contents, role, i + 1) == target
  {
    var bar, rest := theme.apply(Role.TableBorder, V_LINE), Cells(theme, ws, contents, role, i + 1);
    assert Cells(theme, ws, contents, role, i) == styled + bar + rest;
    assert (line + styled + bar) + rest == line + (styled + bar + rest);
  }

  /** One data row: `│`, then each cell padded and followed by `│`. */
  method WriteRow(r: Renderer, ws: seq<nat>, cols: seq<Column>, isHeader: bool) returns (line: Bytes)
    ensures line == RowLine(r.theme, ws, CellTexts(r, cols), isHeader)
  {
    ghost var contents := CellTexts(r, cols);
    ghost var role := CellRole(isHeader);
    line := r.theme.apply(Role.TableBorder, V_LINE);
    var i := 0;
    while i < |cols|
      invariant 0 <= i <= |cols|
      invariant line + Cells(r.theme, ws, contents, role, i) == RowLine(r.theme, ws, contents, isHeader)
    {
      var content := InlineNodes(r, cols[i].children);
      var width := 3;
      if i < |ws| {
        width := ws[i];
      }
      var padded := Cell(content, width);
      var styled;
      if isHeader {
        styled := r.theme.apply(Role.TableHeader, padded);
      } else {
        styled := r.theme.apply(Role.TableCell, padded);
      }
      CellsStep(r.theme, ws, contents, role, i, line, RowLine(r.theme, ws, contents, isHeader), styled);
      line := line + styled + r.theme.apply(Role.TableBorder, V_LINE);
      i := i + 1;
    }
  }

  lemma TableOutShape(r: Renderer, rows: seq<Row>, ws: seq<nat>)
    requires rows != [] && ws == ColumnWidths(r, rows) && ws != []
    ensures TableOut(r, rows)
            == Border(r.theme, ws, ROUND_TOP_LEFT, TEE_DOWN, ROUND_TOP_RIGHT, H_LINE) + [NEWLINE]
               + RowLines(r, rows, ws, 0)
               + Border(r.theme, ws, ROUND_BOTTOM_LEFT, TEE_UP, ROUND_BOTTOM_RIGHT, H_LINE)
  {
  }

  /** The second pass: each row, a separator as an inner border, with its
      newline. */
  method WriteRows(r: Renderer, rows: seq<Row>, colWidths: seq<nat>) returns (out: Bytes)
    ensures out == RowLines(r, rows, colWidths, 0)
  {
    ghost var texts := RowTexts(r, rows, colWidths);
    out := [];
    var rowIdx := 0;
    assert texts[0..] == texts;
    while rowIdx < |rows|
      invariant 0 <= rowIdx <= |rows|
      invariant out + EachLine(texts[rowIdx..]) == EachLine(texts)
    {
      var row := rows[rowIdx];
      var line;
      if row.isSpecial {
        line := WriteBorder(r.theme, colWidths, TEE_RIGHT, CROSS, TEE_LEFT, H_LINE);
      } else {
        var isHeader := rowIdx == 0 && |rows| > 1 && rows[1].isSpecial;
        line := WriteRow(r, colWidths, row.columns, isHeader);
      }
      EachLineStep(texts, rowIdx, out, EachLine(texts));
      out := out + line + [NEWLINE];
      rowIdx := rowIdx + 1;
    }
    RowLinesEach(r, rows, colWidths, 0);
  }

  /** renderTable as the source writes it. */
  method WriteTable(r: Renderer, rows: seq<Row>) returns (out: Bytes)
    ensures out == TableOut(r, rows)
  {
    if |rows| == 0 {
      return [];
    }
    var colWidths := ComputeColumnWidths(r, rows);
    if |colWidths| == 0 {
      return [];
    }
    var top := WriteBorder(r.theme, colWidths, ROUND_TOP_LEFT, TEE_DOWN, ROUND_TOP_RIGHT, H_LINE);
    var body := WriteRows(r, rows, colWidths);
    var bottom := WriteBorder(r.theme, colWidths, ROUND_BOTTOM_LEFT, TEE_UP, ROUND_BOTTOM_RIGHT, H_LINE);
    TableOutShape(r, rows, colWidths);
    out := top + [NEWLINE] + body + bottom;
  }
}
