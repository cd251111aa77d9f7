/**
 * The console table the CLI prints lists with: headings, rows of cells
 * rendered with %v, and a running width per column that every heading and
 * cell is padded to. Widths and lengths are Go's len(), in UTF-8 bytes.
 * Colouring is not modelled: a line is its plain text.
 */
module ConsoleTable {
  import opened Text
  import opened StackExchange

  /** A heading or a cell: its text and a length (for a heading, the column's width). */
  datatype TableCol = TableCol(data: string, colLength: int)

  /** The length of the border line. */
  const BorderLength := 120

  /** A border line: BorderLength dashes. */
  function Border(): (r: string)
    ensures |r| == BorderLength && forall i :: 0 <= i < |r| ==> r[i] == '-'
  {
    seq(BorderLength, i => '-')
  }

  /** text right-padded with spaces from length to width; unchanged when it is already wide enough. */
  function Pad(text: string, length: int, width: int): string {
    if width > length then text + Spaces(width - length) else text
  }

  /** Padding a text to a width at least its length yields exactly that width, the text followed by spaces. */
  lemma PadExact(text: string, width: int)
    requires ByteLen(text) <= width
    ensures ByteLen(Pad(text, ByteLen(text), width)) == width
    ensures |Pad(text, ByteLen(text), width)| >= |text| && Pad(text, ByteLen(text), width)[..|text|] == text
    ensures forall i :: |text| <= i < |Pad(text, ByteLen(text), width)| ==> Pad(text, ByteLen(text), width)[i] == ' '
  {
    if width > ByteLen(text) {
      ByteLenAppend(text, Spaces(width - ByteLen(text)));
      ByteLenSpaces(width - ByteLen(text));
    }
  }

  /** The cells AddRow makes of its arguments: each rendered with %v, with its length. */
  function Cells(a: seq<Value>): (row: seq<TableCol>)
    ensures |row| == |a|
    ensures forall i :: 0 <= i < |a| ==> row[i].data == ValueString(a[i]) && row[i].colLength == ByteLen(row[i].data)
  {
    seq(|a|, i requires 0 <= i < |a| => TableCol(ValueString(a[i]), ByteLen(ValueString(a[i]))))
  }

  /** The columns after a row: each width raised to its new cell's length where that is longer. */
  function Widen(cols: seq<TableCol>, row: seq<TableCol>): (r: seq<TableCol>)
    requires |row| == |cols|
    ensures |r| == |cols|
    ensures forall i :: 0 <= i < |cols| ==> r[i].data == cols[i].data
    ensures forall i :: 0 <= i < |cols| ==> r[i].colLength >= cols[i].colLength && r[i].colLength >= row[i].colLength
    ensures forall i :: 0 <= i < |cols| ==> r[i].colLength == cols[i].colLength || r[i].colLength == row[i].colLength
  {
    seq(|cols|, i requires 0 <= i < |cols| =>
      if row[i].colLength > cols[i].colLength then TableCol(cols[i].data, row[i].colLength) else cols[i])
  }

  /** The headings as printed: each padded to its column's width. */
  function HeadingCells(cols: seq<TableCol>): (r: seq<string>)
    ensures |r| == |cols|
  {
    seq(|cols|, i requires 0 <= i < |cols| => Pad(cols[i].data, ByteLen(cols[i].data), cols[i].colLength))
  }

  /** A row's cells as printed: each padded to its column's width. */
  function RowCells(cols: seq<TableCol>, row: seq<TableCol>): (r: seq<string>)
    requires |row| <= |cols|
    ensures |r| == |row|
  {
    seq(|row|, i requires 0 <= i < |row| => Pad(row[i].data, row[i].colLength, cols[i].colLength))
  }

  /** A printed line: an empty first part, then the parts, all separated by " | ". */
  function Line(parts: seq<string>): string {
    Join([""] + parts, " | ")
  }

  class Table {
    var colCount: int
    var cols: seq<TableCol>
    var rows: seq<seq<TableCol>>

    /**
     * One heading per column; every cell's length is its text's; and
     * every column is at least as wide as its heading and each of its cells.
     */
    ghost predicate Valid()
      reads this
    {
      && colCount == |cols|
      && (forall i :: 0 <= i < |cols| ==> cols[i].colLength >= ByteLen(cols[i].data))
      && (forall r :: 0 <= r < |rows| ==> |rows[r]| == colCount)
      && (forall r, i :: 0 <= r < |rows| && 0 <= i < |rows[r]| ==> rows[r][i].colLength == ByteLen(rows[r][i].data))
      && (forall r, i :: 0 <= r < |rows| && 0 <= i < |rows[r]| && i < |cols| ==> cols[i].colLength >= rows[r][i].colLength)
    }

    /** NewTable: one column per heading, as wide as the heading, and no rows. */
    constructor (h: seq<string>)
      ensures Valid()
      ensures colCount == |h| && rows == []
      ensures |cols| == |h| && forall i :: 0 <= i < |h| ==> cols[i] == TableCol(h[i], ByteLen(h[i]))
    {
      colCount := |h|;
      cols := [];
      rows := [];
      new;
      var j := 0;
      while j < |h|
        invariant 0 <= j <= |h|
        invariant colCount == |h| && rows == []
        invariant |cols| == j && forall i :: 0 <= i < j ==> cols[i] == TableCol(h[i], ByteLen(h[i]))
      {
        cols := cols + [TableCol(h[j], ByteLen(h[j]))];
        j := j + 1;
      }
    }

    /**
     * AddRow: a row of exactly colCount values is appended as cells and
     * widens the columns it overflows; any other count changes nothing.
     */
    method AddRow(a: seq<Value>)
      requires Valid()
      modifies this
      ensures Valid()
      ensures colCount == old(colCount)
      ensures |a| != old(colCount) ==> cols == old(cols) && rows == old(rows)
      ensures |a| == old(colCount) ==> rows == old(rows) + [Cells(a)] && cols == Widen(old(cols), Cells(a))
    {
      if colCount != |a| {
        return;
      }
      var row := AddCells(a);
      rows := rows + [row];
      AddRowKeepsValid(old(cols), old(rows), a);
    }

    /** The loop of AddRow: render each value as a cell, widening its column where the cell is longer. */
    method AddCells(a: seq<Value>) returns (row: seq<TableCol>)
      requires |a| == |cols|
      modifies this
      ensures row == Cells(a) && cols == Widen(old(cols), Cells(a))
      ensures rows == old(rows) && colCount == old(colCount)
    {
      row := [];
      var i := 0;
      while i < |a|
        invariant 0 <= i <= |a|
        invariant |cols| == |a| && rows == old(rows) && colCount == old(colCount)
        invariant row == Cells(a)[..i]
        invariant forall j :: 0 <= j < |a| ==> cols[j] == if j < i then Widen(old(cols), Cells(a))[j] else old(cols)[j]
      {
        var rowCol := ValueString(a[i]);
        var colLen := ByteLen(rowCol);
        var col := TableCol(rowCol, colLen);
        if colLen > cols[i].colLength {
          cols := cols[i := TableCol(cols[i].data, colLen)];
        }
        row := row + [col];
        i := i + 1;
      }
      assert row == Cells(a);
    }

    /** Print: the border, the heading line, the border, one line per row, and the border. */
    method Print() returns (lines: seq<string>)
      requires Valid()
      ensures |lines| == |rows| + 4
      ensures lines[0] == Border() && lines[2] == Border() && lines[|lines| - 1] == Border()
      ensures lines[1] == Line(HeadingCells(cols))
      ensures forall r :: 0 <= r < |rows| ==> lines[r + 3] == Line(RowCells(cols, rows[r]))
      ensures forall i :: 0 <= i < |cols| ==> ByteLen(HeadingCells(cols)[i]) == cols[i].colLength
      ensures forall r, i :: 0 <= r < |rows| && 0 <= i < |cols| ==> ByteLen(RowCells(cols, rows[r])[i]) == cols[i].colLength
    {
      PrintedWidths(cols, rows);
      var heading := HeadingLine();
      var body := RowLines();
      lines := [Border(), heading, Border()] + body + [Border()];
    }

    /** The lines of the rows, in order. */
    method RowLines() returns (lines: seq<string>)
      requires forall r :: 0 <= r < |rows| ==> |rows[r]| <= |cols|
      ensures |lines| == |rows|
      ensures forall r :: 0 <= r < |rows| ==> lines[r] == Line(RowCells(cols, rows[r]))
    {
      lines := [];
      var r := 0;
      while r < |rows|
        invariant 0 <= r <= |rows|
        invariant |lines| == r
        invariant forall k :: 0 <= k < r ==> lines[k] == Line(RowCells(cols, rows[k]))
      {
        var line := RowLine(rows[r]);
        lines := lines + [line];
        r := r + 1;
      }
    }

    /** The heading line: each heading padded to its column's width. */
    method HeadingLine() returns (line: string)
      ensures line == Line(HeadingCells(cols))
    {
      var row: seq<string> := [""];
      var i := 0;
      while i < |cols|
        invariant 0 <= i <= |cols|
        invariant row == [""] + HeadingCells(cols)[..i]
      {
        var headingLen := ByteLen(cols[i].data);
        var raw := cols[i].data;
        if cols[i].colLength > headingLen {
          raw := raw + Spaces(cols[i].colLength - headingLen);
        }
        row := row + [raw];
        i := i + 1;
      }
      assert HeadingCells(cols)[..i] == HeadingCells(cols);
      line := Join(row, " | ");
    }

    /** A row's line: each cell padded to its column's width. */
    method RowLine(rowData: seq<TableCol>) returns (line: string)
      requires |rowData| <= |cols|
      ensures line == Line(RowCells(cols, rowData))
    {
      var row: seq<string> := [""];
      var i := 0;
      while i < |rowData|
        invariant 0 <= i <= |rowData|
        invariant row == [""] + RowCells(cols, rowData)[..i]
      {
        var raw := rowData[i].data;
        if cols[i].colLength > rowData[i].colLength {
          raw := raw + Spaces(cols[i].colLength - rowData[i].colLength);
        }
        row := row + [raw];
        i := i + 1;
      }
      assert RowCells(cols, rowData)[..i] == RowCells(cols, rowData);
      line := Join(row, " | ");
    }
  }

  /** Appending a well-formed row and widening the columns with it keeps a table valid. */
  lemma AddRowKeepsValid(cols: seq<TableCol>, rows: seq<seq<TableCol>>, a: seq<Value>)
    requires |a| == |cols|
    requires forall i :: 0 <= i < |cols| ==> cols[i].colLength >= ByteLen(cols[i].data)
    requires forall r :: 0 <= r < |rows| ==> |rows[r]| == |cols|
    requires forall r, i :: 0 <= r < |rows| && 0 <= i < |rows[r]| ==> rows[r][i].colLength == ByteLen(rows[r][i].data)
    requires forall r, i :: 0 <= r < |rows| && 0 <= i < |rows[r]| && i < |cols| ==> cols[i].colLength >= rows[r][i].colLength
    ensures var cols', rows' := Widen(cols, Cells(a)), rows + [Cells(a)];
      && (forall i :: 0 <= i < |cols'| ==> cols'[i].colLength >= ByteLen(cols'[i].data))
      && (forall r :: 0 <= r < |rows'| ==> |rows'[r]| == |cols'|)
      && (forall r, i :: 0 <= r < |rows'| && 0 <= i < |rows'[r]| ==> rows'[r][i].colLength == ByteLen(rows'[r][i].data))
      && (forall r, i :: 0 <= r < |rows'| && 0 <= i < |rows'[r]| && i < |cols'| ==> cols'[i].colLength >= rows'[r][i].colLength)
  {
    var cols': seq<TableCol> := Widen(cols, Cells(a));
    var rows': seq<seq<TableCol>> := rows + [Cells(a)];
    forall r, i | 0 <= r < |rows'| && 0 <= i < |rows'[r]| && i < |cols'| ensures cols'[i].colLength >= rows'[r][i].colLength {
      if r < |rows| {
        assert rows'[r] == rows[r];
      }
    }
  }

  /**
   * In a valid table every printed heading and cell is exactly its
   * column's width: its own text followed by spaces.
   */
  lemma PrintedWidths(cols: seq<TableCol>, rows: seq<seq<TableCol>>)
    requires forall i :: 0 <= i < |cols| ==> cols[i].colLength >= ByteLen(cols[i].data)
    requires forall r :: 0 <= r < |rows| ==> |rows[r]| == |cols|
    requires forall r, i :: 0 <= r < |rows| && 0 <= i < |rows[r]| ==> rows[r][i].colLength == ByteLen(rows[r][i].data)
    requires forall r, i :: 0 <= r < |rows| && 0 <= i < |rows[r]| && i < |cols| ==> cols[i].colLength >= rows[r][i].colLength
    ensures forall i :: 0 <= i < |cols| ==> ByteLen(HeadingCells(cols)[i]) == cols[i].colLength
    ensures forall r, i :: 0 <= r < |rows| && 0 <= i < |cols| ==> ByteLen(RowCells(cols, rows[r])[i]) == cols[i].colLength
    ensures forall r, i :: 0 <= r < |rows| && 0 <= i < |cols| ==>
      |RowCells(cols, rows[r])[i]| >= |rows[r][i].data| && RowCells(cols, rows[r])[i][..|rows[r][i].data|] == rows[r][i].data
  {
    forall i | 0 <= i < |cols| ensures ByteLen(HeadingCells(cols)[i]) == cols[i].colLength {
      PadExact(cols[i].data, cols[i].colLength);
    }
    forall r, i | 0 <= r < |rows| && 0 <= i < |cols|
      ensures ByteLen(RowCells(cols, rows[r])[i]) == cols[i].colLength
      ensures |RowCells(cols, rows[r])[i]| >= |rows[r][i].data| && RowCells(cols, rows[r])[i][..|rows[r][i].data|] == rows[r][i].data
    {
      PadExact(rows[r][i].data, cols[i].colLength);
    }
  }

  /** Adding rows never narrows a column. */
  lemma WidenMonotone(cols: seq<TableCol>, a: seq<Value>, b: seq<Value>)
    requires |a| == |cols| && |b| == |cols|
    ensures forall i :: 0 <= i < |cols| ==> Widen(Widen(cols, Cells(a)), Cells(b))[i].colLength >= cols[i].colLength
    ensures forall i :: 0 <= i < |cols| ==>
      Widen(Widen(cols, Cells(a)), Cells(b))[i].colLength == Widen(Widen(cols, Cells(b)), Cells(a))[i].colLength
  {
  }
}
