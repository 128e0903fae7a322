/** Tables of times and numbers printed as CSV, and what the CSV plugin makes of them: which cell
    a time stamp, a value or an error comes from. */
module CsvTable {
  import opened Common
  import opened Protocol
  import opened Ledger
  import opened CsvLine
  import opened CsvEngine

  predicate Prints(layout: Layout, cells: seq<Cell>) {
    layout.delimiter != QUOTE && cells != [] && forall c :: c in cells ==> Printable(layout.delimiter, c)
  }

  lemma {:induction false} TextsAre(cells: seq<Cell>)
    ensures |Texts(cells)| == |cells| && forall j :: 0 <= j < |cells| ==> Texts(cells)[j] == cells[j].text
  {
    if cells != [] {
      TextsAre(cells[1..]);
      forall j | 0 <= j < |cells| ensures Texts(cells)[j] == cells[j].text {
        assert j > 0 ==> Texts(cells)[j] == Texts(cells[1..])[j - 1] && cells[1..][j - 1] == cells[j];
      }
    }
  }

  lemma PrintedFields(layout: Layout, cells: seq<Cell>)
    requires Prints(layout, cells)
    ensures var fields := Fields(layout, PrintLine(layout.delimiter, cells));
            |fields| == |cells| && forall j :: 0 <= j < |cells| ==> fields[j] == cells[j].text
  {
    SplitUndoesPrint(BuiltinCsv, layout.delimiter, cells);
    TextsAre(cells);
  }

  /** Every metric column of the row has a number. */
  predicate HasNumbers(codec: Codec, layout: Layout, cells: seq<Cell>) {
    forall j :: 0 <= j < |cells| && j < |layout.metricIds| && layout.metricIds[j].Some? ==>
      codec.number(cells[j].text).Some?
  }

  /** The row of a printed line reads its time from the cell of the time column, and an error
      names the first thing that is wrong with it: the number of cells, a missing time column,
      the time, a number. */
  lemma PrintedRowIsRead(codec: Codec, layout: Layout, cells: seq<Cell>)
    requires layout.Valid() && Prints(layout, cells)
    ensures var fields := Fields(layout, PrintLine(layout.delimiter, cells));
            RowTs(codec, layout, fields) ==
            if |cells| != |layout.metricIds| then Err(ColumnCount)
            else match layout.timeCol
                 case None => Err(NoTimeColumn)
                 case Some(time) =>
                   var ts := codec.time(cells[time].text);
                   if ts.None? then Err(BadTimestamp)
                   else if !HasNumbers(codec, layout, cells) then Err(NonNumeric)
                   else Ok(ts.value)
  {
    PrintedFields(layout, cells);
  }

  // ---- Tables -----------------------------------------------------------------------------------

  /** A line of a table: a time and one number per metric column behind printed cells, or anything
      that is not a good row. */
  datatype Row = Data(cells: seq<Cell>, ts: int, values: seq<real>) | Junk(line: string)

  function LineOf(layout: Layout, row: Row): string
    requires row.Data? ==> row.cells != []
  {
    match row
    case Data(cells, _, _) => PrintLine(layout.delimiter, cells)
    case Junk(line) => line
  }

  /** The cells say what the row says. */
  predicate Says(codec: Codec, layout: Layout, row: Row)
    requires layout.Valid()
  {
    match row
    case Data(cells, ts, values) =>
      && Prints(layout, cells) && PrintLine(layout.delimiter, cells) != ""
      && |cells| == |layout.metricIds| == |values|
      && layout.timeCol.Some? && codec.time(cells[layout.timeCol.value].text) == Some(ts)
      && forall j :: 0 <= j < |cells| && layout.metricIds[j].Some? ==> codec.number(cells[j].text) == Some(values[j])
    case Junk(line) => !Good(codec, layout, line)
  }

  /** The lines of a table: a first line that is a header if the layout has one, then its rows. */
  predicate IsTable(codec: Codec, layout: Layout, lines: seq<string>, rows: seq<Row>)
    requires layout.Valid()
  {
    && |lines| == |rows|
    && forall i :: 0 <= i < |rows| ==> Says(codec, layout, rows[i]) && lines[i] == LineOf(layout, rows[i])
  }

  predicate Counts(layout: Layout, rows: seq<Row>, i: nat)
    requires i < |rows|
  {
    rows[i].Data? && !(layout.hasHeader && i == 0)
  }

  /** The records of a row up to column `j`: its time and its numbers under the metrics. */
  function RecordsOfRow(layout: Layout, row: Row, raw: Option<string>, j: nat): seq<Record>
    requires row.Data? && j <= |row.values| && j <= |layout.metricIds|
  {
    if j == 0 then [] else
      var rest := RecordsOfRow(layout, row, raw, j - 1);
      match layout.metricIds[j - 1]
      case None => rest
      case Some(id) => rest + [Record(row.ts, id, row.values[j - 1], None, None, raw)]
  }

  /** The points of metric `m` in a row. */
  function PointsOfRow(layout: Layout, row: Row, m: string, j: nat): seq<Point>
    requires row.Data? && j <= |row.values| && j <= |layout.metricIds|
  {
    if j == 0 then [] else
      PointsOfRow(layout, row, m, j - 1)
      + if layout.metricIds[j - 1] == Some(m) then [Point(row.ts, row.values[j - 1], None, None)] else []
  }

  predicate Shaped(layout: Layout, rows: seq<Row>) {
    forall i :: 0 <= i < |rows| && rows[i].Data? ==> |rows[i].values| == |layout.metricIds|
  }

  function TableRecords(layout: Layout, lines: seq<string>, rows: seq<Row>, n: nat): seq<Record>
    requires Shaped(layout, rows) && n <= |rows| == |lines|
  {
    if n == 0 then [] else
      TableRecords(layout, lines, rows, n - 1)
      + if !Counts(layout, rows, n - 1) then []
        else RecordsOfRow(layout, rows[n - 1], if n % RAW_LINE_SAMPLE == 0 then Some(lines[n - 1]) else None,
                          |layout.metricIds|)
  }

  function TablePoints(layout: Layout, rows: seq<Row>, m: string, n: nat): seq<Point>
    requires Shaped(layout, rows) && n <= |rows|
  {
    if n == 0 then [] else
      TablePoints(layout, rows, m, n - 1)
      + if Counts(layout, rows, n - 1) then PointsOfRow(layout, rows[n - 1], m, |layout.metricIds|) else []
  }

  lemma {:induction false} RowIsSaid(codec: Codec, layout: Layout, row: Row, fields: seq<string>, raw: Option<string>,
                                     m: string, j: nat)
    requires layout.Valid() && row.Data? && Says(codec, layout, row) && |fields| == |layout.metricIds| && j <= |fields|
    requires forall k :: 0 <= k < |fields| ==> fields[k] == row.cells[k].text
    requires Numeric(codec, layout, fields)
    ensures RowRecords(codec, layout, fields, row.ts, raw, j) == RecordsOfRow(layout, row, raw, j)
    ensures RowPoints(codec, layout, fields, row.ts, m, j) == PointsOfRow(layout, row, m, j)
  {
    if j > 0 {
      RowIsSaid(codec, layout, row, fields, raw, m, j - 1);
    }
  }

  lemma LineIsSaid(codec: Codec, layout: Layout, lines: seq<string>, rows: seq<Row>, m: string, i: nat)
    requires layout.Valid() && IsTable(codec, layout, lines, rows) && i < |rows|
    ensures rows[i].Data? ==> |rows[i].values| == |layout.metricIds|
    ensures LineRecords(codec, layout, lines, i) ==
            if !Counts(layout, rows, i) then []
            else RecordsOfRow(layout, rows[i], if (i + 1) % RAW_LINE_SAMPLE == 0 then Some(lines[i]) else None,
                              |layout.metricIds|)
    ensures LinePoints(codec, layout, lines, m, i) ==
            if Counts(layout, rows, i) then PointsOfRow(layout, rows[i], m, |layout.metricIds|) else []
  {
    assert Says(codec, layout, rows[i]) && lines[i] == LineOf(layout, rows[i]);
    if rows[i].Data? {
      var cells := rows[i].cells;
      PrintedFields(layout, cells);
      PrintedRowIsRead(codec, layout, cells);
      RowIsSaid(codec, layout, rows[i], Fields(layout, lines[i]),
                if (i + 1) % RAW_LINE_SAMPLE == 0 then Some(lines[i]) else None, m, |cells|);
    }
  }

  lemma TableIsShaped(codec: Codec, layout: Layout, lines: seq<string>, rows: seq<Row>)
    requires layout.Valid() && IsTable(codec, layout, lines, rows)
    ensures Shaped(layout, rows)
  {
    forall i | 0 <= i < |rows| && rows[i].Data? ensures |rows[i].values| == |layout.metricIds| {
      assert Says(codec, layout, rows[i]);
    }
  }

  /** Good are exactly the rows that say something. */
  lemma GoodRowsSaySomething(codec: Codec, layout: Layout, lines: seq<string>, rows: seq<Row>, i: nat)
    requires layout.Valid() && IsTable(codec, layout, lines, rows) && i < |rows|
    ensures Good(codec, layout, lines[i]) <==> rows[i].Data?
  {
    assert Says(codec, layout, rows[i]) && lines[i] == LineOf(layout, rows[i]);
    if rows[i].Data? {
      PrintedRowIsRead(codec, layout, rows[i].cells);
    }
  }

  /** The parse pass reads back what a table says: every number under its metric with the time of
      its row, in order, and nothing else. */
  lemma {:induction false} TableIsRead(codec: Codec, layout: Layout, lines: seq<string>, rows: seq<Row>, m: string,
                                       n: nat)
    requires layout.Valid() && IsTable(codec, layout, lines, rows) && Shaped(layout, rows) && n <= |rows|
    ensures RecordsUpTo(codec, layout, lines, n) == TableRecords(layout, lines, rows, n)
    ensures PointsIn(codec, layout, lines, m, n) == TablePoints(layout, rows, m, n)
  {
    if n > 0 {
      TableIsRead(codec, layout, lines, rows, m, n - 1);
      LineIsSaid(codec, layout, lines, rows, m, n - 1);
    }
  }
}
