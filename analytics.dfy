/** The admin analytics page: the five-row pages of the view table with their Previous
    and Next controls, the table export and the chart export, whose rows are numbered
    consecutively over the points that have both coordinates. */
module AnalyticsPage {
  import opened Common

  datatype Row = Row(page: string, today: int, past7: int)

  /** The fixed table of page views. */
  const TableData: seq<Row> := [
    Row("Explore", 30, 210),
    Row("Hiking", 25, 140),
    Row("Map", 25, 200),
    Row("Details - Perrot State Park", 23, 122),
    Row("Details - Trempealeau Mountain State Natural Area", 15, 80),
    Row("Details - Trempealeau National Wildlife Refugee", 12, 90),
    Row("Details - Brady's Bluff", 10, 70),
    Row("Details - Pine Creek", 8, 50),
    Row("Details - Buffalo River State Trail", 5, 30),
    Row("Details - Great River State Trail", 4, 25)
  ]

  const RowsPerPage := 5

  // ---------------------------------------------------------- pagination

  /** `Math.ceil(n / 5)` */
  function PageCount(n: nat): (c: nat)
    ensures c * RowsPerPage >= n && (c == 0 || (c - 1) * RowsPerPage < n)
  {
    (n + RowsPerPage - 1) / RowsPerPage
  }

  /** `rows.slice((p - 1) * 5, p * 5)` for a page p >= 1; slice clips both ends to the length. */
  function PageRows<T>(rows: seq<T>, p: int): (r: seq<T>)
    requires p >= 1
    ensures |r| == if (p - 1) * RowsPerPage >= |rows| then 0 else Min(RowsPerPage, |rows| - (p - 1) * RowsPerPage)
    ensures |r| <= RowsPerPage
    ensures forall i :: 0 <= i < |r| ==> r[i] == rows[(p - 1) * RowsPerPage + i]
  {
    var start := (p - 1) * RowsPerPage;
    var end := p * RowsPerPage;
    if start >= |rows| then [] else rows[start..Min(end, |rows|)]
  }

  /** Each row is shown on exactly one page: row i is entry i % 5 of page i / 5 + 1, and
      that page is within the page count. */
  lemma RowOnItsPage<T>(rows: seq<T>, i: nat)
    requires i < |rows|
    ensures var p := i / RowsPerPage + 1;
      1 <= p <= PageCount(|rows|) && i % RowsPerPage < |PageRows(rows, p)|
      && PageRows(rows, p)[i % RowsPerPage] == rows[i]
  {
  }

  /** Pages beyond the count are empty. */
  lemma PastLastPageEmpty<T>(rows: seq<T>, p: int)
    requires p > PageCount(|rows|)
    ensures PageRows(rows, p) == []
  {
  }

  /** The page counter and its buttons. */
  class TablePager {
    const rowCount: nat
    var page: int

    /** From page 1 the buttons never leave [1, ceil(n / 5)] (page 1 is kept when there
        are no rows). */
    ghost predicate Valid()
      reads this
    {
      1 <= page && (page <= PageCount(rowCount) || page == 1)
    }

    constructor(n: nat)
      ensures rowCount == n && page == 1 && Valid()
    {
      rowCount := n;
      page := 1;
    }

    /** Previous: step back unless on page 1. */
    method Previous()
      requires Valid()
      modifies this
      ensures Valid()
      ensures page == if old(page) > 1 then old(page) - 1 else old(page)
    {
      if page > 1 {
        page := page - 1;
      }
    }

    /** Next: step forward while below the page count. */
    method Next()
      requires Valid()
      modifies this
      ensures Valid()
      ensures page == if old(page) < PageCount(rowCount) then old(page) + 1 else old(page)
    {
      if page < PageCount(rowCount) {
        page := page + 1;
      }
    }

    /** `Page {p} of {ceil(n / 5)}` */
    function PageLabel(): (s: string)
      reads this
      requires Valid()
      ensures s == "Page " + IntToString(page) + " of " + IntToString(PageCount(rowCount))
    {
      "Page " + NatToString(page) + " of " + NatToString(PageCount(rowCount))
    }
  }

  /** With ten rows there are two pages, of five rows each. */
  lemma TwoFullPages()
    ensures PageCount(|TableData|) == 2
    ensures |PageRows(TableData, 1)| == 5 && |PageRows(TableData, 2)| == 5
    ensures PageRows(TableData, 2)[0] == Row("Details - Trempealeau National Wildlife Refugee", 12, 90)
  {
  }

  // ------------------------------------------------------------- CSV text

  const CsvPrefix := "data:text/csv;charset=utf-8,"
  const TableHeader := "Page,Views (Today),Views (Past 7 Days)"
  const ChartHeader := "Entry,Date,Views"

  /** `${row.page},${row.today},${row.past7}`, with no quoting. */
  function TableLine(row: Row): string
  {
    row.page + "," + IntToString(row.today) + "," + IntToString(row.past7)
  }

  /** One rendered line per row, in order. */
  function Lines<R>(rows: seq<R>, render: R -> string): (r: seq<string>)
    ensures |r| == |rows| && forall i :: 0 <= i < |rows| ==> r[i] == render(rows[i])
  {
    if rows == [] then [] else [render(rows[0])] + Lines(rows[1..], render)
  }

  lemma LinesSnoc<R>(rows: seq<R>, x: R, render: R -> string)
    ensures Lines(rows + [x], render) == Lines(rows, render) + [render(x)]
  {
    var a, b := Lines(rows + [x], render), Lines(rows, render) + [render(x)];
    assert |a| == |b|;
    forall k | 0 <= k < |a| ensures a[k] == b[k] {
      if k < |rows| { assert (rows + [x])[k] == rows[k]; }
    }
  }

  /** Each line followed by a newline. */
  function Terminated(lines: seq<string>): string
  {
    if lines == [] then "" else lines[0] + "\n" + Terminated(lines[1..])
  }

  lemma TerminatedSnoc(lines: seq<string>, l: string)
    ensures Terminated(lines + [l]) == Terminated(lines) + l + "\n"
  {
    if lines != [] {
      assert (lines + [l])[1..] == lines[1..] + [l];
      TerminatedSnoc(lines[1..], l);
    }
  }

  /** `exportTableData`: the header, then the lines the `forEach` appends. */
  method TableCsv(rows: seq<Row>) returns (csv: string)
    ensures csv == CsvPrefix + TableHeader + "\n" + Terminated(Lines(rows, TableLine))
  {
    var body := TableBody(rows);
    csv := CsvPrefix + TableHeader + "\n" + body;
  }

  /** The `forEach` of `exportTableData`: one newline-terminated line per row. */
  method TableBody(rows: seq<Row>) returns (body: string)
    ensures body == Terminated(Lines(rows, TableLine))
  {
    body := "";
    for i := 0 to |rows|
      invariant body == Terminated(Lines(rows[..i], TableLine))
    {
      assert rows[..i + 1] == rows[..i] + [rows[i]];
      LinesSnoc(rows[..i], rows[i], TableLine);
      TerminatedSnoc(Lines(rows[..i], TableLine), TableLine(rows[i]));
      body := body + TableLine(rows[i]) + "\n";
    }
    assert rows[..|rows|] == rows;
  }

  /** A header and newline-terminated lines are the lines joined with newlines, followed
      by an empty last piece. */
  lemma {:induction false} TerminatedJoin(head: string, lines: seq<string>)
    ensures head + "\n" + Terminated(lines) == Join([head] + lines + [""], "\n")
    decreases |lines|
  {
    if lines != [] {
      TerminatedJoin(lines[0], lines[1..]);
      assert [head] + lines + [""] == [head] + ([lines[0]] + lines[1..] + [""]);
      assert ([head] + lines + [""])[1..] == [lines[0]] + lines[1..] + [""];
    }
  }

  predicate NoNewline(s: string)
  {
    '\n' !in s
  }

  lemma DecimalHasNoSeparator(n: int, c: char)
    requires c == '\n' || c == ','
    ensures c !in IntToString(n)
  {
  }

  lemma TableLineNoNewline(row: Row)
    requires NoNewline(row.page)
    ensures '\n' !in TableLine(row)
  {
    DecimalHasNoSeparator(row.today, '\n');
    DecimalHasNoSeparator(row.past7, '\n');
  }

  /** A header and newline-free lines, each terminated, split back into the pieces. */
  lemma SplitTerminated(head: string, lines: seq<string>)
    requires '\n' !in head
    requires forall k :: 0 <= k < |lines| ==> '\n' !in lines[k]
    ensures Split(head + "\n" + Terminated(lines), '\n') == [head] + lines + [""]
  {
    var parts := [head] + lines + [""];
    TerminatedJoin(head, lines);
    forall k | 0 <= k < |parts| ensures '\n' !in parts[k] {
      if 0 < k < |parts| - 1 {
        assert parts[k] == lines[k - 1];
      }
    }
    SplitJoin(parts, '\n');
  }

  /** Splitting the table export at newlines gives the header, one line per row in
      order, and the empty piece after the final newline, as long as no page name holds a
      newline. */
  lemma TableCsvLines(rows: seq<Row>, head: string)
    requires head == CsvPrefix + TableHeader
    requires forall i :: 0 <= i < |rows| ==> NoNewline(rows[i].page)
    ensures Split(head + "\n" + Terminated(Lines(rows, TableLine)), '\n')
      == [head] + Lines(rows, TableLine) + [""]
  {
    LinesNoNewline(rows);
    HeaderNoNewline();
    SplitTerminated(head, Lines(rows, TableLine));
  }

  lemma HeaderNoNewline()
    ensures '\n' !in CsvPrefix + TableHeader
  {
  }

  lemma LinesNoNewline(rows: seq<Row>)
    requires forall i :: 0 <= i < |rows| ==> NoNewline(rows[i].page)
    ensures forall k :: 0 <= k < |rows| ==> '\n' !in Lines(rows, TableLine)[k]
  {
    forall k | 0 <= k < |rows| ensures '\n' !in Lines(rows, TableLine)[k] {
      TableLineNoNewline(rows[k]);
    }
  }

  /** Without a comma in the page name a table line splits back into its three cells. */
  lemma TableLineCells(row: Row)
    requires ',' !in row.page
    ensures Split(TableLine(row), ',') == [row.page, IntToString(row.today), IntToString(row.past7)]
  {
    var a, b, c := row.page, IntToString(row.today), IntToString(row.past7);
    DecimalHasNoSeparator(row.today, ',');
    DecimalHasNoSeparator(row.past7, ',');
    assert TableLine(row) == a + [','] + b + [','] + c;
    SplitThree(a, b, c, ',');
  }

  // ------------------------------------------------------------ chart CSV

  /** A chart point; `None` is an undefined coordinate. `x` is a time stamp in ms. */
  datatype Point = Point(x: Option<int>, y: Option<int>)

  predicate Defined(p: Point)
  {
    p.x.Some? && p.y.Some?
  }

  /** The points that have both coordinates, as (x, y) pairs, in order. */
  function DefinedPoints(data: seq<Point>): (r: seq<(int, int)>)
    ensures |r| == Count(data, Defined)
  {
    if data == [] then []
    else (if Defined(data[0]) then [(data[0].x.value, data[0].y.value)] else []) + DefinedPoints(data[1..])
  }

  lemma DefinedPointsAppend(data: seq<Point>, p: Point)
    ensures DefinedPoints(data + [p]) == DefinedPoints(data) + (if Defined(p) then [(p.x.value, p.y.value)] else [])
  {
    if data != [] {
      assert (data + [p])[1..] == data[1..] + [p];
      DefinedPointsAppend(data[1..], p);
    }
  }

  /** One emitted chart row: its entry number and the point. */
  datatype ChartRow = ChartRow(entry: int, x: int, y: int)

  /** Rows numbered from `n`, one per point. */
  function ChartRows(ps: seq<(int, int)>, n: int): (r: seq<ChartRow>)
    ensures |r| == |ps|
    ensures forall i :: 0 <= i < |ps| ==> r[i] == ChartRow(n + i, ps[i].0, ps[i].1)
  {
    if ps == [] then [] else [ChartRow(n, ps[0].0, ps[0].1)] + ChartRows(ps[1..], n + 1)
  }

  /** `${row},${formattedDate},${point.y}`; the date text is `date(x)`, a parameter for
      `toLocaleDateString() + ' ' + toLocaleTimeString()`. */
  function ChartLine(row: ChartRow, date: int -> string): string
  {
    IntToString(row.entry) + "," + date(row.x) + "," + IntToString(row.y)
  }

  /** The line renderer for one export, with the date formatting fixed. */
  function ChartRender(date: int -> string): ChartRow -> string
  {
    row => ChartLine(row, date)
  }

  lemma ChartRowsSnoc(ps: seq<(int, int)>, xy: (int, int), n: int)
    ensures ChartRows(ps + [xy], n) == ChartRows(ps, n) + [ChartRow(n + |ps|, xy.0, xy.1)]
  {
    var a, b := ChartRows(ps + [xy], n), ChartRows(ps, n) + [ChartRow(n + |ps|, xy.0, xy.1)];
    assert |a| == |b|;
    forall k | 0 <= k < |a| ensures a[k] == b[k] {
      if k < |ps| { assert (ps + [xy])[k] == ps[k]; }
    }
  }

  /** The text of the chart lines for the first i points. */
  function ChartBody(data: seq<Point>, i: nat, date: int -> string): string
    requires i <= |data|
  {
    Terminated(Lines(ChartRows(DefinedPoints(data[..i]), 1), ChartRender(date)))
  }

  lemma ChartSkip(data: seq<Point>, i: nat)
    requires i < |data| && !Defined(data[i])
    ensures DefinedPoints(data[..i + 1]) == DefinedPoints(data[..i])
  {
    assert data[..i + 1] == data[..i] + [data[i]];
    DefinedPointsAppend(data[..i], data[i]);
  }

  lemma ChartEmit(data: seq<Point>, i: nat, date: int -> string)
    requires i < |data| && Defined(data[i])
    ensures |DefinedPoints(data[..i + 1])| == |DefinedPoints(data[..i])| + 1
    ensures ChartBody(data, i + 1, date) == ChartBody(data, i, date)
      + ChartLine(ChartRow(|DefinedPoints(data[..i])| + 1, data[i].x.value, data[i].y.value), date) + "\n"
  {
    var point := data[i];
    assert data[..i + 1] == data[..i] + [point];
    DefinedPointsAppend(data[..i], point);
    var ps := DefinedPoints(data[..i]);
    var next := ChartRow(|ps| + 1, point.x.value, point.y.value);
    ChartRowsSnoc(ps, (point.x.value, point.y.value), 1);
    LinesSnoc(ChartRows(ps, 1), next, ChartRender(date));
    TerminatedSnoc(Lines(ChartRows(ps, 1), ChartRender(date)), ChartLine(next, date));
  }

  /** `exportChartData`: points with an undefined coordinate are skipped and do not use
      up a row number. */
  method ChartCsv(data: seq<Point>, date: int -> string) returns (csv: string)
    ensures csv == CsvPrefix + ChartHeader + "\n" + ChartBody(data, |data|, date)
  {
    var row := 1;
    var body := "";
    for i := 0 to |data|
      invariant row == |DefinedPoints(data[..i])| + 1
      invariant body == ChartBody(data, i, date)
    {
      var point := data[i];
      if point.x.None? || point.y.None? {
        ChartSkip(data, i);
        continue;
      }
      ChartEmit(data, i, date);
      body := body + ChartLine(ChartRow(row, point.x.value, point.y.value), date) + "\n";
      row := row + 1;
    }
    csv := CsvPrefix + ChartHeader + "\n" + body;
  }

  /** A pair is kept exactly when a point with those two coordinates is in the data. */
  lemma {:induction false} DefinedPointsMeaning(data: seq<Point>)
    ensures forall xy :: xy in DefinedPoints(data) <==> Point(Some(xy.0), Some(xy.1)) in data
  {
    if data != [] {
      DefinedPointsMeaning(data[1..]);
      assert data == [data[0]] + data[1..];
    }
  }

  /** The exported chart has one line per point with both coordinates, numbered 1, 2, ...
      with no gap, and a point missing a coordinate is never exported. */
  lemma ChartRowsConsecutive(data: seq<Point>)
    ensures var rows := ChartRows(DefinedPoints(data), 1);
      |rows| == Count(data, Defined)
      && (forall k :: 0 <= k < |rows| ==> rows[k].entry == k + 1)
      && forall k :: 0 <= k < |rows| ==> Point(Some(rows[k].x), Some(rows[k].y)) in data
  {
    var ps := DefinedPoints(data);
    DefinedPointsMeaning(data);
    forall k | 0 <= k < |ps| ensures Point(Some(ps[k].0), Some(ps[k].1)) in data {
      assert ps[k] in ps;
    }
  }
}
