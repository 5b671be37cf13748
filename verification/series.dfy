/** The row filter and series builder: from the table's header cells and row
    cells to one series of prices per zone. */
module Series {
  import opened Wrappers
  import opened Clock

  type Row = seq<string>

  /** Zone name to the prices kept for it, in document row order. */
  type SeriesMap = map<string, seq<real>>

  /** The cell-to-number conversion (`float` in the source), left abstract. */
  type NumberParser = string -> Option<real>

  /** The first header labels the time column; the others name the zones. */
  function Zones(headers: seq<string>): seq<string>
  {
    if |headers| == 0 then [] else headers[1..]
  }

  function ZoneSet(headers: seq<string>): set<string>
  {
    set z | z in Zones(headers)
  }

  predicate Distinct(s: seq<string>)
  {
    forall i, j :: 0 <= i < j < |s| ==> s[i] != s[j]
  }

  /** The series map before any row is read. */
  function EmptySeries(headers: seq<string>): (m: SeriesMap)
    ensures m.Keys == ZoneSet(headers)
    ensures forall z :: z in m ==> m[z] == []
  {
    map z | z in Zones(headers) :: []
  }

  /** A row contributes only if it has one cell per header, its first cell is
      a clock time, and that time lies in the window. */
  predicate Kept(headers: seq<string>, row: Row)
  {
    && |row| == |headers|
    && |row| > 0
    && ParseClock(row[0]).Some?
    && InWindow(ParseClock(row[0]).value)
  }

  /** What one cell adds to its zone: its number, or nothing if it does not parse. */
  function CellValues(parse: NumberParser, cell: string): seq<real>
  {
    match parse(cell)
    case Some(v) => [v]
    case None => []
  }

  lemma ConcatAssoc(a: seq<real>, b: seq<real>, c: seq<real>)
    ensures (a + b) + c == a + (b + c)
  {
  }

  /** One step of the pairwise walk: if the rest of the walk, started from `m`
      with the first cell appended, extends every zone by the rest's
      contribution, then the whole walk extends every zone by the row's. */
  lemma AppendStep(m: SeriesMap, r: SeriesMap, zones: seq<string>, cells: Row, parse: NumberParser)
    requires |zones| > 0 && |cells| > 0 && zones[0] in m
    requires var m' := m[zones[0] := m[zones[0]] + CellValues(parse, cells[0])];
             forall z :: z in m' ==> z in r && r[z] == m'[z] + RowContribution(zones[1..], cells[1..], z, parse)
    ensures forall z :: z in m ==> z in r && r[z] == m[z] + RowContribution(zones, cells, z, parse)
  {
    var y := zones[0];
    var m' := m[y := m[y] + CellValues(parse, cells[0])];
    forall z | z in m
      ensures z in r && r[z] == m[z] + RowContribution(zones, cells, z, parse)
    {
      var head := if y == z then CellValues(parse, cells[0]) else [];
      var tail := RowContribution(zones[1..], cells[1..], z, parse);
      assert m'[z] == m[z] + head;
      assert r[z] == m'[z] + tail;
      assert RowContribution(zones, cells, z, parse) == head + tail;
      ConcatAssoc(m[z], head, tail);
    }
  }

  /** Walks zones and cells pairwise (as `zip` does, stopping at the shorter),
      appending each parsed cell to its zone's series. */
  function AppendCells(m: SeriesMap, zones: seq<string>, cells: Row, parse: NumberParser): (r: SeriesMap)
    requires forall z :: z in zones ==> z in m
    ensures r.Keys == m.Keys
    ensures forall z :: z in m ==> r[z] == m[z] + RowContribution(zones, cells, z, parse)
    decreases |zones|
  {
    if |zones| == 0 || |cells| == 0 then m
    else
      var y := zones[0];
      var m' := m[y := m[y] + CellValues(parse, cells[0])];
      assert forall z :: z in zones[1..] ==> z in m' by {
        forall z | z in zones[1..] ensures z in m' {
          var k :| 0 <= k < |zones[1..]| && zones[1..][k] == z;
          assert zones[k + 1] == z;
        }
      }
      var r := AppendCells(m', zones[1..], cells[1..], parse);
      AppendStep(m, r, zones, cells, parse);
      r
  }

  /** One body row: skipped entirely, or its cells appended to their zones. */
  function ProcessRow(headers: seq<string>, m: SeriesMap, row: Row, parse: NumberParser): (r: SeriesMap)
    requires ZoneSet(headers) <= m.Keys
    ensures r.Keys == m.Keys
    ensures !Kept(headers, row) ==> r == m
  {
    if Kept(headers, row) then AppendCells(m, Zones(headers), row[1..], parse) else m
  }

  /** The skip rules in terms of the cell text: a row is kept exactly when it
      has one cell per header and its first cell spells, as `%H:%M`, a time
      from the window. */
  lemma KeptSpelledTime(headers: seq<string>, row: Row)
    ensures Kept(headers, row) <==>
              && |row| == |headers| && |row| > 0
              && exists t, hs, ms :: InWindow(t) && row[0] == hs + ":" + ms && SpellsTime(hs, ms, t)
  {
    if Kept(headers, row) {
      var t := ParseClock(row[0]).value;
      ClockFields(row[0], t);
      var hs, ms :| row[0] == hs + ":" + ms && SpellsTime(hs, ms, t);
      assert InWindow(t) && row[0] == hs + ":" + ms && SpellsTime(hs, ms, t);
    }
    if |row| == |headers| && |row| > 0
       && exists t, hs, ms :: InWindow(t) && row[0] == hs + ":" + ms && SpellsTime(hs, ms, t) {
      var t, hs, ms :| InWindow(t) && row[0] == hs + ":" + ms && SpellsTime(hs, ms, t);
      ClockFields(row[0], t);
    }
  }

  /** The series after reading the rows in order. */
  function BuildSeries(headers: seq<string>, rows: seq<Row>, parse: NumberParser): (m: SeriesMap)
    ensures m.Keys == ZoneSet(headers)
    decreases |rows|
  {
    if |rows| == 0 then EmptySeries(headers)
    else ProcessRow(headers, BuildSeries(headers, rows[..|rows| - 1], parse), rows[|rows| - 1], parse)
  }

  /** The table's first row holds the headers; the body is the rest. */
  function BodyRows(trs: seq<Row>): (body: seq<Row>)
    ensures |trs| > 0 ==> trs == trs[..1] + body
    ensures |trs| == 0 ==> body == []
  {
    if |trs| == 0 then [] else trs[1..]
  }

  /** The result of the fetch step once the table cells are extracted. */
  function FetchSeries(headers: seq<string>, trs: seq<Row>, parse: NumberParser): (m: SeriesMap)
    ensures m.Keys == ZoneSet(headers)
    ensures forall z :: z in m ==> m[z] == ZoneValues(headers, BodyRows(trs), z, parse)
  {
    var m := BuildSeries(headers, BodyRows(trs), parse);
    forall z | z in m
      ensures m[z] == ZoneValues(headers, BodyRows(trs), z, parse)
    {
      SeriesAreZoneValues(headers, BodyRows(trs), parse, z);
    }
    m
  }

  // ---------------------------------------------------------------------------
  // Reference view: the values of one zone, read column-wise across the rows.

  /** What one row's cells add to zone `z`: the parsed cells of every column named `z`. */
  function RowContribution(zones: seq<string>, cells: Row, z: string, parse: NumberParser): seq<real>
    decreases |zones|
  {
    if |zones| == 0 || |cells| == 0 then []
    else (if zones[0] == z then CellValues(parse, cells[0]) else [])
         + RowContribution(zones[1..], cells[1..], z, parse)
  }

  /** What a whole row adds to zone `z`: nothing unless the row is kept. */
  function RowValues(headers: seq<string>, row: Row, z: string, parse: NumberParser): seq<real>
  {
    if Kept(headers, row) then RowContribution(Zones(headers), row[1..], z, parse) else []
  }

  /** The values of zone `z`: the contributions of the kept rows, in row order. */
  function ZoneValues(headers: seq<string>, rows: seq<Row>, z: string, parse: NumberParser): seq<real>
    decreases |rows|
  {
    if |rows| == 0 then [] else RowValues(headers, rows[0], z, parse) + ZoneValues(headers, rows[1..], z, parse)
  }

  /** The map-building loop and the column-wise reading agree on every zone. */
  lemma {:induction false} SeriesAreZoneValues(headers: seq<string>, rows: seq<Row>, parse: NumberParser, z: string)
    requires z in ZoneSet(headers)
    ensures BuildSeries(headers, rows, parse)[z] == ZoneValues(headers, rows, z, parse)
    decreases |rows|
  {
    if |rows| > 0 {
      SeriesAreZoneValues(headers, rows[..|rows| - 1], parse, z);
      ZoneValuesSnoc(headers, rows, z, parse);
    }
  }

  /** The column-wise reading of a last row appends that row's values. */
  lemma ZoneValuesSnoc(headers: seq<string>, rows: seq<Row>, z: string, parse: NumberParser)
    requires |rows| > 0
    ensures ZoneValues(headers, rows, z, parse)
         == ZoneValues(headers, rows[..|rows| - 1], z, parse) + RowValues(headers, rows[|rows| - 1], z, parse)
  {
    var init, single: seq<Row> := rows[..|rows| - 1], [rows[|rows| - 1]];
    assert rows == init + single;
    assert single[1..] == [];
    ZoneValuesConcat(headers, init, single, z, parse);
  }

  /** Reading rows in two batches concatenates the two batches' values. */
  lemma {:induction false} ZoneValuesConcat(headers: seq<string>, a: seq<Row>, b: seq<Row>, z: string, parse: NumberParser)
    ensures ZoneValues(headers, a + b, z, parse) == ZoneValues(headers, a, z, parse) + ZoneValues(headers, b, z, parse)
    decreases |a|
  {
    if |a| == 0 {
      assert a + b == b;
    } else {
      assert (a + b)[0] == a[0];
      assert (a + b)[1..] == a[1..] + b;
      ZoneValuesConcat(headers, a[1..], b, z, parse);
      ConcatAssoc(RowValues(headers, a[0], z, parse), ZoneValues(headers, a[1..], z, parse), ZoneValues(headers, b, z, parse));
    }
  }

  /** A zone that names no column receives nothing from a row. */
  lemma {:induction false} NoContribution(zones: seq<string>, cells: Row, z: string, parse: NumberParser)
    requires z !in zones
    ensures RowContribution(zones, cells, z, parse) == []
    decreases |zones|
  {
    if |zones| > 0 && |cells| > 0 {
      NoContribution(zones[1..], cells[1..], z, parse);
    }
  }

  /** With distinct zone names, the zone of column k receives exactly cell k's value. */
  lemma {:induction false} DistinctContribution(zones: seq<string>, cells: Row, k: nat, parse: NumberParser)
    requires Distinct(zones)
    requires |cells| == |zones| && k < |zones|
    ensures RowContribution(zones, cells, zones[k], parse) == CellValues(parse, cells[k])
    decreases |zones|
  {
    if k == 0 {
      assert zones[0] !in zones[1..];
      NoContribution(zones[1..], cells[1..], zones[0], parse);
    } else {
      assert zones[1..][k - 1] == zones[k];
      DistinctContribution(zones[1..], cells[1..], k - 1, parse);
    }
  }

  // ---------------------------------------------------------------------------
  // Properties of the row filter.

  /** The empty table gives one empty series per zone, and nothing else. */
  lemma InitialSeries(headers: seq<string>, parse: NumberParser)
    ensures BuildSeries(headers, [], parse).Keys == set k | 1 <= k < |headers| :: headers[k]
    ensures forall z :: z in BuildSeries(headers, [], parse) ==> BuildSeries(headers, [], parse)[z] == []
  {
    var keys := set k | 1 <= k < |headers| :: headers[k];
    forall z | z in keys ensures z in ZoneSet(headers) {
      var k :| 1 <= k < |headers| && headers[k] == z;
      assert Zones(headers)[k - 1] == z;
    }
    forall z | z in ZoneSet(headers) ensures z in keys {
      var k :| 0 <= k < |Zones(headers)| && Zones(headers)[k] == z;
      assert headers[k + 1] == z;
    }
  }

  /** Every zone is one of the headers (never the first one's label alone). */
  lemma ZoneIsHeader(headers: seq<string>, z: string)
    ensures z in ZoneSet(headers) <==> exists k :: 1 <= k < |headers| && headers[k] == z
  {
    if z in ZoneSet(headers) {
      var k :| 0 <= k < |Zones(headers)| && Zones(headers)[k] == z;
      assert headers[k + 1] == z;
    }
    if exists k :: 1 <= k < |headers| && headers[k] == z {
      var k :| 1 <= k < |headers| && headers[k] == z;
      assert Zones(headers)[k - 1] == z;
    }
  }

  /** In a kept row with distinct zone names, the zone of column j gains that
      cell's number, or nothing when the cell does not parse; the other cells
      are unaffected by that failure. */
  lemma KeptRowCell(headers: seq<string>, m: SeriesMap, row: Row, j: nat, parse: NumberParser)
    requires Distinct(Zones(headers))
    requires ZoneSet(headers) <= m.Keys
    requires Kept(headers, row)
    requires 1 <= j < |headers|
    ensures parse(row[j]).None? ==> ProcessRow(headers, m, row, parse)[headers[j]] == m[headers[j]]
    ensures parse(row[j]).Some? ==> ProcessRow(headers, m, row, parse)[headers[j]] == m[headers[j]] + [parse(row[j]).value]
  {
    var zones := Zones(headers);
    assert zones[j - 1] == headers[j];
    DistinctContribution(zones, row[1..], j - 1, parse);
  }

  /** A row that is skipped changes no series, wherever it stands in the table. */
  lemma SkippedRowAddsNothing(headers: seq<string>, before: seq<Row>, row: Row, after: seq<Row>, parse: NumberParser)
    requires !Kept(headers, row)
    ensures BuildSeries(headers, before + [row] + after, parse) == BuildSeries(headers, before + after, parse)
  {
    var m1 := BuildSeries(headers, before + [row] + after, parse);
    var m2 := BuildSeries(headers, before + after, parse);
    forall z | z in m1 ensures m1[z] == m2[z] {
      SkippedRowZone(headers, before, row, after, z, parse);
    }
  }

  lemma SkippedRowZone(headers: seq<string>, before: seq<Row>, row: Row, after: seq<Row>, z: string, parse: NumberParser)
    requires !Kept(headers, row)
    requires z in ZoneSet(headers)
    ensures BuildSeries(headers, before + [row] + after, parse)[z] == BuildSeries(headers, before + after, parse)[z]
  {
    SeriesAreZoneValues(headers, before + [row] + after, parse, z);
    SeriesAreZoneValues(headers, before + after, parse, z);
    assert ZoneValues(headers, [row], z, parse) == [] by {
      assert [row][..0] == [];
    }
    assert ZoneValues(headers, before + [row], z, parse) == ZoneValues(headers, before, z, parse) by {
      ZoneValuesConcat(headers, before, [row], z, parse);
    }
    ZoneValuesConcat(headers, before + [row], after, z, parse);
    ZoneValuesConcat(headers, before, after, z, parse);
  }

  /** Later rows only extend a series: what earlier rows put there stays, first. */
  lemma SeriesKeepRowOrder(headers: seq<string>, rows: seq<Row>, more: seq<Row>, z: string, parse: NumberParser)
    requires z in ZoneSet(headers)
    ensures BuildSeries(headers, rows + more, parse)[z]
         == BuildSeries(headers, rows, parse)[z] + ZoneValues(headers, more, z, parse)
  {
    SeriesAreZoneValues(headers, rows + more, parse, z);
    SeriesAreZoneValues(headers, rows, parse, z);
    ZoneValuesConcat(headers, rows, more, z, parse);
  }

  /** With distinct zone names, a zone's series is the parsed cells of its
      column, over the kept rows, in row order. */
  lemma {:induction false} SeriesIsColumn(headers: seq<string>, rows: seq<Row>, j: nat, parse: NumberParser)
    requires Distinct(Zones(headers))
    requires 1 <= j < |headers|
    ensures BuildSeries(headers, rows, parse)[headers[j]] == ColumnValues(headers, rows, j, parse)
    decreases |rows|
  {
    assert Zones(headers)[j - 1] == headers[j];
    if |rows| > 0 {
      var init, last := rows[..|rows| - 1], rows[|rows| - 1];
      SeriesIsColumn(headers, init, j, parse);
      if Kept(headers, last) {
        KeptRowCell(headers, BuildSeries(headers, init, parse), last, j, parse);
      }
    }
  }

  /** The parsed cells of column j over the kept rows, in row order. */
  function ColumnValues(headers: seq<string>, rows: seq<Row>, j: nat, parse: NumberParser): seq<real>
    requires j < |headers|
    decreases |rows|
  {
    if |rows| == 0 then []
    else
      var last := rows[|rows| - 1];
      ColumnValues(headers, rows[..|rows| - 1], j, parse)
      + (if Kept(headers, last) then CellValues(parse, last[j]) else [])
  }

  // ---------------------------------------------------------------------------
  // The source's loop, statement by statement.

  /** The inner loop of the source: walk zones and cells pairwise, appending
      each cell that parses to its zone's series. */
  method AppendRow(data: SeriesMap, zones: seq<string>, cells: Row, parse: NumberParser) returns (out: SeriesMap)
    requires forall z :: z in zones ==> z in data
    ensures out == AppendCells(data, zones, cells, parse)
  {
    out := data;
    var j := 0;
    while j < |zones| && j < |cells|
      invariant 0 <= j <= |zones| && j <= |cells|
      invariant out.Keys == data.Keys
      invariant AppendCells(out, zones[j..], cells[j..], parse) == AppendCells(data, zones, cells, parse)
    {
      var z := zones[j];
      assert zones[j..][1..] == zones[j + 1..];
      assert cells[j..][1..] == cells[j + 1..];
      match parse(cells[j]) {
        case Some(v) => out := out[z := out[z] + [v]];
        case None =>
          assert out[z] + [] == out[z];
          assert out[z := out[z] + []] == out;
      }
      j := j + 1;
    }
  }

  /** The series-building loop as the source writes it: every series starts
      empty, each body row is tested, each kept row's cells are appended. */
  method CollectSeries(headers: seq<string>, rows: seq<Row>, parse: NumberParser) returns (data: SeriesMap)
    ensures data == BuildSeries(headers, rows, parse)
    ensures data.Keys == ZoneSet(headers)
  {
    var zones := Zones(headers);
    data := map z | z in zones :: [];
    assert rows[..0] == [];
    var i := 0;
    while i < |rows|
      invariant 0 <= i <= |rows|
      invariant data == BuildSeries(headers, rows[..i], parse)
    {
      var cols := rows[i];
      assert rows[..i + 1][..i] == rows[..i];
      if |cols| == |headers| && |cols| > 0 {
        var t := ParseClock(cols[0]);
        if t.Some? && InWindow(t.value) {
          data := AppendRow(data, zones, cols[1..], parse);
        }
      }
      i := i + 1;
    }
    assert rows[..|rows|] == rows;
  }

  // ---------------------------------------------------------------------------
  // The worked example of a row outside the window and a malformed cell.

  /** The rows of the worked example: 10:00 and 11:30 are kept, 23:00 is not. */
  lemma ExampleRowsKept(headers: seq<string>, r0: Row, r1: Row, r2: Row)
    requires headers == ["Time", "HB_NORTH", "HB_SOUTH"]
    requires r0 == ["10:00", "50.0", "60.0"] && r1 == ["23:00", "999", "999"] && r2 == ["11:30", "N/A", "40.0"]
    ensures Kept(headers, r0) && !Kept(headers, r1) && Kept(headers, r2)
  {
    BoundaryTime("10:00", 1, 0, 0, 0);
    BoundaryTime("23:00", 2, 3, 0, 0);
    BoundaryTime("11:30", 1, 1, 3, 0);
  }

  /** A 23:00 row is ignored, and an unparseable cell drops only itself. */
  lemma ExampleTable(headers: seq<string>, rows: seq<Row>, parse: NumberParser)
    requires headers == ["Time", "HB_NORTH", "HB_SOUTH"]
    requires rows == [["10:00", "50.0", "60.0"], ["23:00", "999", "999"], ["11:30", "N/A", "40.0"]]
    requires parse("50.0") == Some(50.0) && parse("60.0") == Some(60.0)
    requires parse("N/A") == None && parse("40.0") == Some(40.0)
    ensures "HB_NORTH" in BuildSeries(headers, rows, parse) && "HB_SOUTH" in BuildSeries(headers, rows, parse)
    ensures BuildSeries(headers, rows, parse)["HB_NORTH"] == [50.0]
    ensures BuildSeries(headers, rows, parse)["HB_SOUTH"] == [60.0, 40.0]
  {
    var r0, r1, r2 := rows[0], rows[1], rows[2];
    ExampleRowsKept(headers, r0, r1, r2);
    assert rows[..2] == [r0, r1] && [r0, r1][..1] == [r0] && [r0][..0] == [];
    assert ColumnValues(headers, rows, 1, parse) == [50.0] by {
      assert ColumnValues(headers, [r0], 1, parse) == [50.0];
      assert ColumnValues(headers, [r0, r1], 1, parse) == [50.0];
    }
    assert ColumnValues(headers, rows, 2, parse) == [60.0, 40.0] by {
      assert ColumnValues(headers, [r0], 2, parse) == [60.0];
      assert ColumnValues(headers, [r0, r1], 2, parse) == [60.0];
    }
    assert Distinct(Zones(headers)) by {
      assert Zones(headers) == ["HB_NORTH", "HB_SOUTH"];
    }
    ZoneIsHeader(headers, "HB_NORTH");
    ZoneIsHeader(headers, "HB_SOUTH");
    SeriesIsColumn(headers, rows, 1, parse);
    SeriesIsColumn(headers, rows, 2, parse);
  }
}
