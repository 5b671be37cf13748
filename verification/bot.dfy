/** One run of the bot: fetch the day's table, build the series, format the
    report; any failure of the fetch step replaces the report by a fixed
    apology that links the day's page. Delivery to subscribers is not modelled. */
module Bot {
  import opened Wrappers
  import opened Stats
  import opened SourceLocator
  import opened Series
  import opened Formatter

  /** Why the fetch step can fail: the transport, a non-success status, or a
      page without the price table. */
  datatype FetchError = TransportError | HttpError | TableMissing

  /** The price table's cells: the header cells and, per table row, its data cells. */
  datatype Table = Table(headers: seq<string>, trs: seq<Row>)

  /** The fetch and table extraction, given the address; outside the model. */
  type Fetcher = string -> Result<Table, FetchError>

  datatype Message = ReportMessage(lines: seq<Line>) | FallbackMessage(text: string)

  const Apology: string :=
    "Sorry information was unable to be displayed, contact developer if persist, "
    + "if urgent click link to see ERCOT data: "

  /** The apology with a link to the day's page for manual inspection. */
  function FallbackText(date: Date): (text: string)
    requires ValidDate(date)
    ensures |text| == |Apology| + |Prefix| + 8 + |Suffix|
    ensures text[..|Apology|] == Apology
    ensures text[|Apology|..] == TodayUrl(date)
    ensures ParseStamp(text[|Apology| + |Prefix|..|Apology| + |Prefix| + 8]) == Some(date)
  {
    var url := TodayUrl(date);
    var text := Apology + url;
    assert text[|Apology|..] == url;
    assert text[|Apology| + |Prefix|..|Apology| + |Prefix| + 8] == url[|Prefix|..|Prefix| + 8];
    text
  }

  /** The series the fetch step builds from an extracted table. */
  function TableSeries(t: Table, parse: NumberParser): SeriesMap
  {
    FetchSeries(t.headers, t.trs, parse)
  }

  /** The message a run sends for the given day. */
  function Run(date: Date, fetch: Fetcher, parse: NumberParser): (msg: Message)
    requires ValidDate(date)
    ensures msg.FallbackMessage? <==> fetch(TodayUrl(date)).Failure?
    ensures msg.FallbackMessage? ==> msg.text == FallbackText(date)
    ensures msg.ReportMessage? ==>
              && |msg.lines| == |Curated| + 3
              && msg.lines[0] == Header(date)
              && msg.lines[|Curated| + 1] == Blank
    ensures msg.ReportMessage? ==>
              msg.lines == BuildReport(date, TableSeries(fetch(TodayUrl(date)).value, parse), Curated)
  {
    match fetch(TodayUrl(date))
    case Failure(_) => FallbackMessage(FallbackText(date))
    case Success(table) =>
      var lines := ReportLines(date, TableSeries(table, parse));
      assert lines == BuildReport(date, TableSeries(table, parse), Curated);
      ReportMessage(lines)
  }

  /** End to end: when the table has distinct zone columns and one of them is
      curated zone i's column j, that zone's line is the mean of the parsed
      cells of column j over the kept body rows, or no-data when there are none. */
  lemma RunReportsColumnMean(date: Date, fetch: Fetcher, parse: NumberParser, t: Table, i: nat, j: nat)
    requires ValidDate(date)
    requires fetch(TodayUrl(date)) == Success(t)
    requires Distinct(Zones(t.headers)) && 1 <= j < |t.headers| && i < |Curated| && t.headers[j] == Curated[i].code
    ensures |ColumnValues(t.headers, BodyRows(t.trs), j, parse)| == 0 ==>
              Run(date, fetch, parse).lines[i + 1] == ZoneNoData(Curated[i].name)
    ensures |ColumnValues(t.headers, BodyRows(t.trs), j, parse)| > 0 ==>
              Run(date, fetch, parse).lines[i + 1]
              == ZoneAvg(Curated[i].name, Mean(ColumnValues(t.headers, BodyRows(t.trs), j, parse)))
  {
    var data := FetchSeries(t.headers, t.trs, parse);
    SeriesIsColumn(t.headers, BodyRows(t.trs), j, parse);
    assert Zones(t.headers)[j - 1] == t.headers[j];
    assert t.headers[j] in data;
    assert Lookup(data, Curated[i].code) == ColumnValues(t.headers, BodyRows(t.trs), j, parse);
  }

  /** End to end: a table without any curated column yields no zone data and
      the warning line, never a division by zero. */
  lemma RunWithoutCuratedColumns(date: Date, fetch: Fetcher, parse: NumberParser)
    requires ValidDate(date)
    requires fetch(TodayUrl(date)).Success?
    requires forall i :: 0 <= i < |Curated| ==> Curated[i].code !in fetch(TodayUrl(date)).value.headers
    ensures var lines := Run(date, fetch, parse).lines;
            && (forall i :: 0 <= i < |Curated| ==> lines[i + 1] == ZoneNoData(Curated[i].name))
            && lines[|Curated| + 2] == Warning
  {
    var t := fetch(TodayUrl(date)).value;
    var data := FetchSeries(t.headers, t.trs, parse);
    forall i | 0 <= i < |Curated| ensures Curated[i].code !in data {
      ZoneIsHeader(t.headers, Curated[i].code);
    }
  }
}
