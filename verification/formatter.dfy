/** The report: a header, one line per curated zone in table order, a blank
    line, and the overall mean or a warning. Lines are kept as data; their
    exact text (padding, two-decimal price format) is not modelled. */
module Formatter {
  import opened Stats
  import opened SourceLocator
  import opened Series

  datatype Line =
    | Header(date: Date)
    | ZoneAvg(name: string, mean: real)
    | ZoneNoData(name: string)
    | Blank
    | Overall(mean: real)
    | Warning

  /** A zone the subscribers care about: its column header and its display name. */
  datatype CuratedZone = CuratedZone(code: string, name: string)

  /** The curated zones, in the order their lines appear. */
  const Curated: seq<CuratedZone> := [
    CuratedZone("HB_SOUTH", "SOUTH"),
    CuratedZone("HB_HOUSTON", "HOUSTON"),
    CuratedZone("HB_BUSAVG", "BUSAVG"),
    CuratedZone("HB_HUBAVG", "HUBAVG"),
    CuratedZone("HB_NORTH", "NORTH"),
    CuratedZone("HB_PAN", "PAN"),
    CuratedZone("HB_WEST", "WEST")
  ]

  /** A zone's series, or the empty series when the table had no such column. */
  function Lookup(data: SeriesMap, code: string): seq<real>
  {
    if code in data then data[code] else []
  }

  function ZoneLine(data: SeriesMap, zone: CuratedZone): Line
  {
    var vals := Lookup(data, zone.code);
    if |vals| > 0 then ZoneAvg(zone.name, Mean(vals)) else ZoneNoData(zone.name)
  }

  function ZoneLines(data: SeriesMap, zones: seq<CuratedZone>): (lines: seq<Line>)
    ensures |lines| == |zones|
  {
    if |zones| == 0 then [] else [ZoneLine(data, zones[0])] + ZoneLines(data, zones[1..])
  }

  /** Line i of the zone lines is zone i's line. */
  lemma {:induction false} ZoneLinesAt(data: SeriesMap, zones: seq<CuratedZone>)
    ensures forall i :: 0 <= i < |zones| ==> ZoneLines(data, zones)[i] == ZoneLine(data, zones[i])
  {
    if |zones| > 0 {
      ZoneLinesAt(data, zones[1..]);
      assert forall i :: 1 <= i < |zones| ==> zones[i] == zones[1..][i - 1];
    }
  }

  /** Adding one more zone appends its line at the end. */
  lemma {:induction false} ZoneLinesSnoc(data: SeriesMap, zones: seq<CuratedZone>, z: CuratedZone)
    ensures ZoneLines(data, zones + [z]) == ZoneLines(data, zones) + [ZoneLine(data, z)]
  {
    if |zones| == 0 {
      assert [z][1..] == [];
    } else {
      assert (zones + [z])[1..] == zones[1..] + [z];
      ZoneLinesSnoc(data, zones[1..], z);
    }
  }

  /** All values of the given zones, concatenated in zone order. */
  function Pool(data: SeriesMap, zones: seq<CuratedZone>): seq<real>
  {
    if |zones| == 0 then [] else Lookup(data, zones[0].code) + Pool(data, zones[1..])
  }

  function FinalLine(pool: seq<real>): Line
  {
    if |pool| > 0 then Overall(Mean(pool)) else Warning
  }

  /** The report for a day's series over the given zone table. */
  function BuildReport(date: Date, data: SeriesMap, zones: seq<CuratedZone>): (lines: seq<Line>)
    ensures |lines| == |zones| + 3
    ensures lines[0] == Header(date)
    ensures forall i :: 0 <= i < |zones| ==>
              (lines[i + 1] == ZoneNoData(zones[i].name) <==> |Lookup(data, zones[i].code)| == 0)
    ensures forall i :: 0 <= i < |zones| && |Lookup(data, zones[i].code)| > 0 ==>
              lines[i + 1] == ZoneAvg(zones[i].name, Mean(Lookup(data, zones[i].code)))
    ensures lines[|zones| + 1] == Blank
    ensures lines[|zones| + 2] == Warning <==>
              forall i :: 0 <= i < |zones| ==> |Lookup(data, zones[i].code)| == 0
    ensures lines[|zones| + 2] != Warning ==>
              |Pool(data, zones)| > 0 && lines[|zones| + 2] == Overall(Mean(Pool(data, zones)))
  {
    var zoneLines := ZoneLines(data, zones);
    var pool := Pool(data, zones);
    var lines := [Header(date)] + zoneLines + [Blank, FinalLine(pool)];
    ZoneLinesAt(data, zones);
    PoolEmptyIff(data, zones);
    assert forall i :: 0 <= i < |zones| ==> lines[i + 1] == zoneLines[i];
    assert lines[|zones| + 1] == Blank && lines[|zones| + 2] == FinalLine(pool);
    lines
  }

  /** The report for a day's series, over the curated zone table. */
  function ReportLines(date: Date, data: SeriesMap): (lines: seq<Line>)
    ensures |lines| == |Curated| + 3
  {
    BuildReport(date, data, Curated)
  }

  /** The pool is empty exactly when every one of its zones has no values. */
  lemma {:induction false} PoolEmptyIff(data: SeriesMap, zones: seq<CuratedZone>)
    ensures |Pool(data, zones)| == 0 <==> forall i :: 0 <= i < |zones| ==> |Lookup(data, zones[i].code)| == 0
  {
    if |zones| > 0 {
      PoolEmptyIff(data, zones[1..]);
      assert forall i :: 1 <= i < |zones| ==> zones[i] == zones[1..][i - 1];
    }
  }

  /** Adding one more zone appends its values to the end of the pool. */
  lemma {:induction false} PoolSnoc(data: SeriesMap, zones: seq<CuratedZone>, z: CuratedZone)
    ensures Pool(data, zones + [z]) == Pool(data, zones) + Lookup(data, z.code)
  {
    if |zones| == 0 {
      assert [z][1..] == [];
    } else {
      assert (zones + [z])[1..] == zones[1..] + [z];
      PoolSnoc(data, zones[1..], z);
    }
  }

  /** The report loop as the source writes it, over a zone table: a line per
      zone, collecting every non-empty series into one pool for the final line. */
  method FormatLines(date: Date, data: SeriesMap, zones: seq<CuratedZone>) returns (lines: seq<Line>)
    ensures lines == BuildReport(date, data, zones)
  {
    lines := [Header(date)];
    var allVals: seq<real> := [];
    var i := 0;
    while i < |zones|
      invariant 0 <= i <= |zones|
      invariant lines == [Header(date)] + ZoneLines(data, zones[..i])
      invariant allVals == Pool(data, zones[..i])
    {
      var zone := zones[i];
      var vals := Lookup(data, zone.code);
      assert zones[..i + 1] == zones[..i] + [zone];
      assert ZoneLines(data, zones[..i + 1]) == ZoneLines(data, zones[..i]) + [ZoneLine(data, zone)] by {
        ZoneLinesSnoc(data, zones[..i], zone);
      }
      assert Pool(data, zones[..i + 1]) == Pool(data, zones[..i]) + vals by {
        PoolSnoc(data, zones[..i], zone);
      }
      if |vals| > 0 {
        lines := lines + [ZoneAvg(zone.name, Mean(vals))];
        allVals := allVals + vals;
      } else {
        lines := lines + [ZoneNoData(zone.name)];
      }
      i := i + 1;
    }
    assert zones[..i] == zones;
    lines := lines + [Blank, FinalLine(allVals)];
  }

  /** `format_message`: the report loop over the curated zone table. */
  method FormatMessage(date: Date, data: SeriesMap) returns (lines: seq<Line>)
    ensures lines == ReportLines(date, data)
  {
    lines := FormatLines(date, data, Curated);
  }


  // ---------------------------------------------------------------------------
  // The overall figure is a value-weighted mean over curated zones only.

  /** Each zone's mean weighted by its number of values, summed over the zones. */
  function WeightedSum(data: SeriesMap, zones: seq<CuratedZone>): real
  {
    if |zones| == 0 then 0.0
    else
      var vals := Lookup(data, zones[0].code);
      (if |vals| > 0 then (|vals| as real) * Mean(vals) else 0.0) + WeightedSum(data, zones[1..])
  }

  /** The number of values over the zones. */
  function Count(data: SeriesMap, zones: seq<CuratedZone>): nat
  {
    if |zones| == 0 then 0 else |Lookup(data, zones[0].code)| + Count(data, zones[1..])
  }

  /** Summing the pool is summing each zone's mean times its count. */
  lemma {:induction false} PoolIsWeighted(data: SeriesMap, zones: seq<CuratedZone>)
    ensures Sum(Pool(data, zones)) == WeightedSum(data, zones)
    ensures |Pool(data, zones)| == Count(data, zones)
  {
    if |zones| > 0 {
      var vals := Lookup(data, zones[0].code);
      SumConcat(vals, Pool(data, zones[1..]));
      PoolIsWeighted(data, zones[1..]);
    }
  }

  /** The overall line carries the value-weighted mean of the curated zones'
      means: each zone counts as many times as it has values. */
  lemma OverallIsValueWeighted(date: Date, data: SeriesMap)
    requires Count(data, Curated) > 0
    ensures ReportLines(date, data)[|Curated| + 2]
         == Overall(WeightedSum(data, Curated) / (Count(data, Curated) as real))
  {
    PoolIsWeighted(data, Curated);
  }

  /** Two zones whose means are 0 and 3, one holding a single value and the
      other two: the overall figure is 2, while the mean of the two means is 1.5. */
  lemma OverallIsNotMeanOfMeans(date: Date, data: SeriesMap)
    requires data == map["HB_SOUTH" := [0.0], "HB_NORTH" := [3.0, 3.0]]
    ensures ReportLines(date, data)[1] == ZoneAvg("SOUTH", 0.0)
    ensures ReportLines(date, data)[5] == ZoneAvg("NORTH", 3.0)
    ensures ReportLines(date, data)[|Curated| + 2] == Overall(2.0)
    ensures ReportLines(date, data)[|Curated| + 2]
         != Overall((Mean(Lookup(data, "HB_SOUTH")) + Mean(Lookup(data, "HB_NORTH"))) / 2.0)
  {
    assert Mean([0.0]) == 0.0;
    assert Mean([3.0, 3.0]) == 3.0;
    assert Curated[0].code == "HB_SOUTH" && Lookup(data, Curated[0].code) == [0.0];
    assert Curated[4].code == "HB_NORTH" && Lookup(data, Curated[4].code) == [3.0, 3.0];
    ExampleCount(data);
    ExampleWeightedSum(data);
    OverallIsValueWeighted(date, data);
    assert 6.0 / 3.0 == 2.0;
  }

  lemma ExampleCount(data: SeriesMap)
    requires data == map["HB_SOUTH" := [0.0], "HB_NORTH" := [3.0, 3.0]]
    ensures Count(data, Curated) == 3
  {
    var zs := Curated;
    assert Count(data, zs[6..]) == 0;
    assert Count(data, zs[5..]) == 0;
    assert Count(data, zs[4..]) == 2;
    assert Count(data, zs[3..]) == 2;
    assert Count(data, zs[2..]) == 2;
    assert Count(data, zs[1..]) == 2;
  }

  lemma ExampleWeightedSum(data: SeriesMap)
    requires data == map["HB_SOUTH" := [0.0], "HB_NORTH" := [3.0, 3.0]]
    ensures WeightedSum(data, Curated) == 6.0
  {
    var zs := Curated;
    assert Mean([0.0]) == 0.0;
    assert Mean([3.0, 3.0]) == 3.0;
    assert WeightedSum(data, zs[6..]) == 0.0;
    assert WeightedSum(data, zs[5..]) == 0.0;
    assert WeightedSum(data, zs[4..]) == 6.0;
    assert WeightedSum(data, zs[3..]) == 6.0;
    assert WeightedSum(data, zs[2..]) == 6.0;
    assert WeightedSum(data, zs[1..]) == 6.0;
  }

  /** Values of a zone outside the curated list never reach the report: two
      maps that agree on the curated zones give the same report. */
  lemma OnlyCuratedZonesMatter(date: Date, d1: SeriesMap, d2: SeriesMap)
    requires forall i :: 0 <= i < |Curated| ==> Lookup(d1, Curated[i].code) == Lookup(d2, Curated[i].code)
    ensures ReportLines(date, d1) == ReportLines(date, d2)
  {
    PoolsAgree(d1, d2, Curated);
    ZoneLinesAt(d1, Curated);
    ZoneLinesAt(d2, Curated);
    assert ZoneLines(d1, Curated) == ZoneLines(d2, Curated);
  }

  lemma {:induction false} PoolsAgree(d1: SeriesMap, d2: SeriesMap, zones: seq<CuratedZone>)
    requires forall i :: 0 <= i < |zones| ==> Lookup(d1, zones[i].code) == Lookup(d2, zones[i].code)
    ensures Pool(d1, zones) == Pool(d2, zones)
  {
    if |zones| > 0 {
      assert forall i :: 0 <= i < |zones| - 1 ==> zones[1..][i] == zones[i + 1];
      PoolsAgree(d1, d2, zones[1..]);
    }
  }

  /** Adding or replacing a non-curated column leaves the report unchanged. */
  lemma NonCuratedColumnIgnored(date: Date, data: SeriesMap, code: string, vals: seq<real>)
    requires forall i :: 0 <= i < |Curated| ==> Curated[i].code != code
    ensures ReportLines(date, data[code := vals]) == ReportLines(date, data)
  {
    OnlyCuratedZonesMatter(date, data[code := vals], data);
  }

  /** Every pooled value comes from some zone's series. */
  lemma {:induction false} PoolBounds(data: SeriesMap, zones: seq<CuratedZone>, lo: real, hi: real)
    requires forall i, k :: 0 <= i < |zones| && 0 <= k < |Lookup(data, zones[i].code)| ==>
               lo <= Lookup(data, zones[i].code)[k] <= hi
    ensures forall k :: 0 <= k < |Pool(data, zones)| ==> lo <= Pool(data, zones)[k] <= hi
  {
    if |zones| > 0 {
      assert forall i :: 0 <= i < |zones| - 1 ==> zones[1..][i] == zones[i + 1];
      PoolBounds(data, zones[1..], lo, hi);
      var head := Lookup(data, zones[0].code);
      assert forall k :: 0 <= k < |head| ==> lo <= head[k] <= hi;
    }
  }

  /** When every curated price lies in [lo, hi], so does the overall figure. */
  lemma OverallWithinBounds(date: Date, data: SeriesMap, lo: real, hi: real)
    requires forall i, k :: 0 <= i < |Curated| && 0 <= k < |Lookup(data, Curated[i].code)| ==>
               lo <= Lookup(data, Curated[i].code)[k] <= hi
    requires ReportLines(date, data)[|Curated| + 2].Overall?
    ensures lo <= ReportLines(date, data)[|Curated| + 2].mean <= hi
  {
    PoolBounds(data, Curated, lo, hi);
    MeanBounds(Pool(data, Curated), lo, hi);
  }
}
