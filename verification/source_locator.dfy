/** The daily source address: a fixed prefix, the date as YYYYMMDD, a fixed suffix.
    The date is a parameter; reading the process clock is outside the model. */
module SourceLocator {
  import opened Wrappers
  import opened Digits

  /** A calendar date, as Python's `datetime.date` holds it. */
  datatype Date = Date(year: int, month: int, day: int)

  predicate IsLeapYear(y: int)
  {
    y % 4 == 0 && (y % 100 != 0 || y % 400 == 0)
  }

  function DaysInMonth(y: int, m: int): (n: int)
    requires 1 <= m <= 12
    ensures 28 <= n <= 31
  {
    if m == 2 then (if IsLeapYear(y) then 29 else 28)
    else if m == 4 || m == 6 || m == 9 || m == 11 then 30
    else 31
  }

  /** The dates a `datetime.date` can hold (years 1 through 9999). */
  predicate ValidDate(d: Date)
  {
    && 1 <= d.year <= 9999
    && 1 <= d.month <= 12
    && 1 <= d.day <= DaysInMonth(d.year, d.month)
  }

  const Prefix: string := "https://www.ercot.com/content/cdr/html/"
  const Suffix: string := "_real_time_spp.html"

  /** The date rendered as `%Y%m%d`: four, two and two zero-padded digits. */
  function Stamp(d: Date): (s: string)
    requires ValidDate(d)
    ensures |s| == 8 && AllDigits(s)
    ensures Value(s[..4]) == d.year && Value(s[4..6]) == d.month && Value(s[6..]) == d.day
  {
    var s := Pad(d.year, 4) + Pad(d.month, 2) + Pad(d.day, 2);
    assert s[..4] == Pad(d.year, 4) && s[4..6] == Pad(d.month, 2) && s[6..] == Pad(d.day, 2);
    ValueOfPad(d.year, 4);
    ValueOfPad(d.month, 2);
    ValueOfPad(d.day, 2);
    s
  }

  /** Reads an eight-digit YYYYMMDD stamp back into a date, if it names one. */
  function ParseStamp(s: string): (r: Option<Date>)
    ensures r.Some? ==> ValidDate(r.value)
  {
    if |s| == 8 && AllDigits(s) then
      assert AllDigits(s[..4]) && AllDigits(s[4..6]) && AllDigits(s[6..]);
      var d := Date(Value(s[..4]), Value(s[4..6]), Value(s[6..]));
      if ValidDate(d) then Some(d) else None
    else None
  }

  /** The address of the day's real-time settlement point price page. */
  function TodayUrl(d: Date): (url: string)
    requires ValidDate(d)
    ensures |url| == |Prefix| + 8 + |Suffix|
    ensures url[..|Prefix|] == Prefix
    ensures url[|Prefix| + 8..] == Suffix
    ensures ParseStamp(url[|Prefix|..|Prefix| + 8]) == Some(d)
  {
    var url := Prefix + Stamp(d) + Suffix;
    assert url[|Prefix|..|Prefix| + 8] == Stamp(d);
    StampRoundTrip(d);
    url
  }

  /** The stamp reads back as the date it was made from. */
  lemma StampRoundTrip(d: Date)
    requires ValidDate(d)
    ensures ParseStamp(Stamp(d)) == Some(d)
  {
    var s := Stamp(d);
    assert AllDigits(s[..4]) && AllDigits(s[4..6]) && AllDigits(s[6..]);
  }

  /** A stamp that parses is exactly the rendering of the date it parses to. */
  lemma ParseStampSound(s: string)
    requires ParseStamp(s).Some?
    ensures Stamp(ParseStamp(s).value) == s
  {
    var d := ParseStamp(s).value;
    PadOfValue(s[..4]);
    PadOfValue(s[4..6]);
    PadOfValue(s[6..]);
    assert s == s[..4] + s[4..6] + s[6..];
  }

  /** Different days get different addresses. */
  lemma TodayUrlInjective(d1: Date, d2: Date)
    requires ValidDate(d1) && ValidDate(d2)
    requires TodayUrl(d1) == TodayUrl(d2)
    ensures d1 == d2
  {
    var u := TodayUrl(d1);
    assert Some(d1) == ParseStamp(u[|Prefix|..|Prefix| + 8]) == Some(d2);
  }
}
