/** Clock times as `strptime(cell, "%H:%M")` accepts them, and the fixed
    observation window. A time is held as minutes since midnight. */
module Clock {
  import opened Wrappers
  import opened Digits

  const MinutesPerDay: nat := 24 * 60

  /** The window is closed at both ends: 06:15 through 22:00. */
  const WindowStart: nat := 6 * 60 + 15
  const WindowEnd: nat := 22 * 60

  predicate InWindow(t: nat)
  {
    WindowStart <= t <= WindowEnd
  }

  /** The hour field: `2[0-3]`, `[0-1]\d` or a single digit. */
  function ParseHour(s: string): (r: Option<nat>)
    ensures r.Some? ==> r.value < 24
  {
    if |s| == 1 && IsDigit(s[0]) then Some(DigitValue(s[0]))
    else if |s| == 2 && AllDigits(s) && ((s[0] == '2' && s[1] <= '3') || s[0] <= '1') then
      TwoDigitValue(s);
      Some(Value(s))
    else None
  }

  /** The minute field: `[0-5]\d` or a single digit. */
  function ParseMinute(s: string): (r: Option<nat>)
    ensures r.Some? ==> r.value < 60
  {
    if |s| == 1 && IsDigit(s[0]) then Some(DigitValue(s[0]))
    else if |s| == 2 && AllDigits(s) && s[0] <= '5' then
      TwoDigitValue(s);
      Some(Value(s))
    else None
  }

  function Combine(h: Option<nat>, m: Option<nat>): Option<nat>
  {
    if h.Some? && m.Some? then Some(h.value * 60 + m.value) else None
  }

  /** `HH:MM` with the whole cell consumed; the hour has one or two digits,
      so the colon sits at index 1 or 2. */
  function ParseClock(s: string): (r: Option<nat>)
    ensures r.Some? ==> r.value < MinutesPerDay
    ensures r.Some? ==> 3 <= |s| <= 5
  {
    if 2 <= |s| && s[1] == ':' then Combine(ParseHour(s[..1]), ParseMinute(s[2..]))
    else if 3 <= |s| && s[2] == ':' then Combine(ParseHour(s[..2]), ParseMinute(s[3..]))
    else None
  }

  /** The canonical two-digit rendering `HH:MM` of a time of day. */
  function FormatClock(t: nat): (s: string)
    requires t < MinutesPerDay
    ensures |s| == 5 && s[2] == ':'
  {
    Pad(t / 60, 2) + ":" + Pad(t % 60, 2)
  }

  /** Every time of day written canonically parses back to itself. */
  lemma ClockRoundTrip(t: nat)
    requires t < MinutesPerDay
    ensures ParseClock(FormatClock(t)) == Some(t)
  {
    var h, m := t / 60, t % 60;
    var s := FormatClock(t);
    assert s[..2] == Pad(h, 2) && s[3..] == Pad(m, 2);
    assert s[0] == DigitChar(h / 10) && s[1] == DigitChar(h % 10);
    assert s[3] == Pad(m, 2)[0] == DigitChar(m / 10 % 10);
    ValueOfPad(h, 2);
    ValueOfPad(m, 2);
    ParseFourDigitClock(s);
  }

  /** For five-character cells, the parse accepts exactly the canonical
      renderings, and reads each as the time it renders. */
  lemma CanonicalClock(s: string, t: nat)
    requires |s| == 5
    ensures ParseClock(s) == Some(t) <==> t < MinutesPerDay && s == FormatClock(t)
  {
    if ParseClock(s) == Some(t) {
      AcceptedIsCanonical(s, t);
    }
    if t < MinutesPerDay && s == FormatClock(t) {
      ClockRoundTrip(t);
    }
  }

  /** An accepted five-character cell is the canonical rendering of its time. */
  lemma AcceptedIsCanonical(s: string, t: nat)
    requires |s| == 5 && ParseClock(s) == Some(t)
    ensures s == FormatClock(t)
  {
    assert s[2] == ':' && s[1] != ':';
    var h, m := Value(s[..2]), Value(s[3..]);
    assert t == h * 60 + m && m < 60;
    assert t / 60 == h && t % 60 == m;
    PadOfValue(s[..2]);
    PadOfValue(s[3..]);
    assert s == s[..2] + ":" + s[3..];
  }

  /** `hs` and `ms` are an hour and a minute field of one or two digits that
      spell the hour and minute of time `t`. */
  predicate SpellsTime(hs: string, ms: string, t: nat)
  {
    && 1 <= |hs| <= 2 && 1 <= |ms| <= 2
    && AllDigits(hs) && AllDigits(ms)
    && Value(hs) == t / 60 && Value(ms) == t % 60
  }

  /** For cells of every length, the parse accepts exactly an hour field and a
      minute field of one or two digits around a colon, with the hour below 24
      and the minute below 60, and reads the cell as the time they spell. */
  lemma ClockFields(s: string, t: nat)
    ensures ParseClock(s) == Some(t) <==>
              t < MinutesPerDay && exists hs, ms :: s == hs + ":" + ms && SpellsTime(hs, ms, t)
  {
    if ParseClock(s) == Some(t) {
      var c := if s[1] == ':' then 1 else 2;
      AcceptedSpells(s, c, t);
      assert s == s[..c] + ":" + s[c + 1..];
    }
    if t < MinutesPerDay && exists hs, ms :: s == hs + ":" + ms && SpellsTime(hs, ms, t) {
      var hs, ms :| s == hs + ":" + ms && SpellsTime(hs, ms, t);
      SpelledIsAccepted(s, hs, ms, t);
    }
  }

  /** An accepted cell with its colon at index c spells the time it is read as. */
  lemma AcceptedSpells(s: string, c: nat, t: nat)
    requires ParseClock(s) == Some(t)
    requires c == (if s[1] == ':' then 1 else 2)
    ensures c < |s| && s[c] == ':' && SpellsTime(s[..c], s[c + 1..], t)
  {
    var hs, ms := s[..c], s[c + 1..];
    var h, m := ParseHour(hs).value, ParseMinute(ms).value;
    assert t == h * 60 + m && m < 60;
    assert t / 60 == h && t % 60 == m;
    if |hs| == 2 {
      TwoDigitValue(hs);
    } else {
      assert hs[..0] == [];
    }
    if |ms| == 2 {
      TwoDigitValue(ms);
    } else {
      assert ms[..0] == [];
    }
  }

  /** Fields that spell a time of day around a colon are accepted as that time. */
  lemma SpelledIsAccepted(s: string, hs: string, ms: string, t: nat)
    requires t < MinutesPerDay
    requires s == hs + ":" + ms && SpellsTime(hs, ms, t)
    ensures ParseClock(s) == Some(t)
  {
    var c := |hs|;
    assert s[..c] == hs && s[c] == ':' && s[c + 1..] == ms;
    if c == 2 {
      assert IsDigit(hs[1]) && s[1] == hs[1];
      TwoDigitValue(hs);
    } else {
      assert hs[..0] == [];
    }
    if |ms| == 2 {
      TwoDigitValue(ms);
    } else {
      assert ms[..0] == [];
    }
    assert ParseHour(hs) == Some(t / 60);
    assert ParseMinute(ms) == Some(t % 60);
  }

  /** A cell `ab:cd` of four digits reads as hour `ab` and minute `cd` when
      both fields are in range. */
  lemma ParseFourDigitClock(s: string)
    requires |s| == 5 && s[2] == ':'
    requires AllDigits(s[..2]) && AllDigits(s[3..])
    requires s[0] <= '1' || (s[0] == '2' && s[1] <= '3')
    requires s[3] <= '5'
    ensures ParseClock(s) == Some(Value(s[..2]) * 60 + Value(s[3..]))
  {
    assert s[1] == s[..2][1];
    TwoDigitValue(s[..2]);
    TwoDigitValue(s[3..]);
  }

  /** The window's opening minute is inside it; the minute before is not. */
  lemma WindowStartIsClosed()
    ensures ParseClock("06:15") == Some(375) && InWindow(375)
    ensures ParseClock("06:14") == Some(374) && !InWindow(374)
  {
    BoundaryTime("06:15", 0, 6, 1, 5);
    BoundaryTime("06:14", 0, 6, 1, 4);
  }

  /** The window's closing minute is inside it; the minute after is not. */
  lemma WindowEndIsClosed()
    ensures ParseClock("22:00") == Some(1320) && InWindow(1320)
    ensures ParseClock("22:01") == Some(1321) && !InWindow(1321)
  {
    BoundaryTime("22:00", 2, 2, 0, 0);
    BoundaryTime("22:01", 2, 2, 0, 1);
  }

  lemma BoundaryTime(s: string, h1: nat, h2: nat, m1: nat, m2: nat)
    requires h1 < 10 && h2 < 10 && m1 < 10 && m2 < 10
    requires h1 <= 1 || (h1 == 2 && h2 <= 3)
    requires m1 <= 5
    requires s == [DigitChar(h1), DigitChar(h2), ':', DigitChar(m1), DigitChar(m2)]
    ensures ParseClock(s) == Some((10 * h1 + h2) * 60 + 10 * m1 + m2)
  {
    ParseFourDigitClock(s);
    TwoDigitValue(s[..2]);
    TwoDigitValue(s[3..]);
  }
}
