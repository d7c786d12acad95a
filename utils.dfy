/** utils.go: time constants, secondsToTimeString with 365-day years,
    getDate and the generic min. */
module Utils {
  import opened Duration
  import opened Results
  import Decimal

  const SecondsInMinute := 60
  const SecondsInHour := 60 * SecondsInMinute
  const SecondsInDay := 24 * SecondsInHour
  const SecondsInWeek := 7 * SecondsInDay
  const SecondsInMonth := 30 * SecondsInDay
  const SecondsInYear := 365 * SecondsInDay

  /** A whole number of seconds (Go truncates the float64 argument to int
      first) as years, months and days, e.g. "1y2m3d", or "today". */
  function SecondsToTimeString(seconds: int): string {
    Render(Decompose(seconds, SecondsInYear, SecondsInMonth, SecondsInDay))
  }

  /** For non-negative seconds the text names exactly the positive parts of
      s div 365 days, then the remainder div 30 days, then the remainder
      div one day; whatever is below a day is dropped. */
  lemma SecondsToTimeStringMeaning(s: int)
    requires s >= 0
    ensures var y := s / SecondsInYear;
      var m := (s % SecondsInYear) / SecondsInMonth;
      var d := (s % SecondsInYear) % SecondsInMonth / SecondsInDay;
      && ParseDuration(SecondsToTimeString(s)) == Some(Ymd(y, m, d))
      && y * SecondsInYear + m * SecondsInMonth + d * SecondsInDay <= s
      && s < y * SecondsInYear + m * SecondsInMonth + (d + 1) * SecondsInDay
  {
    var c := Decompose(s, SecondsInYear, SecondsInMonth, SecondsInDay);
    DecomposeNonNegative(s, SecondsInYear, SecondsInMonth, SecondsInDay);
    assert Pos(c.years) == c.years && Pos(c.months) == c.months && Pos(c.days) == c.days;
    RenderParses(c);
  }

  /** With 365-day years and 30-day months a text names at most 12 months
      and at most 29 days. */
  lemma ComponentBounds(s: int)
    requires s >= 0
    ensures (s % SecondsInYear) / SecondsInMonth <= 12
    ensures (s % SecondsInYear) % SecondsInMonth / SecondsInDay < 30
  {
    var r1 := s % SecondsInYear;
    assert 0 <= r1 < 31536000;
    var r2 := r1 % 2592000;
    assert 0 <= r2 < 2592000;
  }

  /** The text is never empty; it is "today" exactly when no component is
      positive, which includes every negative input. */
  lemma SecondsToTimeStringToday(s: int)
    ensures SecondsToTimeString(s) != ""
    ensures s < SecondsInDay ==> SecondsToTimeString(s) == "today"
    ensures s >= SecondsInDay ==> SecondsToTimeString(s) != "today"
  {
    var c := Decompose(s, SecondsInYear, SecondsInMonth, SecondsInDay);
    RenderToday(c);
    if s >= 0 {
      DecomposeNonNegative(s, SecondsInYear, SecondsInMonth, SecondsInDay);
      if c.years <= 0 && c.months <= 0 && c.days <= 0 {
        assert c.years == 0 && c.months == 0 && c.days == 0;
      }
    } else {
      DecomposeNegative(s, SecondsInYear, SecondsInMonth, SecondsInDay);
    }
  }

  /** The cases of the repository's table test. */
  lemma SecondsToTimeStringExamples()
    ensures SecondsToTimeString(0) == "today"
    ensures SecondsToTimeString(5 * SecondsInDay) == "5d"
    ensures SecondsToTimeString(SecondsInMonth) == "1m"
    ensures SecondsToTimeString(SecondsInYear + 2 * SecondsInMonth + 3 * SecondsInDay) == "1y2m3d"
  {
    assert Decompose(0, SecondsInYear, SecondsInMonth, SecondsInDay) == Ymd(0, 0, 0);
    assert Decompose(432000, SecondsInYear, SecondsInMonth, SecondsInDay) == Ymd(0, 0, 5);
    assert Decompose(2592000, SecondsInYear, SecondsInMonth, SecondsInDay) == Ymd(0, 1, 0);
    assert Decompose(36979200, SecondsInYear, SecondsInMonth, SecondsInDay) == Ymd(1, 2, 3);
    assert Render(Ymd(0, 0, 5)) == "5d";
    assert Render(Ymd(0, 1, 0)) == "1m";
    assert Render(Ymd(1, 2, 3)) == "1y2m3d";
  }

  /** The date part of an ISO-8601 timestamp: the text before the first
      'T', or the whole text when it has none. */
  function GetDate(dt: string): (r: string)
    ensures r <= dt && 'T' !in r
    ensures |r| < |dt| ==> dt[|r|] == 'T'
  {
    BeforeFirst(dt, 'T')
  }

  lemma GetDateExample()
    ensures GetDate("2020-02-03T12:34:56Z") == "2020-02-03"
  {
    var s := "2020-02-03T12:34:56Z";
    BeforeFirstAt(s, 'T', 10);
  }

  /** daysSince, given the seconds elapsed since the timestamp (already
      truncated to an int): whole days, truncated toward zero, so that what
      is left over is less than a day and has the sign of the elapsed time. */
  function DaysSince(elapsed: int): (d: int)
    ensures elapsed >= 0 ==> d >= 0 && 0 <= elapsed - d * SecondsInDay < SecondsInDay
    ensures elapsed < 0 ==> d <= 0 && -SecondsInDay < elapsed - d * SecondsInDay <= 0
  {
    GoRemainder(elapsed, SecondsInDay);
    GoDiv(elapsed, SecondsInDay)
  }

  /** The smaller of two integers: `a` when a < b, else `b`. */
  function Min(a: int, b: int): (r: int)
    ensures r <= a && r <= b
    ensures r == a || r == b
  {
    if a < b then a else b
  }
}
