/** dateutils.go: a second generation of the utils.go helpers, with
    exported constant names. */
module DateUtils {
  import opened Duration
  import opened Results
  import Utils

  const SecondsInMinute := 60
  const SecondsInHour := 60 * SecondsInMinute
  const SecondsInDay := 24 * SecondsInHour
  const SecondsInMonth := 30 * SecondsInDay
  const SecondsInYear := 365 * SecondsInDay

  function SecondsToTimeString(seconds: int): string {
    Render(Decompose(seconds, SecondsInYear, SecondsInMonth, SecondsInDay))
  }

  /** Only the positive components are written, in year, month, day
      order. */
  lemma SecondsToTimeStringMeaning(s: int)
    requires s >= 0
    ensures ParseDuration(SecondsToTimeString(s))
      == Some(Ymd(s / SecondsInYear, (s % SecondsInYear) / SecondsInMonth,
                  (s % SecondsInYear) % SecondsInMonth / SecondsInDay))
  {
    var c := Decompose(s, SecondsInYear, SecondsInMonth, SecondsInDay);
    DecomposeNonNegative(s, SecondsInYear, SecondsInMonth, SecondsInDay);
    assert Pos(c.years) == c.years && Pos(c.months) == c.months && Pos(c.days) == c.days;
    RenderParses(c);
  }

  /** The text is "today" exactly when no component is positive: below one
      day, every negative input included. */
  lemma SecondsToTimeStringToday(s: int)
    ensures SecondsToTimeString(s) == "today" <==> s < SecondsInDay
  {
    var c := Decompose(s, SecondsInYear, SecondsInMonth, SecondsInDay);
    RenderToday(c);
    if s >= 0 {
      DecomposeNonNegative(s, SecondsInYear, SecondsInMonth, SecondsInDay);
      if c.years <= 0 && c.months <= 0 && c.days <= 0 {
        assert c.years == 0 && c.months == 0 && c.days == 0;
      }
    } else {
      DecomposeNegative(s, SecondsInYear, SecondsInMonth, SecondsInDay);
    }
  }

  function GetDate(dt: string): (r: string)
    ensures r <= dt && 'T' !in r
    ensures |r| < |dt| ==> dt[|r|] == 'T'
  {
    BeforeFirst(dt, 'T')
  }

  function DaysSince(elapsed: int): (d: int)
    ensures elapsed >= 0 ==> d >= 0 && 0 <= elapsed - d * SecondsInDay < SecondsInDay
    ensures elapsed < 0 ==> d <= 0 && -SecondsInDay < elapsed - d * SecondsInDay <= 0
  {
    GoRemainder(elapsed, SecondsInDay);
    GoDiv(elapsed, SecondsInDay)
  }

  /** Both generations compute the same text, the same day count and the
      same date. */
  lemma SameAsUtils(s: int, dt: string)
    ensures SecondsToTimeString(s) == Utils.SecondsToTimeString(s)
    ensures DaysSince(s) == Utils.DaysSince(s)
    ensures GetDate(dt) == Utils.GetDate(dt)
  {
  }
}
