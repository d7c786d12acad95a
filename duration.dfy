/** The shared shape of the three secondsToTimeString functions and of
    getDate: Go's truncating division, the year/month/day decomposition,
    the "1y2m3d" text, and a reader that recovers the components from it. */
module Duration {
  import opened Decimal
  import opened Results

  /** Go's integer division, which truncates toward zero (Dafny's `/` is
      Euclidean). */
  function GoDiv(a: int, b: int): (q: int)
    requires b > 0
    ensures a >= 0 ==> q == a / b
    ensures a < 0 ==> q <= 0
  {
    if a >= 0 then a / b else -((-a) / b)
  }

  /** What `a -= GoDiv(a, b) * b` leaves: Go's `a % b`, which takes the sign
      of `a`. */
  lemma GoRemainder(a: int, b: int)
    requires b > 0
    ensures a >= 0 ==> 0 <= a - GoDiv(a, b) * b < b
    ensures a < 0 ==> -b < a - GoDiv(a, b) * b <= 0
  {
    if a < 0 {
      var q, r := (-a) / b, (-a) % b;
      assert -a == q * b + r;
    } else {
      assert a == (a / b) * b + a % b;
    }
  }

  datatype Ymd = Ymd(years: int, months: int, days: int)

  /** The straight-line arithmetic of secondsToTimeString: whole years, then
      whole months of what is left, then whole days of what is left. */
  function Decompose(s: int, year: int, month: int, day: int): Ymd
    requires 0 < day <= month <= year
  {
    var years := GoDiv(s, year);
    var s1 := s - years * year;
    var months := GoDiv(s1, month);
    var s2 := s1 - months * month;
    Ymd(years, months, GoDiv(s2, day))
  }

  /** For a non-negative number of seconds the decomposition is the usual
      quotient/remainder chain, and what it drops is less than one day. */
  lemma DecomposeNonNegative(s: int, year: int, month: int, day: int)
    requires 0 < day <= month <= year && s >= 0
    ensures var c := Decompose(s, year, month, day);
      && c.years == s / year
      && c.months == (s % year) / month
      && c.days == (s % year) % month / day
      && 0 <= c.years && 0 <= c.months && 0 <= c.days
      && c.years * year + c.months * month + c.days * day <= s
      && s < c.years * year + c.months * month + (c.days + 1) * day
  {
    var c := Decompose(s, year, month, day);
    var r1 := s % year;
    RemainderStep(s, year);
    assert s - c.years * year == r1;
    var r2 := r1 % month;
    RemainderStep(r1, month);
    assert r1 - c.months * month == r2;
    RemainderStep(r2, day);
  }

  /** One step of the chain: subtracting the whole quotient leaves the
      remainder. */
  lemma RemainderStep(a: int, b: int)
    requires a >= 0 && b > 0
    ensures GoDiv(a, b) == a / b && a - GoDiv(a, b) * b == a % b
    ensures 0 <= a / b && 0 <= a % b < b
  {
    var q, r := a / b, a % b;
    assert a == q * b + r;
  }

  /** A negative number of seconds decomposes into no positive component. */
  lemma DecomposeNegative(s: int, year: int, month: int, day: int)
    requires 0 < day <= month <= year && s < 0
    ensures var c := Decompose(s, year, month, day);
      c.years <= 0 && c.months <= 0 && c.days <= 0
  {
    GoRemainder(s, year);
    var s1 := s - GoDiv(s, year) * year;
    GoRemainder(s1, month);
  }

  /** The positive part of a component; what the text shows of it. */
  function Pos(n: int): nat {
    if n > 0 then n else 0
  }

  /** One component of the text: its digits and unit, or nothing when the
      component is not positive. */
  function Part(n: int, unit: char): string {
    if n > 0 then NatToString(n) + [unit] else ""
  }

  /** The text of secondsToTimeString: the positive components in year,
      month, day order with suffixes y, m, d, or "today" when none is
      positive. */
  function Render(c: Ymd): string {
    var ts := Part(c.years, 'y') + Part(c.months, 'm') + Part(c.days, 'd');
    if ts == "" then "today" else ts
  }

  /** The text is never empty, and it is "today" exactly when no component
      is positive. */
  lemma RenderToday(c: Ymd)
    ensures Render(c) != ""
    ensures Render(c) == "today" <==> (c.years <= 0 && c.months <= 0 && c.days <= 0)
  {
    var ts := Part(c.years, 'y') + Part(c.months, 'm') + Part(c.days, 'd');
    if ts != "" {
      assert IsDigit(ts[0]);
      assert ts != "today" by { assert !IsDigit("today"[0]); }
    }
  }

  /** Reads one component with the given unit off the front of the text:
      its value and the rest, or 0 and the text unchanged when the text
      does not start with digits followed by that unit. */
  function TakePart(s: string, unit: char): (nat, string) {
    var k := DigitRun(s);
    if 0 < k < |s| && s[k] == unit then (ParseNat(s[..k]), s[k + 1..]) else (0, s)
  }

  /** Reads a text of secondsToTimeString back into its components. */
  function ParseDuration(r: string): Option<Ymd> {
    if r == "today" then Some(Ymd(0, 0, 0))
    else
      var (y, r1) := TakePart(r, 'y');
      var (m, r2) := TakePart(r1, 'm');
      var (d, r3) := TakePart(r2, 'd');
      if r != "" && r3 == "" then Some(Ymd(y, m, d)) else None
  }

  /** A component is read back with its own unit and skipped by any other. */
  lemma TakePartOf(n: int, unit: char, other: char, rest: string)
    requires !IsDigit(unit) && !IsDigit(other) && unit != other
    ensures n > 0 ==> TakePart(Part(n, unit) + rest, unit) == (n, rest)
    ensures n > 0 ==> TakePart(Part(n, unit) + rest, other) == (0, Part(n, unit) + rest)
  {
    if n > 0 {
      var digits := NatToString(n);
      var s := digits + [unit] + rest;
      assert s == digits + ([unit] + rest);
      DigitRunOf(digits, [unit] + rest);
      assert s[..|digits|] == digits;
      assert s[|digits| + 1..] == rest;
      ParseNatToString(n);
    }
  }

  /** Reading the years off the text of `c` leaves the months and days. */
  lemma TakeYears(c: Ymd)
    ensures var pm, pd := Part(c.months, 'm'), Part(c.days, 'd');
      TakePart(Part(c.years, 'y') + pm + pd, 'y') == (Pos(c.years), pm + pd)
  {
    var py, pm, pd := Part(c.years, 'y'), Part(c.months, 'm'), Part(c.days, 'd');
    assert py + pm + pd == py + (pm + pd);
    if c.years > 0 {
      TakePartOf(c.years, 'y', 'm', pm + pd);
    } else {
      assert py + (pm + pd) == pm + pd;
      if c.months > 0 {
        TakePartOf(c.months, 'm', 'y', pd);
      } else if c.days > 0 {
        assert pm + pd == pd + "";
        TakePartOf(c.days, 'd', 'y', "");
      } else {
        assert pm + pd == "";
      }
    }
  }

  /** Reading the months off the months and days leaves the days. */
  lemma TakeMonths(c: Ymd)
    ensures var pd := Part(c.days, 'd');
      TakePart(Part(c.months, 'm') + pd, 'm') == (Pos(c.months), pd)
  {
    var pm, pd := Part(c.months, 'm'), Part(c.days, 'd');
    if c.months > 0 {
      TakePartOf(c.months, 'm', 'd', pd);
    } else {
      assert pm + pd == pd + "" && pd + "" == pd;
      if c.days > 0 {
        TakePartOf(c.days, 'd', 'm', "");
      } else {
        assert pm + pd == "";
      }
    }
  }

  /** Reading the days off the days leaves nothing. */
  lemma TakeDays(c: Ymd)
    ensures TakePart(Part(c.days, 'd'), 'd') == (Pos(c.days), "")
  {
    if c.days > 0 {
      TakePartOf(c.days, 'd', 'm', "");
      assert Part(c.days, 'd') + "" == Part(c.days, 'd');
    }
  }

  /** Reading the text back gives the positive parts of the components:
      no component is lost, and the text names each in its place. */
  lemma RenderParses(c: Ymd)
    ensures ParseDuration(Render(c)) == Some(Ymd(Pos(c.years), Pos(c.months), Pos(c.days)))
  {
    var py, pm, pd := Part(c.years, 'y'), Part(c.months, 'm'), Part(c.days, 'd');
    var ts := py + pm + pd;
    RenderToday(c);
    if ts != "" {
      TakeYears(c);
      TakeMonths(c);
      TakeDays(c);
    }
  }

  /** The text before the first occurrence of `sep`, or all of `s` when
      there is none: what `strings.Split(s, sep)[0]` gives. */
  function BeforeFirst(s: string, sep: char): (r: string)
    ensures r <= s && sep !in r
    ensures |r| < |s| ==> s[|r|] == sep
  {
    if s == [] || s[0] == sep then [] else [s[0]] + BeforeFirst(s[1..], sep)
  }

  /** The text before `sep` is determined by where `sep` first occurs. */
  lemma BeforeFirstAt(s: string, sep: char, k: nat)
    requires k <= |s| && sep !in s[..k]
    requires k < |s| ==> s[k] == sep
    ensures BeforeFirst(s, sep) == s[..k]
  {
  }
}
