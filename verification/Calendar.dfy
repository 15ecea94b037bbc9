/**
 * Instants, calendar dates and their ISO 8601 texts.
 *
 * An instant is a count of microseconds since 0001-01-01T00:00 UTC, the zero of Python's proleptic
 * Gregorian `datetime`; a day is a count of days from the same zero.
 */
module Calendar {
  import opened Common
  import opened Text

  const SECOND := 1_000_000
  const DAY := 86_400_000_000

  function DayOf(instant: nat): nat {
    instant / DAY
  }

  // ----- the proleptic Gregorian calendar -----

  datatype Date = Date(year: nat, month: nat, day: nat)

  predicate IsLeap(year: nat) {
    year % 4 == 0 && (year % 100 != 0 || year % 400 == 0)
  }

  function YearLength(year: nat): nat {
    if IsLeap(year) then 366 else 365
  }

  function MonthLength(year: nat, month: nat): (n: nat)
    ensures 28 <= n <= 31
  {
    if month == 2 then (if IsLeap(year) then 29 else 28)
    else if month == 4 || month == 6 || month == 9 || month == 11 then 30
    else 31
  }

  /** The year reached by walking `days` forward from 1 January of `year`, and the days left over. */
  function WalkYears(days: nat, year: nat): (r: (nat, nat))
    ensures r.0 >= year && r.1 < YearLength(r.0)
    decreases days
  {
    if days < YearLength(year) then (year, days) else WalkYears(days - YearLength(year), year + 1)
  }

  /** The month (1 to 12) and the day of it (from 1) reached from the first of `month`. */
  function WalkMonths(days: nat, year: nat, month: nat): (r: (nat, nat))
    requires 1 <= month <= 12
    ensures month <= r.0 <= 12 && 1 <= r.1
    ensures r.0 < 12 ==> r.1 <= 31
    decreases 12 - month
  {
    if month == 12 || days < MonthLength(year, month) then (month, days + 1)
    else WalkMonths(days - MonthLength(year, month), year, month + 1)
  }

  function CivilDate(day: nat): Date {
    var (year, rest) := WalkYears(day, 1);
    var (month, dayOfMonth) := WalkMonths(rest, year, 1);
    Date(year, month, dayOfMonth)
  }

  /** The days in `count` years from `year` on. */
  function YearsSpan(year: nat, count: nat): nat
    decreases count
  {
    if count == 0 then 0 else YearLength(year) + YearsSpan(year + 1, count - 1)
  }

  /** The days in `count` months of `year` from `month` on. */
  function MonthsSpan(year: nat, month: nat, count: nat): nat
    decreases count
  {
    if count == 0 then 0 else MonthLength(year, month) + MonthsSpan(year, month + 1, count - 1)
  }

  lemma {:induction false} WalkYearsInverse(days: nat, year: nat)
    ensures var r := WalkYears(days, year); YearsSpan(year, r.0 - year) + r.1 == days
    decreases days
  {
    if days >= YearLength(year) {
      WalkYearsInverse(days - YearLength(year), year + 1);
    }
  }

  lemma {:induction false} WalkMonthsInverse(days: nat, year: nat, month: nat)
    requires 1 <= month <= 12
    ensures var r := WalkMonths(days, year, month); MonthsSpan(year, month, r.0 - month) + r.1 == days + 1
    decreases 12 - month
  {
    if month < 12 && days >= MonthLength(year, month) {
      WalkMonthsInverse(days - MonthLength(year, month), year, month + 1);
    }
  }

  /** Different days have different dates. */
  lemma CivilDateInjective(d: nat, e: nat)
    requires CivilDate(d) == CivilDate(e)
    ensures d == e
  {
    var (year, rest) := WalkYears(d, 1);
    WalkYearsInverse(d, 1);
    WalkYearsInverse(e, 1);
    WalkMonthsInverse(rest, year, 1);
    WalkMonthsInverse(WalkYears(e, 1).1, year, 1);
  }

  // In December the walk stops at day 31: eleven months take up at least 334 days of the year.
  lemma DayOfMonthBound(day: nat)
    ensures 1 <= CivilDate(day).month <= 12 && 1 <= CivilDate(day).day <= 31
  {
    hide WalkMonths, WalkYears;
    var (year, rest) := WalkYears(day, 1);
    DayInYear(rest, year);
  }

  lemma DayInYear(rest: nat, year: nat)
    requires rest < YearLength(year)
    ensures 1 <= WalkMonths(rest, year, 1).1 <= 31
  {
    hide WalkMonths;
    WalkMonthsInverse(rest, year, 1);
    MonthSums(year);
  }

  lemma MonthSums(year: nat)
    ensures MonthsSpan(year, 1, 11) == 306 + MonthLength(year, 2)
  {
    assert MonthsSpan(year, 10, 2) == 61;
    assert MonthsSpan(year, 7, 5) == 153;
    assert MonthsSpan(year, 4, 8) == 244;
  }

  // ----- timestamps -----

  /** The number of days in the years 1 to 9999, all that `datetime` can hold. */
  const DAYS := 3_652_059

  function DaysThrough(year: nat): int {
    365 * year + year / 4 - year / 100 + year / 400
  }

  lemma {:induction false} YearsClosedForm(year: nat, count: nat)
    requires year > 0
    ensures YearsSpan(year, count) == DaysThrough(year + count - 1) - DaysThrough(year - 1)
    decreases count
  {
    if count > 0 {
      YearsClosedForm(year + 1, count - 1);
      LeapStep(year);
    }
  }

  lemma LeapStep(year: nat)
    requires year > 0
    ensures YearLength(year) == DaysThrough(year) - DaysThrough(year - 1)
  {
    StepsOfFour(year);
    StepsOfHundred(year);
    StepsOfFourHundred(year);
    HundredsAreFours(year);
    FourHundredsAreHundreds(year);
  }

  lemma StepsOfFour(n: nat)
    requires n > 0
    ensures n / 4 == (n - 1) / 4 + if n % 4 == 0 then 1 else 0
  {
  }

  lemma StepsOfHundred(n: nat)
    requires n > 0
    ensures n / 100 == (n - 1) / 100 + if n % 100 == 0 then 1 else 0
  {
  }

  lemma StepsOfFourHundred(n: nat)
    requires n > 0
    ensures n / 400 == (n - 1) / 400 + if n % 400 == 0 then 1 else 0
  {
  }

  lemma HundredsAreFours(n: nat)
    ensures n % 100 == 0 ==> n % 4 == 0
  {
    var (h, r) := (n / 100, n % 100);
    if r == 0 {
      FourTimes(n, 25 * h);
    }
  }

  lemma FourTimes(n: nat, m: nat)
    requires n == 4 * m
    ensures n % 4 == 0
  {
  }

  lemma FourHundredsAreHundreds(n: nat)
    ensures n % 400 == 0 ==> n % 100 == 0
  {
    var (h, r) := (n / 400, n % 400);
    if r == 0 {
      HundredTimes(n, 4 * h);
    }
  }

  lemma HundredTimes(n: nat, m: nat)
    requires n == 100 * m
    ensures n % 100 == 0
  {
  }

  lemma FourDigitYear(day: Day)
    ensures CivilDate(day).year < 10000
  {
    var year := CivilDate(day).year;
    WalkYearsInverse(day, 1);
    YearsClosedForm(1, year - 1);
    YearBound(year - 1);
  }

  lemma YearBound(year: nat)
    requires DaysThrough(year) < DAYS
    ensures year < 9999
  {
  }

  /**
   * A `datetime`: a wall clock reading in microseconds and, unless it is naive, the offset of that
   * clock from UTC, less than a day. The reading and its instant lie in the years 1 to 9999.
   */
  datatype RawStamp = Stamp(wall: int, offset: Option<int>)
  {
    /** A naive reading is taken as UTC. */
    function Utc(): int {
      match offset
      case None => wall
      case Some(o) => wall - o
    }

    predicate InRange() {
      && 0 <= wall < DAYS * DAY && 0 <= Utc() < DAYS * DAY
      && (offset.Some? ==> -DAY < offset.value < DAY)
    }
  }

  type Stamp = s: RawStamp | s.InRange() witness Stamp(0, None)

  type Day = d: nat | d < DAYS

  function UtcDay(s: Stamp): Day {
    DayOf(s.Utc())
  }

  /** `date.isoformat()`. */
  function DateText(d: Day): (s: string)
    ensures |s| == 10
  {
    var date := CivilDate(d);
    Fixed(Dec, date.year, 4) + "-" + Fixed(Dec, date.month, 2) + "-" + Fixed(Dec, date.day, 2)
  }

  lemma DateTextInjective(d: Day, e: Day)
    requires DateText(d) == DateText(e)
    ensures d == e
  {
    var a, b := CivilDate(d), CivilDate(e);
    DayOfMonthBound(d);
    DayOfMonthBound(e);
    SplitThree(Fixed(Dec, a.year, 4), "-", Fixed(Dec, a.month, 2), "-", Fixed(Dec, a.day, 2),
               Fixed(Dec, b.year, 4), Fixed(Dec, b.month, 2), Fixed(Dec, b.day, 2));
    FieldBounds();
    FourDigitYear(d);
    FourDigitYear(e);
    SameFixed(a.year, b.year, 4);
    SameFixed(a.month, b.month, 2);
    SameFixed(a.day, b.day, 2);
    CivilDateInjective(d, e);
  }

  lemma FieldBounds()
    ensures Pow(10, 2) == 100 && Pow(10, 4) == 10000 && Pow(10, 6) == SECOND
  {
    assert Pow(10, 3) == 1000;
  }

  lemma SameFixed(n: nat, m: nat, width: nat)
    requires n < Pow(10, width) && m < Pow(10, width)
    requires Fixed(Dec, n, width) == Fixed(Dec, m, width)
    ensures n == m
  {
    FixedRecovers(Dec, n, width);
    FixedRecovers(Dec, m, width);
  }

  /** Hours, minutes and seconds, with six more digits only when there is a fraction of a second. */
  function ClockText(micros: nat): (s: string)
    requires micros < DAY
    ensures |s| == if micros % SECOND == 0 then 8 else 15
  {
    var seconds := micros / SECOND;
    Fixed(Dec, seconds / 3600, 2) + ":" + Fixed(Dec, seconds / 60 % 60, 2) + ":" + Fixed(Dec, seconds % 60, 2)
    + if micros % SECOND == 0 then "" else "." + Fixed(Dec, micros % SECOND, 6)
  }

  lemma ClockTextInjective(m: nat, n: nat)
    requires m < DAY && n < DAY && ClockText(m) == ClockText(n)
    ensures m == n
  {
    var (s, t) := (m / SECOND, n / SECOND);
    var (hs, ht) := (Fixed(Dec, s / 3600, 2), Fixed(Dec, t / 3600, 2));
    var (ms, mt) := (Fixed(Dec, s / 60 % 60, 2), Fixed(Dec, t / 60 % 60, 2));
    var (ss, st) := (Fixed(Dec, s % 60, 2), Fixed(Dec, t % 60, 2));
    var fs := if m % SECOND == 0 then "" else "." + Fixed(Dec, m % SECOND, 6);
    var ft := if n % SECOND == 0 then "" else "." + Fixed(Dec, n % SECOND, 6);
    SplitEqual(hs + ":" + ms + ":" + ss, fs, ht + ":" + mt + ":" + st, ft);
    SplitThree(hs, ":", ms, ":", ss, ht, mt, st);
    FieldBounds();
    SameFixed(s / 3600, t / 3600, 2);
    SameFixed(s / 60 % 60, t / 60 % 60, 2);
    SameFixed(s % 60, t % 60, 2);
    assert s == t by {
      assert s / 60 / 60 == s / 3600 && t / 60 / 60 == t / 3600;
    }
    if m % SECOND != 0 {
      SplitEqual(".", Fixed(Dec, m % SECOND, 6), ".", Fixed(Dec, n % SECOND, 6));
      SameFixed(m % SECOND, n % SECOND, 6);
    }
  }

  /** `value.astimezone(UTC).isoformat()`, a naive `value` being read as UTC first. */
  function UtcText(s: Stamp): string {
    DateText(UtcDay(s)) + "T" + ClockText(s.Utc() % DAY) + "+00:00"
  }

  /** Two timestamps are written alike exactly when they are the same instant. */
  lemma UtcTextIsInstant(s: Stamp, t: Stamp)
    ensures UtcText(s) == UtcText(t) <==> s.Utc() == t.Utc()
  {
    if UtcText(s) == UtcText(t) {
      var (ds, dt) := (DateText(UtcDay(s)), DateText(UtcDay(t)));
      var (cs, ct) := (ClockText(s.Utc() % DAY), ClockText(t.Utc() % DAY));
      SplitThree(ds, "T", cs, "+00:00", "", dt, ct, "");
      DateTextInjective(UtcDay(s), UtcDay(t));
      ClockTextInjective(s.Utc() % DAY, t.Utc() % DAY);
      assert s.Utc() == DayOf(s.Utc()) * DAY + s.Utc() % DAY;
      assert t.Utc() == DayOf(t.Utc()) * DAY + t.Utc() % DAY;
    }
  }

  /** The `+HH:MM` that ends an aware time, with seconds and their fraction only when there are any. */
  function OffsetText(offset: int): string
    requires -DAY < offset < DAY
  {
    var size := if offset < 0 then -offset else offset;
    var clock := ClockText(size);
    (if offset < 0 then "-" else "+") + if size % (60 * SECOND) == 0 then clock[..5] else clock
  }

  /** `datetime.isoformat()`. */
  function IsoText(s: Stamp): string {
    DateText(DayOf(s.wall)) + ("T" + (ClockText(s.wall % DAY) + OffsetTail(s.offset)))
  }

  function OffsetTail(offset: Option<int>): string
    requires offset.Some? ==> -DAY < offset.value < DAY
  {
    if offset.Some? then OffsetText(offset.value) else ""
  }

  lemma OffsetTextInjective(o: int, p: int)
    requires -DAY < o < DAY && -DAY < p < DAY && OffsetText(o) == OffsetText(p)
    ensures o == p
  {
    hide ClockText;
    var (m, n) := (if o < 0 then -o else o, if p < 0 then -p else p);
    var (c, d) := (ClockText(m), ClockText(n));
    var minute := 60 * SECOND;
    assert OffsetText(o)[1..] == (if m % minute == 0 then c[..5] else c);
    assert OffsetText(p)[1..] == (if n % minute == 0 then d[..5] else d);
    assert OffsetText(o)[0] == OffsetText(p)[0];
    if m % minute == 0 {
      WholeMinutes(m, n);
    } else {
      ClockTextInjective(m, n);
    }
  }

  /** Whole minutes are told by the first five characters. */
  lemma WholeMinutes(m: nat, n: nat)
    requires m < DAY && n < DAY && m % (60 * SECOND) == 0 && n % (60 * SECOND) == 0
    requires ClockText(m)[..5] == ClockText(n)[..5]
    ensures m == n
  {
    HoursAndMinutes(m);
    HoursAndMinutes(n);
    hide ClockText;
    SameMinutes(m / SECOND / 3600, m / SECOND / 60 % 60, n / SECOND / 3600, n / SECOND / 60 % 60);
    MinutesAdd(m);
    MinutesAdd(n);
  }

  lemma HoursAndMinutes(m: nat)
    requires m < DAY
    ensures m / SECOND / 3600 < 24 && m / SECOND / 60 % 60 < 60
    ensures ClockText(m)[..5] == Fixed(Dec, m / SECOND / 3600, 2) + ":" + Fixed(Dec, m / SECOND / 60 % 60, 2)
  {
  }

  lemma SameMinutes(h: nat, k: nat, i: nat, l: nat)
    requires h < 24 && k < 60 && i < 24 && l < 60
    requires Fixed(Dec, h, 2) + ":" + Fixed(Dec, k, 2) == Fixed(Dec, i, 2) + ":" + Fixed(Dec, l, 2)
    ensures h == i && k == l
  {
    SplitEqual(Fixed(Dec, h, 2) + ":", Fixed(Dec, k, 2), Fixed(Dec, i, 2) + ":", Fixed(Dec, l, 2));
    SplitEqual(Fixed(Dec, h, 2), ":", Fixed(Dec, i, 2), ":");
    FieldBounds();
    SameFixed(h, i, 2);
    SameFixed(k, l, 2);
  }

  lemma MinutesAdd(m: nat)
    requires m % (60 * SECOND) == 0
    ensures m == (m / SECOND / 3600 * 60 + m / SECOND / 60 % 60) * (60 * SECOND)
  {
    var minutes := m / (60 * SECOND);
    assert m / SECOND == minutes * 60;
  }

  /** A clock ends where the next character is no point. */
  lemma ClockEnds(m: nat, x: string, n: nat, y: string)
    requires m < DAY && n < DAY && ClockText(m) + x == ClockText(n) + y
    requires (x != "" ==> x[0] != '.') && (y != "" ==> y[0] != '.')
    ensures m == n && x == y
  {
    var (c, d) := (ClockText(m), ClockText(n));
    assert |c| == 15 ==> c[8] == '.';
    assert |d| == 15 ==> d[8] == '.';
    hide ClockText;
    assert |c| > 8 ==> (c + x)[8] == c[8];
    assert |d| > 8 ==> (d + y)[8] == d[8];
    assert |c| == 8 && x != "" ==> (c + x)[8] == x[0];
    assert |d| == 8 && y != "" ==> (d + y)[8] == y[0];
    SplitEqual(c, x, d, y);
    ClockTextInjective(m, n);
  }

  lemma OffsetTailInjective(o: Option<int>, p: Option<int>)
    requires (o.Some? ==> -DAY < o.value < DAY) && (p.Some? ==> -DAY < p.value < DAY)
    ensures OffsetTail(o) == OffsetTail(p) ==> o == p
    ensures OffsetTail(o) != "" ==> OffsetTail(o)[0] != '.'
    ensures OffsetTail(p) != "" ==> OffsetTail(p)[0] != '.'
  {
    hide ClockText;
    if o.Some? && p.Some? && OffsetTail(o) == OffsetTail(p) {
      OffsetTextInjective(o.value, p.value);
    }
  }

  /** `isoformat` keeps both the reading of the clock and its offset. */
  lemma IsoTextInjective(s: Stamp, t: Stamp)
    requires IsoText(s) == IsoText(t)
    ensures s == t
  {
    hide OffsetTail, DateText, ClockText;
    OffsetTailInjective(s.offset, t.offset);
    SameIso(DayOf(s.wall), s.wall % DAY, OffsetTail(s.offset), DayOf(t.wall), t.wall % DAY, OffsetTail(t.offset));
    assert s.wall == DayOf(s.wall) * DAY + s.wall % DAY && t.wall == DayOf(t.wall) * DAY + t.wall % DAY;
  }

  lemma SameIso(d: Day, m: nat, x: string, e: Day, n: nat, y: string)
    requires m < DAY && n < DAY && (x != "" ==> x[0] != '.') && (y != "" ==> y[0] != '.')
    requires DateText(d) + ("T" + (ClockText(m) + x)) == DateText(e) + ("T" + (ClockText(n) + y))
    ensures d == e && m == n && x == y
  {
    hide DateText, ClockText;
    SplitEqual(DateText(d), "T" + (ClockText(m) + x), DateText(e), "T" + (ClockText(n) + y));
    DateTextInjective(d, e);
    SplitEqual("T", ClockText(m) + x, "T", ClockText(n) + y);
    ClockEnds(m, x, n, y);
  }

  lemma DaysThroughGrows(a: nat, b: nat)
    requires a <= b
    ensures DaysThrough(a) <= DaysThrough(b)
  {
  }

  /** The year of a day, by counting leap years. */
  lemma YearOf(day: nat, year: nat)
    requires year > 0 && DaysThrough(year - 1) <= day < DaysThrough(year)
    ensures WalkYears(day, 1) == (year, day - DaysThrough(year - 1))
  {
    hide DaysThrough;
    var (y, left) := WalkYears(day, 1);
    WalkYearsInverse(day, 1);
    YearsClosedForm(1, y - 1);
    LeapStep(y);
    assert DaysThrough(0) == 0 by { NoDays(); }
    if y < year {
      DaysThroughGrows(y, year - 1);
    } else if y > year {
      DaysThroughGrows(year, y - 1);
    }
  }

  lemma NoDays()
    ensures DaysThrough(0) == 0
  {
  }

  /** The count is anchored: day 719162 was Thursday, 1 January 1970. */
  lemma Epoch()
    ensures CivilDate(719162) == Date(1970, 1, 1) && 719162 % 7 == 3
  {
    hide WalkYears, WalkMonths, DaysThrough;
    SeventyYears();
    YearOf(719162, 1970);
    assert WalkMonths(0, 1970, 1) == (1, 1) by { FirstOfJanuary(); }
  }

  lemma SeventyYears()
    ensures DaysThrough(1969) == 719162 && DaysThrough(1970) == 719527
  {
  }

  lemma FirstOfJanuary()
    ensures WalkMonths(0, 1970, 1) == (1, 1)
  {
  }
}
