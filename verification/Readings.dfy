/** Reading text forms back: each is recovered by a reader that knows only the form's definition. */
module Readings {
  import opened Common
  import opened Text
  import opened Calendar
  import Base64

  /** The number a text of decimal digits stands for; anything else counts as 0. */
  function Num(s: string): nat {
    if s == "" then 0
    else Num(s[..|s| - 1]) * 10 + var c := s[|s| - 1]; if '0' <= c <= '9' then c as int - '0' as int else 0
  }

  lemma {:induction false} NumFixed(n: nat, width: nat)
    requires n < Pow(10, width)
    ensures Num(Fixed(Dec, n, width)) == n
    decreases width
  {
    if width > 0 {
      var s := Fixed(Dec, n, width);
      assert s[..width - 1] == Fixed(Dec, n / 10, width - 1);
      NumFixed(n / 10, width - 1);
    }
  }

  // ----- dates -----

  /** The days of a year before a month, in closed form. */
  function DaysBefore(year: nat, month: nat): int {
    (367 * month - 362) / 12 - (if month <= 2 then 0 else if IsLeap(year) then 1 else 2)
  }

  /** The days before a date of the proleptic Gregorian calendar, in closed form. */
  function DayNumber(year: nat, month: nat, day: nat): int
    requires year > 0
  {
    365 * (year - 1) + (year - 1) / 4 - (year - 1) / 100 + (year - 1) / 400 + DaysBefore(year, month) + day - 1
  }

  lemma MonthStep(year: nat, month: nat)
    requires 1 <= month < 12
    ensures DaysBefore(year, month + 1) == DaysBefore(year, month) + MonthLength(year, month)
  {
    hide IsLeap;
  }

  lemma {:induction false} MonthsClosedForm(year: nat, month: nat)
    requires 1 <= month <= 12
    ensures MonthsSpan(year, 1, month - 1) == DaysBefore(year, month)
  {
    hide IsLeap, MonthLength;
    if month > 1 {
      hide DaysBefore, MonthsSpan;
      MonthsClosedForm(year, month - 1);
      MonthStep(year, month - 1);
      MonthAdds(year, month - 1);
    }
  }

  /** One more month. */
  lemma MonthAdds(year: nat, month: nat)
    requires 1 <= month < 12
    ensures MonthsSpan(year, 1, month) == MonthsSpan(year, 1, month - 1) + MonthLength(year, month)
  {
    hide MonthLength;
    SpanAdds(year, 1, month);
  }

  lemma {:induction false} SpanAdds(year: nat, month: nat, count: nat)
    requires count > 0
    ensures MonthsSpan(year, month, count) == MonthsSpan(year, month, count - 1) + MonthLength(year, month + count - 1)
    decreases count
  {
    hide MonthLength;
    if count > 1 {
      SpanAdds(year, month + 1, count - 1);
    }
  }

  /** The date of a day is the one whose days before it are counted in closed form. */
  lemma CivilDateIs(day: nat)
    ensures var c := CivilDate(day); c.year > 0 && DayNumber(c.year, c.month, c.day) == day
    ensures 1 <= CivilDate(day).month <= 12 && 1 <= CivilDate(day).day <= 31
  {
    hide WalkYears, WalkMonths, IsLeap, MonthsSpan, YearsSpan;
    var (year, rest) := WalkYears(day, 1);
    var (month, dayOfMonth) := WalkMonths(rest, year, 1);
    WalkYearsInverse(day, 1);
    WalkMonthsInverse(rest, year, 1);
    YearsClosedForm(1, year - 1);
    MonthsClosedForm(year, month);
    DayOfMonthBound(day);
  }

  /** The day an ISO date names. */
  function ReadDay(s: string): int
    requires |s| >= 10
  {
    var year := Num(s[..4]);
    if year == 0 then -1 else DayNumber(year, Num(s[5..7]), Num(s[8..10]))
  }

  lemma DateTextRead(d: Day)
    ensures var s := DateText(d); ReadDay(s) == d && s[4] == '-' && s[7] == '-'
  {
    var c := CivilDate(d);
    CivilDateIs(d);
    FourDigitYear(d);
    FieldBounds();
    NumFixed(c.year, 4);
    NumFixed(c.month, 2);
    NumFixed(c.day, 2);
    var (y, m, n) := (Fixed(Dec, c.year, 4), Fixed(Dec, c.month, 2), Fixed(Dec, c.day, 2));
    hide CivilDate, Fixed, Num, DayNumber;
    ThreeParts(y, "-", m, "-", n);
  }

  /** The parts of a text cut at known places. */
  lemma ThreeParts(a: string, s: string, b: string, t: string, c: string)
    requires |s| == |t| == 1
    ensures var x := a + s + b + t + c;
            && x[..|a|] == a && x[|a|] == s[0] && x[|a| + 1..|a| + 1 + |b|] == b && x[|a| + 1 + |b|] == t[0]
            && x[|a| + 2 + |b|..] == c
            && x[|a| + 2 + |b|..|x|] == c
  {
  }

  // ----- times -----

  /** The microseconds since midnight that a clock text names. */
  function ReadClock(s: string): nat
    requires |s| >= 8
  {
    ((Num(s[..2]) * 60 + Num(s[3..5])) * 60 + Num(s[6..8])) * 1_000_000 + if |s| > 8 then Num(s[9..]) else 0
  }

  lemma ClockTextRead(micros: nat)
    requires micros < DAY
    ensures var s := ClockText(micros);
            ReadClock(s) == micros && s[2] == ':' && s[5] == ':' && (|s| > 8 ==> s[8] == '.')
  {
    var seconds := micros / SECOND;
    FieldBounds();
    NumFixed(seconds / 3600, 2);
    NumFixed(seconds / 60 % 60, 2);
    NumFixed(seconds % 60, 2);
    NumFixed(micros % SECOND, 6);
    var (h, m, s) := (Fixed(Dec, seconds / 3600, 2), Fixed(Dec, seconds / 60 % 60, 2), Fixed(Dec, seconds % 60, 2));
    var f := Fixed(Dec, micros % SECOND, 6);
    ClockParts(h, m, s, f);
    ClockAdds(micros);
    hide Fixed, Num;
  }

  lemma ClockParts(h: string, m: string, s: string, f: string)
    requires |h| == |m| == |s| == 2
    ensures var x := h + ":" + m + ":" + s + "";
            x[..2] == h && x[2] == ':' && x[3..5] == m && x[5] == ':' && x[6..8] == s && |x| == 8
    ensures var x := h + ":" + m + ":" + s + ("." + f);
            && x[..2] == h && x[2] == ':' && x[3..5] == m && x[5] == ':' && x[6..8] == s && x[8] == '.'
            && x[9..] == f && |x| == 9 + |f|
  {
  }

  lemma ClockAdds(micros: nat)
    ensures var s := micros / SECOND; ((s / 3600 * 60 + s / 60 % 60) * 60 + s % 60) * SECOND + micros % SECOND == micros
  {
    var s := micros / SECOND;
    assert s / 3600 == s / 60 / 60;
  }

  /** The instant that a UTC time text names. */
  function ReadInstant(s: string): int
    requires |s| >= 25
  {
    ReadDay(s[..10]) * 86_400_000_000 + ReadClock(s[11..|s| - 6])
  }

  lemma UtcTextRead(stamp: Stamp)
    ensures var s := UtcText(stamp);
            |s| >= 25 && ReadInstant(s) == stamp.Utc() && s[10] == 'T' && s[|s| - 6..] == "+00:00"
  {
    var (d, c) := (DateText(UtcDay(stamp)), ClockText(stamp.Utc() % DAY));
    DateTextRead(UtcDay(stamp));
    ClockTextRead(stamp.Utc() % DAY);
    hide DateText, ClockText, ReadDay, ReadClock;
    var s := d + "T" + c + "+00:00";
    assert s[..10] == d && s[11..|s| - 6] == c && s[|s| - 6..] == "+00:00";
    assert stamp.Utc() == DayOf(stamp.Utc()) * DAY + stamp.Utc() % DAY;
  }

  /** The offset that the end of an ISO time names, in microseconds. */
  function ReadOffset(s: string): Option<int> {
    if s == "" then None
    else
      var size := if |s| == 6 then (Num(s[1..3]) * 60 + Num(s[4..])) * 60_000_000
                  else if |s| >= 9 then ReadClock(s[1..]) else 0;
      Some(if s[0] == '-' then -size else size)
  }

  lemma OffsetTailRead(offset: Option<int>)
    requires offset.Some? ==> -DAY < offset.value < DAY
    ensures ReadOffset(OffsetTail(offset)) == offset
    ensures offset.Some? ==> OffsetTail(offset)[0] == if offset.value < 0 then '-' else '+'
    ensures offset.Some? ==> OffsetTail(offset)[3] == ':'
  {
    if offset.Some? {
      var size := if offset.value < 0 then -offset.value else offset.value;
      var (clock, sign) := (ClockText(size), if offset.value < 0 then "-" else "+");
      ClockTextRead(size);
      if size % (60 * SECOND) == 0 {
        ShortClockRead(size);
        hide ClockText, Num, ReadClock;
        ShortOffset(sign, clock[..5], size);
      } else {
        hide ClockText, Num, ReadClock;
        LongOffset(sign, clock, size);
      }
    }
  }

  /** Hours and minutes name whole minutes. */
  lemma ShortClockRead(size: nat)
    requires size < DAY && size % (60 * SECOND) == 0
    ensures var c := ClockText(size)[..5]; (Num(c[..2]) * 60 + Num(c[3..])) * 60_000_000 == size && c[2] == ':'
  {
    HoursAndMinutes(size);
    MinutesAdd(size);
    FieldBounds();
    NumFixed(size / SECOND / 3600, 2);
    NumFixed(size / SECOND / 60 % 60, 2);
    var (h, m) := (Fixed(Dec, size / SECOND / 3600, 2), Fixed(Dec, size / SECOND / 60 % 60, 2));
    hide ClockText, Fixed, Num;
    assert (h + ":" + m)[..2] == h && (h + ":" + m)[3..] == m && (h + ":" + m)[2] == ':';
  }

  lemma ShortOffset(sign: string, clock: string, size: int)
    requires (sign == "-" || sign == "+") && |clock| == 5 && clock[2] == ':'
    requires (Num(clock[..2]) * 60 + Num(clock[3..])) * 60_000_000 == size
    ensures var s := sign + clock;
            ReadOffset(s) == Some(if sign == "-" then -size else size) && s[0] == sign[0] && s[3] == ':'
  {
    hide Num, ReadClock;
    var s := sign + clock;
    assert s[1..3] == clock[..2] && s[4..] == clock[3..];
  }

  lemma LongOffset(sign: string, clock: string, size: int)
    requires (sign == "-" || sign == "+") && |clock| >= 8 && ReadClock(clock) == size && clock[2] == ':'
    ensures var s := sign + clock;
            ReadOffset(s) == Some(if sign == "-" then -size else size) && s[0] == sign[0] && s[3] == ':'
  {
    hide Num, ReadClock;
    assert (sign + clock)[1..] == clock;
  }

  /** The clock reading and the offset that an ISO time names. */
  function ReadIso(s: string): (int, Option<int>)
    requires |s| >= 19
  {
    var end := if |s| > 19 && s[19] == '.' then Min(26, |s|) else 19;
    (ReadDay(s[..10]) * 86_400_000_000 + ReadClock(s[11..end]), ReadOffset(s[end..]))
  }

  lemma IsoTextRead(stamp: Stamp)
    ensures var s := IsoText(stamp); |s| >= 19 && ReadIso(s) == (stamp.wall, stamp.offset) && s[10] == 'T'
  {
    hide DateText, ClockText, OffsetTail, ReadDay, ReadClock, ReadOffset;
    assert stamp.InRange();
    var (d, c, o) := (DateText(DayOf(stamp.wall)), ClockText(stamp.wall % DAY), OffsetTail(stamp.offset));
    DateTextRead(DayOf(stamp.wall));
    ClockTextRead(stamp.wall % DAY);
    OffsetTailRead(stamp.offset);
    TailStarts(stamp.offset);
    WholeDays(stamp.wall);
    hide IsoText, DayOf;
    IsoRead(d, c, o);
    assert IsoText(stamp) == d + ("T" + (c + o)) by { IsoIs(stamp); }
  }

  /** Both texts name one instant: a clock with an offset shows UTC plus that offset, a naive one UTC itself. */
  lemma TextsAgree(stamp: Stamp)
    ensures |UtcText(stamp)| >= 25 && |IsoText(stamp)| >= 19
    ensures var (reading, offset) := ReadIso(IsoText(stamp));
            reading == ReadInstant(UtcText(stamp)) + if offset.Some? then offset.value else 0
  {
    hide UtcText, IsoText, ReadInstant, ReadIso;
    UtcTextRead(stamp);
    IsoTextRead(stamp);
  }

  lemma IsoIs(stamp: Stamp)
    ensures stamp.InRange()
    ensures IsoText(stamp)
         == DateText(DayOf(stamp.wall)) + ("T" + (ClockText(stamp.wall % DAY) + OffsetTail(stamp.offset)))
  {
  }

  lemma TailStarts(offset: Option<int>)
    requires offset.Some? ==> -DAY < offset.value < DAY
    ensures OffsetTail(offset) != "" ==> OffsetTail(offset)[0] != '.'
  {
    hide ClockText;
  }

  lemma WholeDays(wall: nat)
    ensures wall == DayOf(wall) * DAY + wall % DAY
  {
  }

  lemma IsoRead(d: string, c: string, o: string)
    requires |d| == 10 && (|c| == 8 || (|c| == 15 && c[8] == '.')) && (o != "" ==> o[0] != '.')
    ensures var s := d + ("T" + (c + o));
            |s| >= 19 && ReadIso(s) == (ReadDay(d) * 86_400_000_000 + ReadClock(c), ReadOffset(o)) && s[10] == 'T'
  {
    hide ReadDay, ReadClock, ReadOffset;
    IsoParts(d, c, o);
  }

  lemma IsoParts(d: string, c: string, o: string)
    requires |d| == 10 && (|c| == 8 || (|c| == 15 && c[8] == '.')) && (o != "" ==> o[0] != '.')
    ensures var s := d + ("T" + (c + o));
            var end := if |s| > 19 && s[19] == '.' then Min(26, |s|) else 19;
            s[10] == 'T' && s[..10] == d && end == 11 + |c| && s[11..end] == c && s[end..] == o
  {
    var s := d + ("T" + (c + o));
    assert |s| == 11 + |c| + |o|;
    assert |c| == 15 ==> s[19] == c[8];
    assert |c| == 8 && o != "" ==> s[19] == o[0];
  }

  // ----- identifiers -----

  function HexDigitValue(c: char): nat {
    if '0' <= c <= '9' then c as int - '0' as int
    else if 'a' <= c <= 'f' then c as int - 'a' as int + 10
    else 0
  }

  function HexNum(s: string): nat {
    if s == "" then 0 else HexNum(s[..|s| - 1]) * 16 + HexDigitValue(s[|s| - 1])
  }

  lemma {:induction false} HexNumFixed(n: nat, width: nat)
    requires n < Pow(16, width)
    ensures HexNum(Fixed(Hex, n, width)) == n
    decreases width
  {
    if width > 0 {
      var s := Fixed(Hex, n, width);
      assert s[..width - 1] == Fixed(Hex, n / 16, width - 1);
      HexNumFixed(n / 16, width - 1);
    }
  }

  /** The number that the 8-4-4-4-12 form stands for. */
  function ReadUuid(s: string): nat
    requires |s| == 36
  {
    HexNum(s[..8] + s[9..13] + s[14..18] + s[19..23] + s[24..])
  }

  lemma UuidTextRead(u: Uuid)
    ensures var s := UuidText(u); ReadUuid(s) == u && s[8] == s[13] == s[18] == s[23] == '-'
  {
    hide Fixed, HexNum;
    Undash(Fixed(Hex, u, 32));
    HexNumFixed(u, 32);
  }
}
