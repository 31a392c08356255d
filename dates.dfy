/**
 * Local dates of the proleptic Gregorian calendar, as java.time.LocalDate keeps
 * them: year, month, day; the epoch-day count from 1970-01-01; Java's
 * day-of-week formula (Monday = 1 ... Sunday = 7); and the ISO-8601 text of
 * LocalDate.toString / DateTimeFormatter.ISO_DATE.
 */
module Dates {
  import opened Wrappers
  import opened Text

  datatype Date = Date(year: int, month: int, day: int)

  /** IsoChronology.isLeapYear. */
  predicate IsLeap(y: int)
  {
    y % 4 == 0 && (y % 100 != 0 || y % 400 == 0)
  }

  function DaysInMonth(y: int, m: int): (n: int)
    requires 1 <= m <= 12
    ensures 28 <= n <= 31
  {
    if m == 2 then (if IsLeap(y) then 29 else 28)
    else if m == 4 || m == 6 || m == 9 || m == 11 then 30
    else 31
  }

  predicate Valid(d: Date)
  {
    1 <= d.month <= 12 && 1 <= d.day <= DaysInMonth(d.year, d.month)
  }

  function DaysInYear(y: int): int
  {
    if IsLeap(y) then 366 else 365
  }

  /** Days from 1970-01-01 to the first of January of `y`. */
  function DaysBeforeYear(y: int): int
    decreases if y >= 1970 then y - 1970 else 1970 - y
  {
    if y == 1970 then 0
    else if y > 1970 then DaysBeforeYear(y - 1) + DaysInYear(y - 1)
    else DaysBeforeYear(y + 1) - DaysInYear(y)
  }

  function DaysBeforeMonth(y: int, m: int): int
    requires 1 <= m <= 12
  {
    [0, 31, 59, 90, 120, 151, 181, 212, 243, 273, 304, 334][m - 1] + (if m > 2 && IsLeap(y) then 1 else 0)
  }

  /** LocalDate.toEpochDay. */
  function EpochDay(d: Date): int
    requires Valid(d)
  {
    DaysBeforeYear(d.year) + DaysBeforeMonth(d.year, d.month) + d.day - 1
  }

  /** LocalDate.getDayOfWeek: floorMod(epochDay + 3, 7) + 1, so 1970-01-01 is a Thursday (4). */
  function DayOfWeek(d: Date): (w: int)
    requires Valid(d)
    ensures 1 <= w <= 7
  {
    (EpochDay(d) + 3) % 7 + 1
  }

  const Monday := 1
  const Saturday := 6
  const Sunday := 7

  /** LocalDate.minusDays(1). */
  function PrevDay(d: Date): (r: Date)
    requires Valid(d)
    ensures Valid(r)
  {
    if d.day > 1 then Date(d.year, d.month, d.day - 1)
    else if d.month > 1 then Date(d.year, d.month - 1, DaysInMonth(d.year, d.month - 1))
    else Date(d.year - 1, 12, 31)
  }

  /** LocalDate.minusDays(k). */
  function MinusDays(d: Date, k: nat): (r: Date)
    requires Valid(d)
    ensures Valid(r)
    decreases k
  {
    if k == 0 then d else MinusDays(PrevDay(d), k - 1)
  }

  lemma YearStep(y: int)
    ensures DaysBeforeYear(y) == DaysBeforeYear(y - 1) + DaysInYear(y - 1)
  {
  }

  lemma EpochDayOfPrevDay(d: Date)
    requires Valid(d)
    ensures EpochDay(PrevDay(d)) == EpochDay(d) - 1
  {
    if d.day == 1 {
      if d.month > 1 {
        MonthStep(d.year, d.month);
      } else {
        YearStep(d.year);
        assert DaysBeforeMonth(d.year - 1, 12) + 31 == DaysInYear(d.year - 1);
      }
    }
  }

  /** The days before a month are those before the month before it and that month's days. */
  lemma MonthStep(y: int, m: int)
    requires 2 <= m <= 12
    ensures DaysBeforeMonth(y, m) == DaysBeforeMonth(y, m - 1) + DaysInMonth(y, m - 1)
  {
    var starts := [0, 31, 59, 90, 120, 151, 181, 212, 243, 273, 304, 334];
    var lengths := [31, 28, 31, 30, 31, 30, 31, 31, 30, 31, 30, 31];
    assert forall i :: 1 <= i < 12 ==> starts[i] == starts[i - 1] + lengths[i - 1];
    assert DaysInMonth(y, m - 1) == lengths[m - 2] + (if m - 1 == 2 && IsLeap(y) then 1 else 0);
  }

  lemma {:induction false} EpochDayOfMinusDays(d: Date, k: nat)
    requires Valid(d)
    ensures EpochDay(MinusDays(d, k)) == EpochDay(d) - k
    decreases k
  {
    if k > 0 {
      EpochDayOfPrevDay(d);
      EpochDayOfMinusDays(PrevDay(d), k - 1);
    }
  }

  lemma DayOfWeekOfMinusDays(d: Date, k: nat)
    requires Valid(d)
    ensures DayOfWeek(MinusDays(d, k)) - 1 == (DayOfWeek(d) - 1 - k) % 7
  {
    EpochDayOfMinusDays(d, k);
    var e := EpochDay(d);
    assert (e + 3) % 7 == (e - k + 3 + k) % 7;
    ModSub(e + 3, k);
  }

  lemma ModSub(a: int, k: int)
    ensures (a - k) % 7 == (a % 7 - k) % 7
  {
    var q := a / 7;
    assert a == 7 * q + a % 7;
    assert a - k == 7 * q + (a % 7 - k);
  }

  // ---------------------------------------------------------------- ISO text

  /** The year as ISO_LOCAL_DATE prints it: at least four digits, a sign below 0 or above 9999. */
  function YearText(y: int): string
  {
    (if y > 9999 then "+" else if y < 0 then "-" else "") + ZeroPad(if y < 0 then -y else y, 4)
  }

  /** LocalDate.toString: yyyy-MM-dd. */
  function Iso(d: Date): string
    requires Valid(d)
  {
    YearText(d.year) + "-" + ZeroPad(d.month, 2) + "-" + ZeroPad(d.day, 2)
  }

  /** Reads back the text YearText prints. */
  function ParseYear(t: string): Option<int>
  {
    if t == [] then None
    else
      var unsigned := if t[0] == '+' || t[0] == '-' then t[1..] else t;
      if !AllDigits(unsigned) then None
      else Some(if t[0] == '-' then -(Value(unsigned) as int) else Value(unsigned))
  }

  /** Reads back the text Iso prints; the inverse that makes Iso injective. */
  function ParseIso(s: string): Option<Date>
  {
    var n := |s|;
    if n < 7 || s[n - 3] != '-' || s[n - 6] != '-' then None
    else
      var monthText, dayText := s[n - 5..n - 3], s[n - 2..];
      if !AllDigits(monthText) || !AllDigits(dayText) then None
      else match ParseYear(s[..n - 6])
        case None => None
        case Some(y) => Some(Date(y, Value(monthText), Value(dayText)))
  }

  lemma ParseYearText(y: int)
    ensures ParseYear(YearText(y)) == Some(y)
  {
    var abs := if y < 0 then -y else y;
    var p := ZeroPad(abs, 4);
    assert Value(p) == abs by {
      ValueOfZeroPad(abs, 4);
    }
    var t := YearText(y);
    assert |p| >= 4 && AllDigits(p) && IsDigit(p[0]);
    if y > 9999 {
      assert t == "+" + p && t[0] == '+' && t[1..] == p;
      assert ParseYear(t) == Some(Value(p));
    } else if y < 0 {
      assert t == "-" + p && t[0] == '-' && t[1..] == p;
      assert ParseYear(t) == Some(-(Value(p) as int));
    } else {
      assert t == p && t[0] != '+' && t[0] != '-';
      assert ParseYear(t) == Some(Value(p));
    }
  }

  lemma IsoRoundTrip(d: Date)
    requires Valid(d)
    ensures ParseIso(Iso(d)) == Some(d)
  {
    var yt, mt, dt := YearText(d.year), ZeroPad(d.month, 2), ZeroPad(d.day, 2);
    ValueOfZeroPad(d.month, 2);
    ValueOfZeroPad(d.day, 2);
    ParseYearText(d.year);
    IsoParts(yt, mt, dt);
  }

  /** Where ParseIso finds the parts of a text joined with two dashes. */
  lemma IsoParts(yt: string, mt: string, dt: string)
    requires |yt| >= 1 && |mt| == 2 && |dt| == 2
    ensures var s := yt + "-" + mt + "-" + dt; var n := |s|;
      n >= 7 && s[n - 3] == '-' && s[n - 6] == '-' && s[n - 5..n - 3] == mt && s[n - 2..] == dt && s[..n - 6] == yt
  {
    var s := yt + "-" + mt + "-" + dt;
    var n := |s|;
    assert s[n - 5..n - 3] == mt;
    assert s[n - 2..] == dt;
    assert s[..n - 6] == yt;
  }

  lemma IsoInjective(a: Date, b: Date)
    requires Valid(a) && Valid(b) && Iso(a) == Iso(b)
    ensures a == b
  {
    IsoRoundTrip(a);
    IsoRoundTrip(b);
  }

  // ---------------------------------------------------------------- dd.MM.yyyy

  /**
   * LocalDate.parse(s, DateTimeFormatter.ofPattern("dd.MM.yyyy")) with the SMART
   * resolver: two-digit day and month, a four-digit year of the era, a month in
   * 1..12 and a day in 1..31; a day past the end of its month is moved back to
   * the month's last day.
   */
  function ParseGermanDate(s: string): (r: Result<Date>)
    ensures r.Ok? ==> Valid(r.value)
  {
    if |s| != 10 || s[2] != '.' || s[5] != '.' then Err("Text '" + s + "' could not be parsed")
    else
      var dt, mt, yt := s[..2], s[3..5], s[6..];
      if !AllDigits(dt) || !AllDigits(mt) || !AllDigits(yt) then Err("Text '" + s + "' could not be parsed")
      else
        var d, m, y := Value(dt), Value(mt), Value(yt);
        if y < 1 || m < 1 || m > 12 || d < 1 || d > 31 then Err("Text '" + s + "' could not be parsed")
        else Ok(Date(y, m, if d > DaysInMonth(y, m) then DaysInMonth(y, m) else d))
  }
}
