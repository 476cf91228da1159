// Time as the pool reads it: nanoseconds since the Unix epoch, minutes, and the day of the year.

module Clock {
  const SECOND: nat := 1_000_000_000
  const MINUTE: nat := 60 * SECOND
  const HOUR: nat := 60 * MINUTE
  const DAY: nat := 24 * HOUR

  /** The zero time: 1 January of year 1. */
  const NEVER: int := -62135596800 * SECOND

  function Unix(t: nat): nat {
    t / SECOND
  }

  function MinuteOf(t: nat): nat {
    Unix(t) / 60
  }

  /** Days since the epoch. */
  function DayOf(t: nat): nat {
    t / DAY
  }

  /** Leap years up to year y. */
  function Leaps(y: int): int {
    y / 4 - y / 100 + y / 400
  }

  /** The number of days from the epoch to 1 January of year y. */
  function YearStart(y: int): int {
    365 * (y - 1970) + Leaps(y - 1) - 477
  }

  lemma YearLength(y: int)
    ensures 365 <= YearStart(y + 1) - YearStart(y) <= 366
  {
    LeapStep(y);
    assert y + 1 - 1 == y;
  }

  lemma LeapStep(y: int)
    ensures 0 <= Leaps(y) - Leaps(y - 1) <= 1
  {
    Quotient4(y);
    Quotient100(y);
    Quotient400(y);
    Divides(y);
    var p, q, r := y % 4 == 0, y % 100 == 0, y % 400 == 0;
    assert Leaps(y) - Leaps(y - 1) == (if p then 1 else 0) - (if q then 1 else 0) + (if r then 1 else 0);
  }

  lemma Divides(y: int)
    ensures y % 400 == 0 ==> y % 100 == 0
    ensures y % 100 == 0 ==> y % 4 == 0
  {
    Centuries(y / 400);
    LeapYears(y / 100);
  }

  lemma Centuries(q: int)
    ensures 400 * q % 100 == 0
  {
    assert 400 * q == 100 * (4 * q);
  }

  lemma LeapYears(q: int)
    ensures 100 * q % 4 == 0
  {
    assert 100 * q == 4 * (25 * q);
  }

  lemma Quotient4(y: int)
    ensures y / 4 - (y - 1) / 4 == if y % 4 == 0 then 1 else 0
  {
  }

  lemma Quotient100(y: int)
    ensures y / 100 - (y - 1) / 100 == if y % 100 == 0 then 1 else 0
  {
  }

  lemma Quotient400(y: int)
    ensures y / 400 - (y - 1) / 400 == if y % 400 == 0 then 1 else 0
  {
  }

  /** The year of a day, searched from year y on. */
  function YearFrom(d: int, y: int): (r: int)
    requires YearStart(y) <= d
    ensures y <= r && YearStart(r) <= d < YearStart(r + 1)
    decreases d - YearStart(y)
  {
    YearLength(y);
    if d < YearStart(y + 1) then y else YearFrom(d, y + 1)
  }

  function YearOf(d: nat): int {
    YearFrom(d, 1970)
  }

  /** The day of the year, from 1. */
  function YearDay(t: nat): (n: int)
    ensures 1 <= n <= 366
  {
    YearLength(YearOf(DayOf(t)));
    DayOf(t) - YearStart(YearOf(DayOf(t))) + 1
  }

  // ---------- the calendar ----------

  predicate Leap(y: int) {
    y % 4 == 0 && (y % 100 != 0 || y % 400 == 0)
  }

  /** Days from 1 January 1970 to 1 January of year y, counted year by year. */
  function DaysBefore(y: nat): nat {
    if y <= 1970 then 0 else DaysBefore(y - 1) + (if Leap(y - 1) then 366 else 365)
  }

  lemma YearIsLong(y: int)
    ensures YearStart(y + 1) - YearStart(y) == if Leap(y) then 366 else 365
  {
    Quotient4(y);
    Quotient100(y);
    Quotient400(y);
    Divides(y);
    assert y + 1 - 1 == y;
  }

  lemma {:induction false} YearsCount(y: nat)
    requires y >= 1970
    ensures YearStart(y) == DaysBefore(y)
  {
    if y == 1970 {
      assert Leaps(1969) == 477;
    } else {
      YearsCount(y - 1);
      YearIsLong(y - 1);
    }
  }

  /** The day of the year is that of the calendar: on the n-th day of year y, from 0, it is n + 1. */
  lemma YearDayMeans(t: nat, y: nat, n: nat)
    requires y >= 1970 && n < (if Leap(y) then 366 else 365)
    requires (DaysBefore(y) + n) * 86_400_000_000_000 <= t < (DaysBefore(y) + n + 1) * 86_400_000_000_000
    ensures YearDay(t) == n + 1
  {
    hide YearOf, YearStart, DaysBefore, Leap, DayOf;
    YearsCount(y);
    YearIsLong(y);
    DayIs(t, DaysBefore(y) + n);
    YearIs(DayOf(t), y);
  }

  lemma DayIs(t: nat, d: nat)
    requires d * 86_400_000_000_000 <= t < (d + 1) * 86_400_000_000_000
    ensures DayOf(t) == d
  {
  }

  /** Minutes are those of the clock. */
  lemma MinuteMeans(t: nat)
    ensures MinuteOf(t) * 60_000_000_000 <= t < (MinuteOf(t) + 1) * 60_000_000_000
  {
  }

  lemma {:induction false} YearStartsApart(y: int, z: int)
    requires y < z
    ensures YearStart(y) + 365 * (z - y) <= YearStart(z)
    decreases z - y
  {
    YearLength(y);
    if y + 1 < z {
      YearStartsApart(y + 1, z);
    }
  }

  /** Fewer than 365 calendar days apart, the day of the year changes exactly when the day does. */
  lemma YearDayTellsDays(a: nat, b: nat)
    requires a <= b && DayOf(b) - DayOf(a) < 365
    ensures YearDay(a) == YearDay(b) <==> DayOf(a) == DayOf(b)
  {
    var y, z := YearOf(DayOf(a)), YearOf(DayOf(b));
    assert DayOf(a) <= DayOf(b);
    if YearDay(a) == YearDay(b) {
      if y < z {
        YearStartsApart(y, z);
      } else if z < y {
        YearStartsApart(z, y);
        YearLength(z);
        if z + 1 < y {
          YearStartsApart(z + 1, y);
        }
      }
    }
  }

  /** It can miss a change at 365: 1 January 2025 at 21:36 and 1 January 2026 at 02:24 share the
      day of the year, though less than 365 times 24 hours pass between them. */
  lemma YearDayMisses()
    ensures var a, b := 20089 * DAY + 21 * HOUR + 36 * MINUTE, 20454 * DAY + 2 * HOUR + 24 * MINUTE;
            a < b && b - a < 365 * DAY && DayOf(b) - DayOf(a) == 365 && YearDay(a) == YearDay(b)
  {
    var a, b := 20089 * DAY + 21 * HOUR + 36 * MINUTE, 20454 * DAY + 2 * HOUR + 24 * MINUTE;
    assert DayOf(a) == 20089 && DayOf(b) == 20454;
    YearIs(20089, 2025);
    YearIs(20454, 2026);
  }

  lemma YearIs(d: nat, y: int)
    requires YearStart(y) <= d < YearStart(y + 1)
    ensures YearOf(d) == y
  {
    var z := YearOf(d);
    if z < y {
      YearStartsApart(z, y);
      if z + 1 < y {
        YearStartsApart(z + 1, y);
      }
    } else if y < z {
      if y + 1 < z {
        YearStartsApart(y + 1, z);
      }
    }
  }
}
