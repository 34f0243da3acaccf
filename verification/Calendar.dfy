/** Timestamps as civil dates (`src/builtin_core.rs`, `format_unix_timestamp`): the loops over years and
    months invert the count of days exactly, in 64-bit arithmetic that never overflows. */
module Calendar {

  newtype i64 = n: int | -0x8000_0000_0000_0000 <= n <= 0x7fff_ffff_ffff_ffff
  newtype u32 = n: int | 0 <= n <= 0xffff_ffff

  // ----- The Gregorian calendar -----

  predicate IsLeapYear(year: int) { (year % 4 == 0 && year % 100 != 0) || year % 400 == 0 }

  function DaysInYear(year: int): int { if IsLeapYear(year) then 366 else 365 }

  /** Leap years before the given one, counted from year 1: every fourth, less centuries, plus every fourth of
      these. */
  function LeapYearsBefore(year: int): int { (year - 1) / 4 - (year - 1) / 100 + (year - 1) / 400 }

  /** Days from 1 January 1970 to 1 January of a year, negative for earlier years. */
  function DaysToYear(year: int): int { 365 * (year - 1970) + LeapYearsBefore(year) - LeapYearsBefore(1970) }

  function MonthDays(year: int): (r: seq<int>)
    ensures |r| == 12 && forall i :: 0 <= i < 12 ==> 28 <= r[i] <= 31
  {
    [31, if IsLeapYear(year) then 29 else 28, 31, 30, 31, 30, 31, 31, 30, 31, 30, 31]
  }

  /** The lengths in closed form: 31 and 30 alternate, beginning anew with August, and February is shorter. */
  lemma MonthLengths(year: int, month: int)
    requires 1 <= month <= 12
    ensures MonthDays(year)[month - 1] ==
            if month == 2 then DaysInYear(year) - 337 else 30 + (month + month / 8) % 2
  {
  }

  function Sum(xs: seq<int>): int { if xs == [] then 0 else Sum(xs[..|xs| - 1]) + xs[|xs| - 1] }

  /** Days from the beginning of a year to the beginning of a month, 1 to 13. */
  function DaysToMonth(year: int, month: int): int
    requires 1 <= month <= 13
  {
    Sum(MonthDays(year)[..month - 1])
  }

  datatype Civil = Civil(year: int, month: int, day: int, hour: int, minute: int, second: int)

  predicate Exists(c: Civil) {
    && 1 <= c.month <= 12
    && 1 <= c.day <= MonthDays(c.year)[c.month - 1]
    && 0 <= c.hour < 24 && 0 <= c.minute < 60 && 0 <= c.second < 60
  }

  /** Seconds since 1970-01-01 00:00:00. */
  function Timestamp(c: Civil): int
    requires Exists(c)
  {
    (DaysToYear(c.year) + DaysToMonth(c.year, c.month) + c.day - 1) * 86400 + c.hour * 3600 + c.minute * 60 + c.second
  }

  lemma YearStep(year: int)
    ensures DaysToYear(year + 1) == DaysToYear(year) + DaysInYear(year)
  {
    Division(year - 1, 4);
    Division(year - 1, 100);
    Division(year - 1, 400);
    Century(year);
  }

  /** A quotient moves on exactly when a multiple is reached. */
  lemma Division(n: int, d: int)
    requires d > 0
    ensures (n + 1) / d == n / d + if (n + 1) % d == 0 then 1 else 0
  {
    var q, r := n / d, n % d;
    assert n == q * d + r;
    if r == d - 1 {
      assert n + 1 == (q + 1) * d;
      Exact(n + 1, d, q + 1, 0);
    } else {
      assert n + 1 == q * d + (r + 1);
      Exact(n + 1, d, q, r + 1);
    }
  }

  lemma Exact(n: int, d: int, q: int, r: int)
    requires d > 0 && 0 <= r < d && n == q * d + r
    ensures n / d == q && n % d == r
  {
    Apart(q, n / d, d, r, n % d);
  }

  /** Quotient and remainder are unique. */
  lemma {:induction false} Apart(q: int, p: int, d: int, r: int, s: int)
    requires 0 <= r < d && 0 <= s < d && q * d + r == p * d + s
    ensures q == p && r == s
    decreases if q < 0 then -q else q
  {
    if q > 0 {
      assert q * d == (q - 1) * d + d && p * d == (p - 1) * d + d;
      Apart(q - 1, p - 1, d, r, s);
    } else if q < 0 {
      assert q * d == (q + 1) * d - d && p * d == (p + 1) * d - d;
      Apart(q + 1, p + 1, d, r, s);
    } else if p > 0 {
      Beyond(p, d);
    } else if p < 0 {
      Beyond(-p, d);
    }
  }

  lemma {:induction false} Beyond(k: int, d: int)
    requires 1 <= k && 0 < d
    ensures k * d >= d && (-k) * d <= -d
    decreases k
  {
    assert (-k) * d == -(k * d);
    if k > 1 {
      Beyond(k - 1, d);
      assert k * d == (k - 1) * d + d;
    }
  }

  lemma Century(year: int)
    ensures year % 400 == 0 ==> year % 100 == 0
    ensures year % 100 == 0 ==> year % 4 == 0
  {
  }

  /** Every 400-year window has the same number of days. */
  lemma CycleLength(year: int)
    ensures DaysToYear(year + 400) == DaysToYear(year) + 146097
  {
    Shifted(year - 1, 4, 100);
    Shifted(year - 1, 100, 4);
    Shifted(year - 1, 400, 1);
  }

  lemma Shifted(n: int, d: int, k: int)
    requires d > 0
    ensures (n + k * d) / d == n / d + k
  {
    var q, r := n / d, n % d;
    assert (q + k) * d == q * d + k * d;
    Exact(n + k * d, d, q + k, r);
  }

  lemma {:induction false} CyclesLength(cycles: int)
    ensures DaysToYear(1970 + cycles * 400) == cycles * 146097
    decreases if cycles >= 0 then cycles else -cycles
  {
    if cycles > 0 {
      CyclesLength(cycles - 1);
      CycleLength(1970 + (cycles - 1) * 400);
    } else if cycles < 0 {
      CyclesLength(cycles + 1);
      CycleLength(1970 + cycles * 400);
    }
  }

  lemma YearOfMonths(year: int)
    ensures DaysToMonth(year, 13) == DaysInYear(year)
    ensures DaysToMonth(year, 1) == 0
  {
    var ms := MonthDays(year);
    SumOf12(ms);
    assert ms[..12] == ms;
  }

  lemma SumOf12(xs: seq<int>)
    requires |xs| == 12
    ensures Sum(xs) == xs[0] + xs[1] + xs[2] + xs[3] + xs[4] + xs[5] + xs[6] + xs[7] + xs[8] + xs[9] + xs[10] + xs[11]
  {
    SumOf4(xs);
    assert xs[..12] == xs;
    forall i | 4 <= i < 12
      ensures Sum(xs[..i + 1]) == Sum(xs[..i]) + xs[i]
    {
      assert xs[..i + 1][..i] == xs[..i];
    }
  }

  lemma SumOf4(xs: seq<int>)
    requires |xs| >= 4
    ensures Sum(xs[..4]) == xs[0] + xs[1] + xs[2] + xs[3]
  {
    forall i | 0 <= i < 4
      ensures Sum(xs[..i + 1]) == Sum(xs[..i]) + xs[i]
    {
      assert xs[..i + 1][..i] == xs[..i];
    }
    assert Sum(xs[..0]) == 0;
  }

  lemma MonthStep(year: int, month: int)
    requires 1 <= month <= 12
    ensures DaysToMonth(year, month + 1) == DaysToMonth(year, month) + MonthDays(year)[month - 1]
  {
    assert MonthDays(year)[..month][..month - 1] == MonthDays(year)[..month - 1];
  }

  // ----- The conversion -----

  method IsLeap(year: i64) returns (r: bool)
    ensures r == IsLeapYear(year as int)
  {
    r := (year % 4 == 0 && year % 100 != 0) || year % 400 == 0;
  }

  /** The date and time of any 64-bit timestamp. Every arithmetic step is within its machine type, the year
      loop goes round at most 399 times, and the result is the one date whose timestamp this is. */
  method CivilFromTimestamp(timestamp: i64) returns (c: Civil, ghost rounds: nat)
    ensures Exists(c) && Timestamp(c) == timestamp as int
    ensures rounds <= 399
  {
    var days := timestamp / 86400;
    var daySecs := (timestamp % 86400) as u32;
    var hours := daySecs / 3600;
    var minutes := (daySecs % 3600) / 60;
    var seconds := daySecs % 60;
    TimeOfDay(daySecs as int);
    ghost var total := days as int;
    assert timestamp as int == total * 86400 + daySecs as int;
    var year, rest;
    year, rest, rounds := YearOfDays(days);
    var month, day := MonthOfDays(year, rest);
    c := Civil(year as int, month as int, day as int, hours as int, minutes as int, seconds as int);
  }

  lemma TimeOfDay(secs: int)
    requires 0 <= secs < 86400
    ensures secs / 3600 < 24 && (secs % 3600) / 60 < 60
    ensures secs == (secs / 3600) * 3600 + ((secs % 3600) / 60) * 60 + secs % 60
  {
  }

  /** The year of a day number, and the day within it. */
  method YearOfDays(total: i64) returns (year: i64, days: i64, ghost rounds: nat)
    requires -0x8000_0000_0000_0000 / 86400 <= total as int <= 0x7fff_ffff_ffff_ffff / 86400
    ensures DaysToYear(year as int) + days as int == total as int
    ensures 0 <= days as int < DaysInYear(year as int)
    ensures rounds <= 399
    ensures -0x1_0000_0000_0000 < year as int < 0x1_0000_0000_0000
  {
    hide DaysToYear;
    var cycles := total / 146097;
    days := total % 146097;
    CyclesLength(cycles as int);
    year := 1970 + cycles * 400;
    ghost var start := year as int;
    CycleLength(start);
    rounds := 0;
    while true
      invariant rounds <= 399 && year as int == start + rounds
      invariant DaysToYear(year as int) + days as int == total as int && 0 <= days
      invariant DaysToYear(start) <= total as int < DaysToYear(start + 400)
      decreases 399 - rounds
    {
      var leap := IsLeap(year);
      var daysInYear := if leap then 366 else 365;
      if days < daysInYear {
        break;
      }
      YearStep(year as int);
      assert rounds < 399;
      days := days - daysInYear;
      year := year + 1;
      rounds := rounds + 1;
    }
  }

  /** The month of a day within a year, and the day within the month. */
  method MonthOfDays(year: i64, dayOfYear: i64) returns (month: u32, day: i64)
    requires 0 <= dayOfYear as int < DaysInYear(year as int)
    ensures 1 <= month as int <= 12 && 1 <= day as int <= MonthDays(year as int)[month as int - 1]
    ensures DaysToMonth(year as int, month as int) + day as int - 1 == dayOfYear as int
  {
    hide Sum, MonthDays;
    var days := dayOfYear;
    month := 1;
    YearOfMonths(year as int);
    ghost var y := year as int;
    var monthDays := MonthDays(year as int);
    var i := 0;
    while i < 12
      invariant 0 <= i < 12 && month as int == i + 1
      invariant DaysToMonth(y, i + 1) + days as int == dayOfYear as int && 0 <= days
      decreases 12 - i
    {
      MonthStep(y, i + 1);
      if days as int < monthDays[i] {
        break;
      }
      assert i < 11;
      days := days - monthDays[i] as i64;
      month := month + 1;
      i := i + 1;
    }
    day := days + 1;
  }

  // ----- The inverse -----

  lemma {:induction false} YearsApart(a: int, b: int)
    requires a < b
    ensures DaysToYear(a) + DaysInYear(a) <= DaysToYear(b)
    decreases b - a
  {
    hide DaysToYear, IsLeapYear;
    YearStep(a);
    if a + 1 < b {
      YearsApart(a + 1, b);
    }
  }

  lemma {:induction false} MonthsApart(year: int, a: int, b: int)
    requires 1 <= a < b <= 13
    ensures DaysToMonth(year, a) + MonthDays(year)[a - 1] <= DaysToMonth(year, b)
    decreases b - a
  {
    hide MonthDays, DaysToMonth;
    MonthStep(year, a);
    if a + 1 < b {
      MonthsApart(year, a + 1, b);
    }
  }

  function DayNumber(c: Civil): int
    requires Exists(c)
  {
    DaysToYear(c.year) + DaysToMonth(c.year, c.month) + c.day - 1
  }

  lemma DayInYear(c: Civil)
    requires Exists(c)
    ensures 0 <= DaysToMonth(c.year, c.month) + c.day - 1 < DaysInYear(c.year)
  {
    hide MonthDays, DaysToMonth, IsLeapYear;
    YearOfMonths(c.year);
    MonthsApart(c.year, c.month, 13);
    if c.month > 1 {
      MonthsApart(c.year, 1, c.month);
    }
  }

  lemma SameDay(a: Civil, b: Civil)
    requires Exists(a) && Exists(b) && DayNumber(a) == DayNumber(b)
    ensures a.year == b.year && a.month == b.month && a.day == b.day
  {
    hide MonthDays, DaysToMonth, DaysToYear, DaysInYear;
    DayInYear(a);
    DayInYear(b);
    if a.year < b.year {
      YearsApart(a.year, b.year);
    } else if b.year < a.year {
      YearsApart(b.year, a.year);
    } else if a.month < b.month {
      MonthsApart(a.year, a.month, b.month);
    } else if b.month < a.month {
      MonthsApart(a.year, b.month, a.month);
    }
  }

  /** No two dates have the same timestamp, so the conversion is the exact inverse. */
  lemma TimestampInjective(a: Civil, b: Civil)
    requires Exists(a) && Exists(b) && Timestamp(a) == Timestamp(b)
    ensures a == b
  {
    hide MonthDays, DaysToMonth, DaysToYear;
    var da, db := DayNumber(a), DayNumber(b);
    var sa, sb := a.hour * 3600 + a.minute * 60 + a.second, b.hour * 3600 + b.minute * 60 + b.second;
    assert Timestamp(a) == da * 86400 + sa && Timestamp(b) == db * 86400 + sb;
    assert 0 <= sa < 86400 && 0 <= sb < 86400;
    assert da == db;
    SameDay(a, b);
  }
}
