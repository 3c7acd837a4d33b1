/**
 * The proleptic Gregorian calendar that JavaScript's `Date` uses for its
 * `getUTC*` fields, on whole days counted from 1970-01-01.
 *
 * Days are split into 400-year eras that start on March 1 (so that the leap
 * day is the last day of its year); `CivilFromDays` and `DaysFromCivil` are
 * mutually inverse, every computed date is valid, and date order agrees with
 * day order.
 */
module Calendar {

  const MsPerDay: int := 86_400_000
  const MsPerHour: int := 3_600_000
  const MsPerMinute: int := 60_000

  /** Days from 0000-03-01 to 1970-01-01. */
  const EpochShift: int := 719_468

  datatype Date = Date(year: int, month: int, day: int)

  predicate IsLeap(y: int) {
    y % 4 == 0 && (y % 100 != 0 || y % 400 == 0)
  }

  function DaysInMonth(y: int, m: int): int
    requires 1 <= m <= 12
  {
    if m == 2 then (if IsLeap(y) then 29 else 28)
    else if m == 4 || m == 6 || m == 9 || m == 11 then 30
    else 31
  }

  predicate ValidDate(d: Date) {
    1 <= d.month <= 12 && 1 <= d.day <= DaysInMonth(d.year, d.month)
  }

  /** Chronological order of dates: by year, then month, then day. */
  predicate DateBefore(a: Date, b: Date) {
    a.year < b.year ||
    (a.year == b.year && (a.month < b.month || (a.month == b.month && a.day < b.day)))
  }

  /** Offset of a month's first day from March 1; month index 0 is March, 11 is February. */
  function MonthStart(mp: int): int
    requires 0 <= mp < 12
  {
    [0, 31, 61, 92, 122, 153, 184, 214, 245, 275, 306, 337][mp]
  }

  /** The month index (0 = March) holding day `doy` of a March-based year. */
  function MonthIndexOf(doy: int): (mp: int)
    requires 0 <= doy
    ensures 0 <= mp < 12 && MonthStart(mp) <= doy
    ensures mp < 11 ==> doy < MonthStart(mp + 1)
  {
    if doy < 31 then 0 else if doy < 61 then 1 else if doy < 92 then 2
    else if doy < 122 then 3 else if doy < 153 then 4 else if doy < 184 then 5
    else if doy < 214 then 6 else if doy < 245 then 7 else if doy < 275 then 8
    else if doy < 306 then 9 else if doy < 337 then 10 else 11
  }

  /** Days from 0000-03-01 to March 1 of the March-based year `y`. */
  function MarchYearStart(y: int): int {
    var era, yoe := y / 400, y % 400;
    146_097 * era + 365 * yoe + yoe / 4 - yoe / 100
  }

  /** The day number of a calendar date (days since 1970-01-01). */
  function DaysFromCivil(d: Date): int
    requires 1 <= d.month <= 12
  {
    var y := if d.month <= 2 then d.year - 1 else d.year;
    var mp := if d.month > 2 then d.month - 3 else d.month + 9;
    MarchYearStart(y) + MonthStart(mp) + d.day - 1 - EpochShift
  }

  /** A day of a 400-year era split into century, four-year block and year of its block. */
  datatype EraParts = EraParts(c: int, b: int, a: int, doy: int)

  function SplitEra(doe: int): (p: EraParts)
    requires 0 <= doe < 146_097
    ensures doe == 36_524 * p.c + 1_461 * p.b + 365 * p.a + p.doy
    ensures 0 <= p.c <= 3 && 0 <= p.b <= 24 && 0 <= p.a <= 3 && 0 <= p.doy <= 365
    ensures p.doy == 365 ==> p.a == 3 && (p.b < 24 || p.c == 3)
  {
    var c := if doe / 36_524 < 3 then doe / 36_524 else 3;
    var doc := doe - 36_524 * c;
    assert 0 <= doc <= 36_524 && (c < 3 ==> doc < 36_524);
    var b := doc / 1_461;
    var dob := doc - 1_461 * b;
    assert 0 <= b <= 24 && 0 <= dob <= 1_460;
    assert b == 24 && c < 3 ==> dob < 1_460;
    var a := if dob / 365 < 3 then dob / 365 else 3;
    var doy := dob - 365 * a;
    assert doy == 365 ==> dob == 1_460;
    EraParts(c, b, a, doy)
  }

  /** The calendar date of day number `z` (days since 1970-01-01). */
  function CivilFromDays(z: int): Date {
    var zz := z + EpochShift;
    var era := zz / 146_097;
    var p := SplitEra(zz % 146_097);
    var y := 400 * era + 100 * p.c + 4 * p.b + p.a;
    var mp := MonthIndexOf(p.doy);
    var day := p.doy - MonthStart(mp) + 1;
    if mp < 10 then Date(y, mp + 3, day) else Date(y + 1, mp - 9, day)
  }

  lemma EraYear(era: int, c: int, b: int, a: int)
    requires 0 <= c <= 3 && 0 <= b <= 24 && 0 <= a <= 3
    ensures MarchYearStart(400 * era + 100 * c + 4 * b + a)
            == 146_097 * era + 36_524 * c + 1_461 * b + 365 * a
  {
    var y, yoe := 400 * era + 100 * c + 4 * b + a, 100 * c + 4 * b + a;
    assert y / 400 == era && y % 400 == yoe;
    assert yoe / 4 == 25 * c + b;
    assert yoe / 100 == c;
  }

  /** The year after a four-year block ends with a leap day unless it is a plain century year. */
  lemma BlockEndLeap(era: int, c: int, b: int)
    requires 0 <= c <= 3 && 0 <= b <= 24 && (b < 24 || c == 3)
    ensures IsLeap(400 * era + 100 * c + 4 * b + 4)
  {
    var n := 400 * era + 100 * c + 4 * b + 4;
    assert n % 4 == 0;
    if b < 24 {
      assert n % 100 == 4 * b + 4;
    } else {
      assert n == 400 * (era + 1);
    }
  }

  /** Every day number is a valid date, and converting it back gives the same day. */
  lemma CivilRoundTrip(z: int)
    ensures ValidDate(CivilFromDays(z))
    ensures DaysFromCivil(CivilFromDays(z)) == z
  {
    var zz := z + EpochShift;
    var era := zz / 146_097;
    var p := SplitEra(zz % 146_097);
    EraYear(era, p.c, p.b, p.a);
    if p.doy == 365 {
      BlockEndLeap(era, p.c, p.b);
    }
  }

  lemma EraModulo(era: int, r: int)
    requires 0 <= r < 400
    ensures (400 * era + r) / 400 == era && (400 * era + r) % 400 == r
    ensures (400 * era + r) % 4 == r % 4 && (400 * era + r) % 100 == r % 100
  {
  }

  lemma QuotientStep(r: int, k: int)
    requires 0 <= r && (k == 4 || k == 100)
    ensures (r + 1) / k - r / k == if (r + 1) % k == 0 then 1 else 0
  {
  }

  /** Days from March 1 of year y to March 1 of year y + 1. */
  lemma MarchYearLength(y: int)
    ensures MarchYearStart(y + 1) - MarchYearStart(y) == if IsLeap(y + 1) then 366 else 365
  {
    var era, yoe := y / 400, y % 400;
    EraModulo(era, yoe);
    if yoe == 399 {
      EraModulo(era + 1, 0);
      assert y + 1 == 400 * (era + 1) + 0;
    } else {
      EraModulo(era, yoe + 1);
      assert y + 1 == 400 * era + (yoe + 1);
      QuotientStep(yoe, 4);
      QuotientStep(yoe, 100);
    }
  }

  lemma {:induction false} MarchYearStartMonotone(y1: int, y2: int)
    requires y1 < y2
    ensures MarchYearStart(y1) + 365 <= MarchYearStart(y2)
    decreases y2 - y1
  {
    MarchYearLength(y1);
    if y1 + 1 < y2 {
      MarchYearStartMonotone(y1 + 1, y2);
    }
  }

  /** A valid date's offset inside its March-based year stays inside that year. */
  lemma OffsetInYear(d: Date)
    requires ValidDate(d)
    ensures var y := if d.month <= 2 then d.year - 1 else d.year;
            var mp := if d.month > 2 then d.month - 3 else d.month + 9;
            MonthStart(mp) + d.day - 1 < MarchYearStart(y + 1) - MarchYearStart(y)
  {
    var y := if d.month <= 2 then d.year - 1 else d.year;
    MarchYearLength(y);
  }

  /** Month offsets grow by at least the length of the earlier month. */
  lemma MonthStartGap(mp1: int, mp2: int)
    requires 0 <= mp1 < mp2 < 12
    ensures MonthStart(mp1 + 1) <= MonthStart(mp2)
  {
  }

  function MarchYear(d: Date): int {
    if d.month <= 2 then d.year - 1 else d.year
  }

  function MarchMonth(d: Date): int {
    if d.month > 2 then d.month - 3 else d.month + 9
  }

  lemma DayInMarchYear(d: Date)
    requires ValidDate(d)
    ensures 0 <= MarchMonth(d) < 12
    ensures DaysFromCivil(d) == MarchYearStart(MarchYear(d)) + MonthStart(MarchMonth(d)) + d.day - 1 - EpochShift
    ensures MarchYearStart(MarchYear(d)) - EpochShift <= DaysFromCivil(d) < MarchYearStart(MarchYear(d) + 1) - EpochShift
  {
    OffsetInYear(d);
  }

  /** Chronological order of valid dates is the order of their day numbers. */
  lemma DaysFromCivilMonotone(a: Date, b: Date)
    requires ValidDate(a) && ValidDate(b) && DateBefore(a, b)
    ensures DaysFromCivil(a) < DaysFromCivil(b)
  {
    var ya, yb := MarchYear(a), MarchYear(b);
    var ma, mb := MarchMonth(a), MarchMonth(b);
    assert 12 * ya + ma < 12 * yb + mb || (ya == yb && ma == mb && a.day < b.day);
    DayInMarchYear(a);
    DayInMarchYear(b);
    if ya < yb {
      if ya + 1 < yb {
        MarchYearStartMonotone(ya + 1, yb);
      }
    } else if ma < mb {
      MonthStartGap(ma, mb);
    }
  }

  /** Day order is date order: the later day number never has the earlier date. */
  lemma CivilFromDaysMonotone(z1: int, z2: int)
    requires z1 < z2
    ensures DateBefore(CivilFromDays(z1), CivilFromDays(z2))
  {
    var d1, d2 := CivilFromDays(z1), CivilFromDays(z2);
    CivilRoundTrip(z1);
    CivilRoundTrip(z2);
    if !DateBefore(d1, d2) {
      if d1 == d2 {
      } else {
        DaysFromCivilMonotone(d2, d1);
      }
    }
  }

  lemma CivilFromDaysInjective(z1: int, z2: int)
    ensures CivilFromDays(z1) == CivilFromDays(z2) <==> z1 == z2
  {
    CivilRoundTrip(z1);
    CivilRoundTrip(z2);
  }

  // ---------------------------------------------------------------------
  // Instants in milliseconds since the epoch

  /** The UTC day number of an instant (`Math.floor(ms / 86400000)`). */
  function DayNumber(ms: int): int {
    ms / MsPerDay
  }

  /** The UTC calendar date of an instant (`getUTCFullYear/Month/Date`). */
  function UtcDate(ms: int): (d: Date)
    ensures ValidDate(d)
  {
    CivilRoundTrip(DayNumber(ms));
    CivilFromDays(DayNumber(ms))
  }

  /** `getUTCHours()`. */
  function UtcHours(ms: int): (h: int)
    ensures 0 <= h < 24
  {
    (ms % MsPerDay) / MsPerHour
  }

  /** `getUTCMinutes()`. */
  function UtcMinutes(ms: int): (m: int)
    ensures 0 <= m < 60
  {
    (ms % MsPerHour) / MsPerMinute
  }

  /** The hours and minutes add back up to the start of the instant's minute. */
  lemma TimeOfDayDecomposition(ms: int)
    ensures DayNumber(ms) * MsPerDay + UtcHours(ms) * MsPerHour + UtcMinutes(ms) * MsPerMinute
            == ms - ms % MsPerMinute
  {
    var r := ms % MsPerDay;
    assert ms % MsPerHour == r % MsPerHour;
    assert ms % MsPerMinute == r % MsPerMinute;
  }
}
