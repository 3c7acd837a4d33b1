/**
 * Order stamping: the order id made from the millisecond clock, and the
 * Colombian wall-clock date and time (UTC-5, no daylight saving) written as
 * `YYYY-MM-DD` and `HH:MM`. The clock value is a parameter.
 */
module OrdenService {
  import opened Text
  import opened Calendar

  /** The fixed offset of Colombian time, in minutes. */
  const ColombiaOffsetMinutes: int := -5 * 60

  /** The instant whose UTC fields are the Colombian wall-clock fields of `now`. */
  function ColombiaLocal(now: int): (t: int)
    ensures t == now - 18_000_000
  {
    now + ColombiaOffsetMinutes * 60 * 1000
  }

  /** `ord-` followed by the decimal millisecond timestamp. */
  function GenerateOrdenId(now: int): (id: string)
    ensures |id| > 4 && id[..4] == "ord-" && id[4..] == IntToString(now)
    ensures ParseInt(id[4..]) == now
  {
    var id := "ord-" + IntToString(now);
    assert id[4..] == IntToString(now);
    ParseIntToString(now);
    id
  }

  /** Two orders get the same id exactly when they are stamped in the same millisecond. */
  lemma OrdenIdInjective(a: int, b: int)
    ensures GenerateOrdenId(a) == GenerateOrdenId(b) <==> a == b
  {
  }

  /** `String(n).padStart(2, '0')`. */
  function Pad2(n: nat): string {
    PadStart(NatToString(n), 2, '0')
  }

  datatype FechaHora = FechaHora(fecha: string, hora: string)

  function FormatFecha(d: Date): string
    requires ValidDate(d)
  {
    IntToString(d.year) + "-" + Pad2(d.month) + "-" + Pad2(d.day)
  }

  function FormatHora(h: nat, m: nat): string {
    Pad2(h) + ":" + Pad2(m)
  }

  function GetFechaHoraColombia(now: int): (r: FechaHora)
    ensures var d := UtcDate(ColombiaLocal(now));
      r.fecha == IntToString(d.year) + "-" + Digits(d.month, 2) + "-" + Digits(d.day, 2)
    ensures var t := ColombiaLocal(now);
      r.hora == Digits(UtcHours(t), 2) + ":" + Digits(UtcMinutes(t), 2)
  {
    var t := ColombiaLocal(now);
    var d := UtcDate(t);
    PadTwo(d.month);
    PadTwo(d.day);
    PadTwo(UtcHours(t));
    PadTwo(UtcMinutes(t));
    FechaHora(FormatFecha(d), FormatHora(UtcHours(t), UtcMinutes(t)))
  }

  /**
   * A date string is a year, a dash, a two-digit month, a dash and a two-digit
   * day, and each field reads back as the date's own.
   */
  lemma FechaStringFields(d: Date)
    requires ValidDate(d)
    ensures var f := IntToString(d.year) + "-" + Digits(d.month, 2) + "-" + Digits(d.day, 2);
      && |f| >= 7
      && f[..|f| - 6] == IntToString(d.year) && f[|f| - 6] == '-'
      && f[|f| - 5..|f| - 3] == Digits(d.month, 2) && f[|f| - 3] == '-'
      && f[|f| - 2..] == Digits(d.day, 2)
      && ParseInt(f[..|f| - 6]) == d.year
      && ParseNat(f[|f| - 5..|f| - 3]) == d.month
      && ParseNat(f[|f| - 2..]) == d.day
  {
    var y, mm, dd := IntToString(d.year), Digits(d.month, 2), Digits(d.day, 2);
    var f := y + "-" + mm + "-" + dd;
    assert f[..|f| - 6] == y;
    assert f[|f| - 5..|f| - 3] == mm;
    assert f[|f| - 2..] == dd;
    ParseIntToString(d.year);
    assert Pow10(2) == 100;
    ParseDigits(d.month, 2);
    ParseDigits(d.day, 2);
  }

  /**
   * `fecha` is a year, a dash, a two-digit month in 01..12, a dash and a
   * two-digit valid day of that month; each field reads back as the UTC
   * calendar field of the shifted instant.
   */
  lemma FechaFields(now: int)
    ensures var d := UtcDate(ColombiaLocal(now));
      var f := GetFechaHoraColombia(now).fecha;
      && |f| >= 7
      && f[..|f| - 6] == IntToString(d.year) && f[|f| - 6] == '-'
      && f[|f| - 5..|f| - 3] == Digits(d.month, 2) && f[|f| - 3] == '-'
      && f[|f| - 2..] == Digits(d.day, 2)
      && ParseInt(f[..|f| - 6]) == d.year
      && ParseNat(f[|f| - 5..|f| - 3]) == d.month && 1 <= d.month <= 12
      && ParseNat(f[|f| - 2..]) == d.day && 1 <= d.day <= DaysInMonth(d.year, d.month)
  {
    FechaStringFields(UtcDate(ColombiaLocal(now)));
  }

  /** `hora` is HH:MM with HH in 00..23 and MM in 00..59, the UTC time of the shifted instant. */
  lemma HoraFields(now: int)
    ensures var t := ColombiaLocal(now);
      var h := GetFechaHoraColombia(now).hora;
      && |h| == 5 && h[2] == ':'
      && ParseNat(h[..2]) == UtcHours(t) < 24
      && ParseNat(h[3..]) == UtcMinutes(t) < 60
  {
    var t := ColombiaLocal(now);
    var h := GetFechaHoraColombia(now).hora;
    assert h[..2] == Digits(UtcHours(t), 2);
    assert h[3..] == Digits(UtcMinutes(t), 2);
    assert Pow10(2) == 100;
    ParseDigits(UtcHours(t), 2);
    ParseDigits(UtcMinutes(t), 2);
  }

  /** Distinct dates get distinct strings. */
  lemma FechaStringInjective(a: Date, b: Date)
    requires ValidDate(a) && ValidDate(b)
    requires IntToString(a.year) + "-" + Digits(a.month, 2) + "-" + Digits(a.day, 2)
          == IntToString(b.year) + "-" + Digits(b.month, 2) + "-" + Digits(b.day, 2)
    ensures a == b
  {
    FechaStringFields(a);
    FechaStringFields(b);
  }

  /** Two instants get the same `fecha` exactly when they fall on the same Colombian day. */
  lemma FechaSameDay(a: int, b: int)
    ensures GetFechaHoraColombia(a).fecha == GetFechaHoraColombia(b).fecha
      <==> DayNumber(ColombiaLocal(a)) == DayNumber(ColombiaLocal(b))
  {
    var za, zb := DayNumber(ColombiaLocal(a)), DayNumber(ColombiaLocal(b));
    var da, db := UtcDate(ColombiaLocal(a)), UtcDate(ColombiaLocal(b));
    assert da == CivilFromDays(za) && db == CivilFromDays(zb);
    if GetFechaHoraColombia(a).fecha == GetFechaHoraColombia(b).fecha {
      FechaStringInjective(da, db);
      CivilFromDaysInjective(za, zb);
    }
  }

  /** For four-digit years, comparing `fecha` strings compares the days. */
  lemma FechaOrder(a: int, b: int)
    requires 1000 <= UtcDate(ColombiaLocal(a)).year <= 9999
    requires 1000 <= UtcDate(ColombiaLocal(b)).year <= 9999
    ensures LexLess(GetFechaHoraColombia(a).fecha, GetFechaHoraColombia(b).fecha)
      <==> DayNumber(ColombiaLocal(a)) < DayNumber(ColombiaLocal(b))
  {
    var za, zb := DayNumber(ColombiaLocal(a)), DayNumber(ColombiaLocal(b));
    FechaStringOrder(UtcDate(ColombiaLocal(a)), UtcDate(ColombiaLocal(b)));
    DayOrder(za, zb);
  }

  /** On four-digit years, the `fecha` strings compare as the dates. */
  lemma FechaStringOrder(da: Date, db: Date)
    requires ValidDate(da) && ValidDate(db)
    requires 1000 <= da.year <= 9999 && 1000 <= db.year <= 9999
    ensures LexLess(IntToString(da.year) + "-" + Digits(da.month, 2) + "-" + Digits(da.day, 2),
                    IntToString(db.year) + "-" + Digits(db.month, 2) + "-" + Digits(db.day, 2))
      <==> DateBefore(da, db)
  {
    FourDigits(da.year);
    FourDigits(db.year);
    DigitStringOrder(da, db);
  }

  /** Day numbers and the dates they name are in the same order. */
  lemma DayOrder(za: int, zb: int)
    ensures DateBefore(CivilFromDays(za), CivilFromDays(zb)) <==> za < zb
  {
    if za < zb {
      CivilFromDaysMonotone(za, zb);
    } else if zb < za {
      CivilFromDaysMonotone(zb, za);
    }
  }

  /** The order on `YYYY-MM-DD` strings is the calendar order. */
  lemma DigitStringOrder(a: Date, b: Date)
    requires 0 <= a.year <= 9999 && 0 <= b.year <= 9999
    requires 0 <= a.month < 100 && 0 <= b.month < 100 && 0 <= a.day < 100 && 0 <= b.day < 100
    ensures LexLess(Digits(a.year, 4) + "-" + Digits(a.month, 2) + "-" + Digits(a.day, 2),
                    Digits(b.year, 4) + "-" + Digits(b.month, 2) + "-" + Digits(b.day, 2))
      <==> DateBefore(a, b)
  {
    var ya, yb := Digits(a.year, 4), Digits(b.year, 4);
    var ma, mb := Digits(a.month, 2), Digits(b.month, 2);
    var ra, rb := "-" + Digits(a.day, 2), "-" + Digits(b.day, 2);
    assert Pow10(2) == 100 && Pow10(4) == 10000;
    DigitsOrder(a.year, b.year, 4);
    DigitsInjective(a.year, b.year, 4);
    DigitsOrder(a.month, b.month, 2);
    DigitsInjective(a.month, b.month, 2);
    DigitsOrder(a.day, b.day, 2);
    LexLessConcat("-", Digits(a.day, 2), "-", Digits(b.day, 2));
    LexLessIrreflexive("-");
    LexLessConcat("-" + ma, ra, "-" + mb, rb);
    LexLessConcat("-", ma, "-", mb);
    assert ya + "-" + ma + "-" + Digits(a.day, 2) == ya + (("-" + ma) + ra);
    assert yb + "-" + mb + "-" + Digits(b.day, 2) == yb + (("-" + mb) + rb);
    LexLessConcat(ya, ("-" + ma) + ra, yb, ("-" + mb) + rb);
  }
}
