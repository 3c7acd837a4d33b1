/**
 * The low-stock e-mail alert service: configuration, the once-per-day
 * guard kept in `lastAlertDate`, and the forced alert. Delivery itself is
 * abstract: each send takes a flag saying whether the mail server accepted
 * it, and the day is read from a clock value passed in (epoch ms).
 */
module EmailAlertService {
  import opened Wrappers
  import opened Text
  import opened Calendar
  import opened Domain
  import opened Aggregate
  import OrdenService

  datatype AlertConfig = AlertConfig(
    emailService: string,
    emailUser: string,
    emailPass: string,
    emailTo: string,
    threshold: int)

  /** A mail transport built from the service name and the credentials. */
  datatype Transporter = Transporter(service: string, user: string, pass: string)

  /** Which way a check or a forced alert went. */
  datatype AlertOutcome =
    | NotConfigured
    | BelowThreshold
    | AlreadySentToday
    | NothingLow
    | Sent(low: seq<PlainIngrediente>)
    | SendFailed

  predicate IsLow(i: PlainIngrediente) {
    i.cantidad <= i.minimo
  }

  /** The ingredients at or below their minimum, in input order. */
  function LowSet(ingredientes: seq<PlainIngrediente>): (r: seq<PlainIngrediente>)
    ensures forall x :: x in r <==> x in ingredientes && IsLow(x)
    ensures SubsequenceOf(r, ingredientes)
  {
    FilterSubsequence(ingredientes, IsLow);
    Filter(ingredientes, IsLow)
  }

  /** The status column of a row of the alert mail. */
  function StatusLabel(i: PlainIngrediente): (s: string)
    ensures s == "CRÍTICO" <==> i.cantidad < i.minimo
    ensures s == "BAJO" <==> i.cantidad >= i.minimo
  {
    if i.cantidad - i.minimo < 0 then "CRÍTICO" else "BAJO"
  }

  /** The year as `toISOString` writes it: four digits, or a sign and six digits outside 0..9999. */
  function IsoYear(y: int): string {
    if 0 <= y <= 9999 then Digits(y, 4)
    else if y < 0 then "-" + Digits(-y, 6)
    else "+" + Digits(y, 6)
  }

  function IsoDateOf(d: Date): string
    requires ValidDate(d)
  {
    IsoYear(d.year) + "-" + Digits(d.month, 2) + "-" + Digits(d.day, 2)
  }

  /** `new Date(now).toISOString().split('T')[0]`: the UTC calendar date. */
  function IsoToday(now: int): string {
    IsoDateOf(UtcDate(now))
  }

  /** Within the years `toISOString` can write, distinct UTC days give distinct alert dates. */
  lemma IsoTodayInjective(a: int, b: int)
    requires -999_999 <= UtcDate(a).year <= 999_999 && -999_999 <= UtcDate(b).year <= 999_999
    ensures IsoToday(a) == IsoToday(b) <==> DayNumber(a) == DayNumber(b)
  {
    var da, db := UtcDate(a), UtcDate(b);
    assert da == CivilFromDays(DayNumber(a)) && db == CivilFromDays(DayNumber(b));
    if IsoToday(a) == IsoToday(b) {
      IsoDateInjective(da, db);
      CivilFromDaysInjective(DayNumber(a), DayNumber(b));
    }
  }

  lemma IsoDateInjective(a: Date, b: Date)
    requires ValidDate(a) && ValidDate(b) && IsoDateOf(a) == IsoDateOf(b)
    requires -999_999 <= a.year <= 999_999 && -999_999 <= b.year <= 999_999
    ensures a == b
  {
    var sa, sb := IsoDateOf(a), IsoDateOf(b);
    var ya, yb := IsoYear(a.year), IsoYear(b.year);
    assert sa[..|sa| - 6] == ya && sb[..|sb| - 6] == yb;
    assert sa[|sa| - 5..|sa| - 3] == Digits(a.month, 2) && sb[|sb| - 5..|sb| - 3] == Digits(b.month, 2);
    assert sa[|sa| - 2..] == Digits(a.day, 2) && sb[|sb| - 2..] == Digits(b.day, 2);
    assert Pow10(2) == 100;
    DigitsInjective(a.month, b.month, 2);
    DigitsInjective(a.day, b.day, 2);
    IsoYearInjective(a.year, b.year);
  }

  lemma IsoYearInjective(a: int, b: int)
    requires IsoYear(a) == IsoYear(b)
    requires -999_999 <= a <= 999_999 && -999_999 <= b <= 999_999
    ensures a == b
  {
    assert Pow10(4) == 10_000;
    assert Pow10(6) == 1_000_000;
    var s := IsoYear(a);
    if 0 <= a <= 9999 && 0 <= b <= 9999 {
      DigitsInjective(a, b, 4);
    } else if !(0 <= a <= 9999) && !(0 <= b <= 9999) {
      assert s[0] == IsoYear(b)[0];
      assert s[1..] == IsoYear(b)[1..];
      if a < 0 {
        assert b < 0;
        DigitsInjective(-a, -b, 6);
      } else {
        assert b > 0;
        DigitsInjective(a, b, 6);
      }
    }
  }

  /** Colombian `fecha` and the alert's UTC date differ exactly in the first five hours of each UTC day. */
  lemma TodaysDiffer(now: int)
    requires 1000 <= UtcDate(now).year <= 9999
    requires 1000 <= UtcDate(OrdenService.ColombiaLocal(now)).year <= 9999
    ensures OrdenService.GetFechaHoraColombia(now).fecha == IsoToday(now) <==> now % MsPerDay >= 18_000_000
  {
    var t := OrdenService.ColombiaLocal(now);
    var dl, du := UtcDate(t), UtcDate(now);
    FourDigits(dl.year);
    assert OrdenService.GetFechaHoraColombia(now).fecha == IsoDateOf(dl);
    ShiftedDay(now);
    assert dl == CivilFromDays(DayNumber(t)) && du == CivilFromDays(DayNumber(now));
    if IsoDateOf(dl) == IsoToday(now) {
      IsoDateInjective(dl, du);
      CivilFromDaysInjective(DayNumber(t), DayNumber(now));
    }
  }

  /** Going back five hours stays on the same UTC day exactly when the day is at least five hours old. */
  lemma ShiftedDay(now: int)
    ensures DayNumber(now - 18_000_000) == DayNumber(now) <==> now % MsPerDay >= 18_000_000
    ensures DayNumber(now - 18_000_000) == DayNumber(now) || DayNumber(now - 18_000_000) == DayNumber(now) - 1
  {
    var q, r := now / MsPerDay, now % MsPerDay;
    assert now == q * MsPerDay + r;
    if r >= 18_000_000 {
      assert now - 18_000_000 == q * MsPerDay + (r - 18_000_000);
    } else {
      assert now - 18_000_000 == (q - 1) * MsPerDay + (r + MsPerDay - 18_000_000);
    }
  }

  /**
   * What one `checkAndSendAlerts` call does from a given state: nothing
   * unless configured, nothing below the threshold, nothing when today's
   * alert already went out; otherwise it tries to send the low set, and a
   * failed send is swallowed.
   */
  function Decide(transporter: Option<Transporter>, config: Option<AlertConfig>, lastAlertDate: Option<string>,
                  ingredientes: seq<PlainIngrediente>, now: int, sendOk: bool): (r: AlertOutcome)
    ensures transporter.None? || config.None? ==> r == NotConfigured
    ensures transporter.Some? && config.Some? ==>
      && (|LowSet(ingredientes)| < config.value.threshold ==> r == BelowThreshold)
      && (|LowSet(ingredientes)| >= config.value.threshold && lastAlertDate == Some(IsoToday(now)) ==>
            r == AlreadySentToday)
      && (|LowSet(ingredientes)| >= config.value.threshold && lastAlertDate != Some(IsoToday(now)) ==>
            r == if sendOk then Sent(LowSet(ingredientes)) else SendFailed)
    ensures r.Sent? ==> lastAlertDate != Some(IsoToday(now)) && r.low == LowSet(ingredientes) && sendOk
  {
    if transporter.None? || config.None? then NotConfigured
    else if |LowSet(ingredientes)| < config.value.threshold then BelowThreshold
    else if lastAlertDate == Some(IsoToday(now)) then AlreadySentToday
    else if sendOk then Sent(LowSet(ingredientes))
    else SendFailed
  }

  class AlertService {
    var transporter: Option<Transporter>
    var config: Option<AlertConfig>
    var lastAlertDate: Option<string>

    constructor()
      ensures transporter.None? && config.None? && lastAlertDate.None?
    {
      transporter := None;
      config := None;
      lastAlertDate := None;
    }

    /** `initialize`: stores the config; builds a transporter only when user and password are both given. */
    method Initialize(c: AlertConfig)
      modifies this
      ensures config == Some(c) && lastAlertDate == old(lastAlertDate)
      ensures c.emailUser == "" || c.emailPass == "" ==> transporter == old(transporter)
      ensures c.emailUser != "" && c.emailPass != "" ==>
        transporter == Some(Transporter(c.emailService, c.emailUser, c.emailPass))
    {
      config := Some(c);
      if c.emailUser == "" || c.emailPass == "" {
        return;
      }
      transporter := Some(Transporter(c.emailService, c.emailUser, c.emailPass));
    }

    /** `checkAndSendAlerts`: the outcome is `Decide` on the state before the call; only a delivered alert moves the date. */
    method CheckAndSendAlerts(ingredientes: seq<PlainIngrediente>, now: int, sendOk: bool) returns (r: AlertOutcome)
      modifies this
      ensures r == Decide(old(transporter), old(config), old(lastAlertDate), ingredientes, now, sendOk)
      ensures transporter == old(transporter) && config == old(config)
      ensures lastAlertDate == if r.Sent? then Some(IsoToday(now)) else old(lastAlertDate)
    {
      if transporter.None? || config.None? {
        return NotConfigured;
      }
      var bajos := LowSet(ingredientes);
      if |bajos| < config.value.threshold {
        return BelowThreshold;
      }
      var hoy := IsoToday(now);
      if lastAlertDate == Some(hoy) {
        return AlreadySentToday;
      }
      if !sendOk {
        return SendFailed;
      }
      lastAlertDate := Some(hoy);
      return Sent(bajos);
    }

    /**
     * `forceAlert`: sends whenever something is low, whatever the threshold
     * and the date; when not configured the send is a silent no-op, and a
     * failed send reaches the caller. The date is never touched.
     */
    method ForceAlert(ingredientes: seq<PlainIngrediente>, sendOk: bool) returns (r: AlertOutcome)
      ensures |LowSet(ingredientes)| == 0 ==> r == NothingLow
      ensures |LowSet(ingredientes)| > 0 && (transporter.None? || config.None?) ==> r == NotConfigured
      ensures |LowSet(ingredientes)| > 0 && transporter.Some? && config.Some? ==>
        r == if sendOk then Sent(LowSet(ingredientes)) else SendFailed
    {
      var bajos := LowSet(ingredientes);
      if |bajos| == 0 {
        return NothingLow;
      }
      if transporter.None? || config.None? {
        return NotConfigured;
      }
      return if sendOk then Sent(bajos) else SendFailed;
    }
  }

  /** Successful sends, in the order of the calls, fall on strictly increasing UTC days. */
  ghost predicate SendsOnDistinctDays(results: seq<AlertOutcome>, times: seq<int>)
    requires |results| <= |times|
  {
    forall i, j :: 0 <= i < j < |results| && results[i].Sent? && results[j].Sent? ==>
      DayNumber(times[i]) < DayNumber(times[j])
  }

  /** `last` is the latest successful send among `results` (-1 when there is none). */
  ghost predicate LatestSend(results: seq<AlertOutcome>, last: int) {
    && -1 <= last < |results|
    && (last >= 0 ==> results[last].Sent?)
    && forall i :: last < i < |results| ==> !results[i].Sent?
  }

  lemma ExtendSends(results: seq<AlertOutcome>, times: seq<int>, last: int, r: AlertOutcome)
    requires |results| < |times|
    requires forall i, j :: 0 <= i < j < |times| ==> times[i] <= times[j]
    requires SendsOnDistinctDays(results, times) && LatestSend(results, last)
    requires r.Sent? && last >= 0 ==> DayNumber(times[last]) != DayNumber(times[|results|])
    ensures SendsOnDistinctDays(results + [r], times)
    ensures LatestSend(results + [r], if r.Sent? then |results| else last)
  {
    var k := |results|;
    var rs := results + [r];
    forall i, j | 0 <= i < j < |rs| && rs[i].Sent? && rs[j].Sent?
      ensures DayNumber(times[i]) < DayNumber(times[j])
    {
      if j < k {
        assert results[i].Sent? && results[j].Sent?;
      } else {
        assert results[i].Sent?;
        SendBeforeNewSend(results, times, last, i);
      }
    }
  }

  /** A new send lands on a later day than every earlier send. */
  lemma SendBeforeNewSend(results: seq<AlertOutcome>, times: seq<int>, last: int, i: nat)
    requires |results| < |times|
    requires forall i, j :: 0 <= i < j < |times| ==> times[i] <= times[j]
    requires SendsOnDistinctDays(results, times) && LatestSend(results, last)
    requires last >= 0 ==> DayNumber(times[last]) != DayNumber(times[|results|])
    requires i < |results| && results[i].Sent?
    ensures DayNumber(times[i]) < DayNumber(times[|results|])
  {
    var k := |results|;
    assert i <= last;
    MsDayMonotone(times[last], times[k]);
    if i < last {
      assert results[last].Sent?;
      assert DayNumber(times[i]) < DayNumber(times[last]);
    }
  }

  /** Different alert dates come from different UTC days. */
  lemma OtherIsoOtherDay(a: int, b: int)
    requires IsoToday(a) != IsoToday(b)
    ensures DayNumber(a) != DayNumber(b)
  {
  }

  lemma MsDayMonotone(a: int, b: int)
    requires a <= b
    ensures DayNumber(a) <= DayNumber(b)
  {
  }

  /**
   * Running checks with a clock that never goes back: no two successful
   * sends fall on the same UTC day.
   */
  method RunChecks(svc: AlertService, batches: seq<seq<PlainIngrediente>>, times: seq<int>, accepted: seq<bool>)
    returns (results: seq<AlertOutcome>)
    requires |batches| == |times| == |accepted|
    requires forall i, j :: 0 <= i < j < |times| ==> times[i] <= times[j]
    requires svc.lastAlertDate.None?
    modifies svc
    ensures |results| == |times|
    ensures SendsOnDistinctDays(results, times)
  {
    results := [];
    ghost var last: int := -1;
    var k := 0;
    while k < |times|
      invariant 0 <= k <= |times| && |results| == k
      invariant LatestSend(results, last) && SendsOnDistinctDays(results, times)
      invariant last == -1 ==> svc.lastAlertDate.None?
      invariant last >= 0 ==> svc.lastAlertDate == Some(IsoToday(times[last]))
    {
      var r := svc.CheckAndSendAlerts(batches[k], times[k], accepted[k]);
      if last >= 0 && r.Sent? {
        OtherIsoOtherDay(times[last], times[k]);
      }
      ExtendSends(results, times, last, r);
      if r.Sent? {
        last := k;
      }
      results := results + [r];
      k := k + 1;
    }
  }
}
