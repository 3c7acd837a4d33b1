/**
 * Placing an order: look the recipe up, check stock for `cantidad` units,
 * deduct it, stamp the order with the Colombian date and time and an id
 * from the clock, append it, then run the low-stock alert check, whose
 * failures never reach the caller. The clock is read four times, so each
 * read is its own instant.
 */
module CreateOrdenUseCase {
  import opened Wrappers
  import opened Domain
  import opened AppErrors
  import opened ErrorHandler
  import opened IngredienteStore
  import opened RecetaStore
  import opened OrdenStore
  import opened IngredienteService
  import opened RecetaService
  import opened OrdenService
  import opened EmailAlertService

  const InsufficientFallback := "No hay suficientes ingredientes"

  /** The flat ingredient the alert check receives: a missing or empty category becomes 'otros'. */
  function Flatten(i: Ingrediente): (p: PlainIngrediente)
    ensures p.id == i.id && p.nombre == i.nombre && p.cantidad == i.cantidad
    ensures p.unidad == i.unidad && p.minimo == i.minimo
    ensures p.categoria == OrElse(i.categoria, "otros")
  {
    PlainIngrediente(i.id, i.nombre, i.cantidad, i.unidad, i.minimo, OrElse(i.categoria, "otros"))
  }

  function FlattenAll(xs: seq<Ingrediente>): (r: seq<PlainIngrediente>)
    ensures |r| == |xs| && forall k :: 0 <= k < |xs| ==> r[k] == Flatten(xs[k])
  {
    seq(|xs|, k requires 0 <= k < |xs| => Flatten(xs[k]))
  }

  /** Flattening keeps exactly the low-stock ingredients low. */
  lemma FlattenKeepsLowness(xs: seq<Ingrediente>)
    ensures forall k :: 0 <= k < |xs| ==> (IsLow(FlattenAll(xs)[k]) <==> IsLowStock(xs[k]))
  {
  }

  /**
   * The clock reads of one `execute`, in epoch milliseconds: `new Date()` for
   * fecha and hora, `Date.now()` for the id, the `createdAt` timestamp set on
   * save, and the alert check's own `new Date()` for its "today".
   */
  datatype Instantes = Instantes(fecha: int, id: int, save: int, alert: int)

  /** The order recorded for `cantidad` units of `receta`, with fecha/hora and id from their own clock reads. */
  function NewOrden(receta: Receta, cantidad: int, t: Instantes): (o: Orden)
    ensures o.id == GenerateOrdenId(t.id)
    ensures o.recetaId == receta.id && o.recetaNombre == receta.nombre
    ensures o.categoria == Some(receta.categoria) && o.cantidad == cantidad
    ensures o.total == receta.precio * cantidad as real
    ensures o.fecha == GetFechaHoraColombia(t.fecha).fecha && o.hora == GetFechaHoraColombia(t.fecha).hora
  {
    var fh := GetFechaHoraColombia(t.fecha);
    Orden(GenerateOrdenId(t.id), receta.id, receta.nombre, cantidad, fh.fecha, fh.hora,
          receta.precio * cantidad as real, Some(receta.categoria))
  }

  /**
   * The date and the id are read one millisecond apart: across a Colombian
   * midnight the order's fecha is the day before the one its id and
   * `createdAt` fall on.
   */
  lemma FechaBeforeMidnight(receta: Receta, cantidad: int)
    ensures var t := Instantes(104_399_999, 104_400_000, 104_400_000, 104_400_000);
      && NewOrden(receta, cantidad, t).fecha == GetFechaHoraColombia(t.fecha).fecha
      && NewOrden(receta, cantidad, t).fecha != GetFechaHoraColombia(t.id).fecha
  {
    FechaSameDay(104_399_999, 104_400_000);
    assert ColombiaLocal(104_399_999) == 86_399_999 && ColombiaLocal(104_400_000) == 86_400_000;
  }

  function InsufficientError(a: Availability): (e: Thrown)
    requires a.Unavailable?
    ensures e.App? && e.err.statusCode == 400 && e.err.code == IngredienteInsufficient
    ensures e.err.message == if a.missing != "" then a.missing else InsufficientFallback
  {
    App(BadRequest(IngredienteInsufficient, Some(OrElse(Some(a.missing), InsufficientFallback))))
  }

  predicate IdTaken(log: seq<StoredOrden>, id: string) {
    exists k :: 0 <= k < |log| && log[k].orden.id == id
  }

  /** `checkLowStockAlerts`: the alert check over every ingredient, flattened. */
  method CheckLowStockAlerts(ingredientes: IngredienteRepository, alerts: AlertService, now: int, sendOk: bool)
    returns (outcome: AlertOutcome)
    requires ingredientes.Valid()
    modifies alerts
    ensures outcome == Decide(old(alerts.transporter), old(alerts.config), old(alerts.lastAlertDate),
                              FlattenAll(ingredientes.FindAll()), now, sendOk)
    ensures alerts.transporter == old(alerts.transporter) && alerts.config == old(alerts.config)
    ensures alerts.lastAlertDate == if outcome.Sent? then Some(IsoToday(now)) else old(alerts.lastAlertDate)
  {
    var todos := ingredientes.FindAll();
    outcome := alerts.CheckAndSendAlerts(FlattenAll(todos), now, sendOk);
  }

  /**
   * The steps of `execute` after a passed check: deduct the stock, stamp and
   * append the order, then run the alert check. A taken order id fails the
   * append with the stock already deducted.
   */
  method Fulfil(ingredientes: IngredienteRepository, ordenes: OrdenRepository, alerts: AlertService,
                receta: Receta, cantidad: int, t: Instantes, sendOk: bool)
    returns (r: Result<Orden, Thrown>, alert: Option<AlertOutcome>)
    requires ingredientes.Valid() && ordenes.Valid()
    modifies ingredientes, ordenes, alerts
    ensures ingredientes.Valid() && ordenes.Valid() && ingredientes.order == old(ingredientes.order)
    ensures ingredientes.items == Deducted(old(ingredientes.items), receta.ingredientes, cantidad)
    ensures IdTaken(old(ordenes.log), GenerateOrdenId(t.id)) ==>
      r == Err(Generic(None)) && alert.None? && ordenes.log == old(ordenes.log)
    ensures !IdTaken(old(ordenes.log), GenerateOrdenId(t.id)) ==>
      && r == Ok(NewOrden(receta, cantidad, t))
      && ordenes.log == old(ordenes.log) + [StoredOrden(r.value, t.save)]
      && alert.Some?
      && alert.value == Decide(old(alerts.transporter), old(alerts.config), old(alerts.lastAlertDate),
                               FlattenAll(ingredientes.FindAll()), t.alert, sendOk)
    ensures alert.None? ==> alerts.lastAlertDate == old(alerts.lastAlertDate)
    ensures alert.Some? ==> alerts.lastAlertDate == if alert.value.Sent? then Some(IsoToday(t.alert)) else old(alerts.lastAlertDate)
    ensures alerts.transporter == old(alerts.transporter) && alerts.config == old(alerts.config)
  {
    var orden := NewOrden(receta, cantidad, t);
    assert orden.id == GenerateOrdenId(t.id);
    ghost var log0, alerts0 := ordenes.log, (alerts.transporter, alerts.config, alerts.lastAlertDate);
    DeductIngredientes(ingredientes, receta.ingredientes, cantidad);
    assert ordenes.log == log0 && (alerts.transporter, alerts.config, alerts.lastAlertDate) == alerts0;
    r, alert := Record(ingredientes, ordenes, alerts, orden, t, sendOk);
  }

  /** Append the stamped order, then run the alert check; a taken id stops before the alert. */
  method Record(ingredientes: IngredienteRepository, ordenes: OrdenRepository, alerts: AlertService,
                orden: Orden, t: Instantes, sendOk: bool)
    returns (r: Result<Orden, Thrown>, alert: Option<AlertOutcome>)
    requires ingredientes.Valid() && ordenes.Valid()
    modifies ordenes, alerts
    ensures ordenes.Valid()
    ensures IdTaken(old(ordenes.log), orden.id) ==>
      r == Err(Generic(None)) && alert.None? && ordenes.log == old(ordenes.log)
    ensures !IdTaken(old(ordenes.log), orden.id) ==>
      && r == Ok(orden)
      && ordenes.log == old(ordenes.log) + [StoredOrden(orden, t.save)]
      && alert.Some?
      && alert.value == Decide(old(alerts.transporter), old(alerts.config), old(alerts.lastAlertDate),
                               FlattenAll(ingredientes.FindAll()), t.alert, sendOk)
    ensures alert.None? ==> alerts.lastAlertDate == old(alerts.lastAlertDate)
    ensures alert.Some? ==> alerts.lastAlertDate == if alert.value.Sent? then Some(IsoToday(t.alert)) else old(alerts.lastAlertDate)
    ensures alerts.transporter == old(alerts.transporter) && alerts.config == old(alerts.config)
  {
    var stored := ordenes.Create(orden, t.save);
    if stored.Err? {
      return Err(Generic(None)), None;
    }
    var outcome := CheckLowStockAlerts(ingredientes, alerts, t.alert, sendOk);
    return Ok(orden), Some(outcome);
  }

  /**
   * `execute` as written. A failed lookup or check changes nothing; after a
   * passed check the stock is deducted before the order is stored, so an
   * order id already taken (two orders in one millisecond) fails with the
   * stock already gone.
   */
  method Execute(recetas: RecetaRepository, ingredientes: IngredienteRepository, ordenes: OrdenRepository,
                 alerts: AlertService, recetaId: string, cantidad: int, t: Instantes, sendOk: bool)
    returns (r: Result<Orden, Thrown>, alert: Option<AlertOutcome>)
    requires recetas.Valid() && ingredientes.Valid() && ordenes.Valid()
    modifies ingredientes, ordenes, alerts
    ensures ingredientes.Valid() && ordenes.Valid() && ingredientes.order == old(ingredientes.order)
    ensures recetaId !in recetas.items ==>
      && r == Err(App(NotFoundError(RecetaNotFound))) && alert.None?
      && ingredientes.items == old(ingredientes.items) && ordenes.log == old(ordenes.log)
    ensures recetaId in recetas.items && Check(old(ingredientes.items), recetas.items[recetaId].ingredientes, cantidad).Unavailable? ==>
      && r == Err(InsufficientError(Check(old(ingredientes.items), recetas.items[recetaId].ingredientes, cantidad)))
      && alert.None? && ingredientes.items == old(ingredientes.items) && ordenes.log == old(ordenes.log)
    ensures recetaId in recetas.items && Check(old(ingredientes.items), recetas.items[recetaId].ingredientes, cantidad) == Available ==>
      && ingredientes.items == Deducted(old(ingredientes.items), recetas.items[recetaId].ingredientes, cantidad)
      && (IdTaken(old(ordenes.log), GenerateOrdenId(t.id)) ==>
            r == Err(Generic(None)) && alert.None? && ordenes.log == old(ordenes.log))
      && (!IdTaken(old(ordenes.log), GenerateOrdenId(t.id)) ==>
            && r == Ok(NewOrden(recetas.items[recetaId], cantidad, t))
            && ordenes.log == old(ordenes.log) + [StoredOrden(r.value, t.save)]
            && alert.Some?
            && alert.value == Decide(old(alerts.transporter), old(alerts.config), old(alerts.lastAlertDate),
                                     FlattenAll(ingredientes.FindAll()), t.alert, sendOk))
    ensures alert.None? ==> alerts.lastAlertDate == old(alerts.lastAlertDate)
    ensures alert.Some? ==> alerts.lastAlertDate == if alert.value.Sent? then Some(IsoToday(t.alert)) else old(alerts.lastAlertDate)
    ensures alerts.transporter == old(alerts.transporter) && alerts.config == old(alerts.config)
  {
    var found := GetRecetaById(recetas, recetaId);
    if found.Err? {
      return Err(found.error), None;
    }
    var receta := found.value;
    var availability := CheckAvailability(ingredientes, receta.ingredientes, cantidad);
    if availability.Unavailable? {
      return Err(InsufficientError(availability)), None;
    }
    r, alert := Fulfil(ingredientes, ordenes, alerts, receta, cantidad, t, sendOk);
  }

  /**
   * `execute` with the id collision checked before any stock moves: every
   * failure leaves the stock and the order log as they were.
   */
  method ExecuteAtomic(recetas: RecetaRepository, ingredientes: IngredienteRepository, ordenes: OrdenRepository,
                       alerts: AlertService, recetaId: string, cantidad: int, t: Instantes, sendOk: bool)
    returns (r: Result<Orden, Thrown>, alert: Option<AlertOutcome>)
    requires recetas.Valid() && ingredientes.Valid() && ordenes.Valid()
    modifies ingredientes, ordenes, alerts
    ensures ingredientes.Valid() && ordenes.Valid() && ingredientes.order == old(ingredientes.order)
    ensures r.Err? ==> ingredientes.items == old(ingredientes.items) && ordenes.log == old(ordenes.log) && alert.None?
    ensures r.Err? <==>
      || recetaId !in recetas.items
      || Check(old(ingredientes.items), recetas.items[recetaId].ingredientes, cantidad).Unavailable?
      || IdTaken(old(ordenes.log), GenerateOrdenId(t.id))
    ensures r.Ok? ==>
      && r.value == NewOrden(recetas.items[recetaId], cantidad, t)
      && ingredientes.items == Deducted(old(ingredientes.items), recetas.items[recetaId].ingredientes, cantidad)
      && ordenes.log == old(ordenes.log) + [StoredOrden(r.value, t.save)]
      && alert.Some?
      && alert.value == Decide(old(alerts.transporter), old(alerts.config), old(alerts.lastAlertDate),
                               FlattenAll(ingredientes.FindAll()), t.alert, sendOk)
    ensures alert.None? ==> alerts.lastAlertDate == old(alerts.lastAlertDate)
    ensures alert.Some? ==> alerts.lastAlertDate == if alert.value.Sent? then Some(IsoToday(t.alert)) else old(alerts.lastAlertDate)
    ensures alerts.transporter == old(alerts.transporter) && alerts.config == old(alerts.config)
  {
    var found := GetRecetaById(recetas, recetaId);
    if found.Err? {
      return Err(found.error), None;
    }
    var receta := found.value;
    var availability := CheckAvailability(ingredientes, receta.ingredientes, cantidad);
    if availability.Unavailable? {
      return Err(InsufficientError(availability)), None;
    }
    if ordenes.FindById(GenerateOrdenId(t.id)).Some? {
      return Err(Generic(None)), None;
    }
    r, alert := Fulfil(ingredientes, ordenes, alerts, receta, cantidad, t, sendOk);
  }

  /**
   * Two orders in one millisecond: the check passes and the stock moves,
   * while the order id is already in the log, so the as-written `Execute`
   * fails with the stock changed.
   */
  lemma SameMillisecondCollision(receta: Receta, earlier: Orden)
    requires receta.ingredientes == [RecetaIngrediente("1", 2)]
    requires earlier.id == GenerateOrdenId(1_000)
    ensures IdTaken([StoredOrden(earlier, 1_000)], NewOrden(receta, 1, Instantes(1_000, 1_000, 1_000, 1_000)).id)
    ensures var m := map["1" := Ingrediente("1", "Pan", 5, "unidades", 1, None)];
      && Check(m, receta.ingredientes, 1) == Available
      && Deducted(m, receta.ingredientes, 1)["1"].cantidad == 3
  {
    assert [StoredOrden(earlier, 1_000)][0].orden.id == earlier.id;
    CollisionStock(receta.ingredientes);
  }

  lemma CollisionStock(reqs: seq<RecetaIngrediente>)
    requires reqs == [RecetaIngrediente("1", 2)]
    ensures var m := map["1" := Ingrediente("1", "Pan", 5, "unidades", 1, None)];
      && Check(m, reqs, 1) == Available
      && Deducted(m, reqs, 1)["1"].cantidad == 3
  {
    assert reqs[1..] == [] && reqs[..0] == [];
  }
}
