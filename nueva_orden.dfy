/**
 * The order-placing screen: how many units of a dish the stock allows,
 * the per-dish quantity picker and its clamps, whether a dish can be made
 * at all, and the category and search filters over the dishes.
 */
module NuevaOrden {
  import opened Wrappers
  import opened Text
  import opened Domain
  import opened Aggregate
  import opened Sorting
  import opened StringSets

  /** A dish as the screen receives it; the code guards against a missing list or category. */
  datatype Plato = Plato(
    id: string,
    nombre: string,
    ingredientes: Option<seq<RecetaIngrediente>>,
    precio: real,
    categoria: Option<string>)

  /** A JavaScript number. */
  datatype JsNumber = Finite(value: real) | PosInfinity | NegInfinity | NaN

  /** `Math.min` on two numbers: NaN wins, then the smaller. */
  function Min(a: JsNumber, b: JsNumber): JsNumber {
    if a.NaN? || b.NaN? then NaN
    else if a.NegInfinity? || b.NegInfinity? then NegInfinity
    else if a.PosInfinity? then b
    else if b.PosInfinity? then a
    else if a.value <= b.value then a else b
  }

  /** Integer floor division, rounding toward negative infinity for either sign of `b`. */
  function FloorQuotient(a: int, b: int): int
    requires b != 0
  {
    if b > 0 then a / b else (-a) / (-b)
  }

  /** `Math.floor(stock / perUnit)`, including the division by zero. */
  function Possible(stock: int, perUnit: int): JsNumber {
    if perUnit == 0 then
      (if stock > 0 then PosInfinity else if stock < 0 then NegInfinity else NaN)
    else Finite(FloorQuotient(stock, perUnit) as real)
  }

  /** `ingredientes.find(i => i.id === id)`: the first ingredient with that id. */
  function Find(inventario: seq<PlainIngrediente>, id: string): (r: Option<PlainIngrediente>)
    ensures r.None? <==> forall k :: 0 <= k < |inventario| ==> inventario[k].id != id
    ensures r.Some? ==> r.value in inventario && r.value.id == id
  {
    if |inventario| == 0 then None
    else if inventario[0].id == id then Some(inventario[0])
    else Find(inventario[1..], id)
  }

  /** The loop's running `max` over the requirements still to visit; a missing ingredient sets 0 and stops. */
  function Bound(inventario: seq<PlainIngrediente>, reqs: seq<RecetaIngrediente>, acc: JsNumber): JsNumber {
    if |reqs| == 0 then acc
    else match Find(inventario, reqs[0].ingredienteId)
      case None => Finite(0.0)
      case Some(ing) => Bound(inventario, reqs[1..], Min(acc, Possible(ing.cantidad, reqs[0].cantidad)))
  }

  /** `calcularMaxDisponible` as a value: 99 with no requirements, otherwise the bound, 0 unless finite. */
  function MaxDisponible(plato: Plato, inventario: seq<PlainIngrediente>): (m: int)
    ensures m >= 0
    ensures plato.ingredientes.None? || plato.ingredientes.value == [] ==> m == 99
  {
    if plato.ingredientes.None? || |plato.ingredientes.value| == 0 then 99
    else
      var b := Bound(inventario, plato.ingredientes.value, PosInfinity);
      if b.Finite? && b.value >= 0.0 then b.value.Floor else 0
  }

  /** `calcularMaxDisponible`: the loop over the requirements with its early exit. */
  method CalcularMaxDisponible(plato: Plato, inventario: seq<PlainIngrediente>) returns (m: int)
    ensures m == MaxDisponible(plato, inventario)
  {
    if plato.ingredientes.None? || |plato.ingredientes.value| == 0 {
      return 99;
    }
    var reqs := plato.ingredientes.value;
    var max := PosInfinity;
    var i := 0;
    while i < |reqs|
      invariant 0 <= i <= |reqs|
      invariant Bound(inventario, reqs, PosInfinity) == Bound(inventario, reqs[i..], max)
    {
      var ri := reqs[i];
      var ing := Find(inventario, ri.ingredienteId);
      if ing.None? {
        max := Finite(0.0);
        break;
      }
      max := Min(max, Possible(ing.value.cantidad, ri.cantidad));
      i := i + 1;
    }
    m := if max.Finite? && max.value >= 0.0 then max.value.Floor else 0;
  }

  /** Any required ingredient missing from the stock makes the bound 0. */
  lemma {:induction false} BoundMissing(inventario: seq<PlainIngrediente>, reqs: seq<RecetaIngrediente>, acc: JsNumber, k: nat)
    requires k < |reqs| && Find(inventario, reqs[k].ingredienteId).None?
    ensures Bound(inventario, reqs, acc) == Finite(0.0)
  {
    if Find(inventario, reqs[0].ingredienteId).Some? {
      assert reqs[1..][k - 1] == reqs[k];
      BoundMissing(inventario, reqs[1..], Min(acc, Possible(Find(inventario, reqs[0].ingredienteId).value.cantidad, reqs[0].cantidad)), k - 1);
    }
  }

  lemma MaxMissing(plato: Plato, inventario: seq<PlainIngrediente>, k: nat)
    requires plato.ingredientes.Some? && k < |plato.ingredientes.value|
    requires Find(inventario, plato.ingredientes.value[k].ingredienteId).None?
    ensures MaxDisponible(plato, inventario) == 0
  {
    BoundMissing(inventario, plato.ingredientes.value, PosInfinity, k);
  }

  /** Every requirement names a stocked ingredient and a positive amount per unit. */
  predicate Orderable(inventario: seq<PlainIngrediente>, reqs: seq<RecetaIngrediente>) {
    forall k :: 0 <= k < |reqs| ==> reqs[k].cantidad > 0 && Find(inventario, reqs[k].ingredienteId).Some?
  }

  function Stock(inventario: seq<PlainIngrediente>, req: RecetaIngrediente): int
    requires Find(inventario, req.ingredienteId).Some?
  {
    Find(inventario, req.ingredienteId).value.cantidad
  }

  /** The smallest `floor(stock / perUnit)` over a non-empty list. */
  function MinQuotient(inventario: seq<PlainIngrediente>, reqs: seq<RecetaIngrediente>): (q: int)
    requires |reqs| > 0 && Orderable(inventario, reqs)
    ensures forall k :: 0 <= k < |reqs| ==> q <= Stock(inventario, reqs[k]) / reqs[k].cantidad
    ensures exists k :: 0 <= k < |reqs| && q == Stock(inventario, reqs[k]) / reqs[k].cantidad
  {
    var here := Stock(inventario, reqs[0]) / reqs[0].cantidad;
    if |reqs| == 1 then here
    else
      assert Orderable(inventario, reqs[1..]) by {
        forall k | 0 <= k < |reqs| - 1 ensures reqs[1..][k] == reqs[k + 1] { }
      }
      var rest := MinQuotient(inventario, reqs[1..]);
      assert forall k :: 1 <= k < |reqs| ==> reqs[k] == reqs[1..][k - 1];
      if here <= rest then here else rest
  }

  lemma {:induction false} BoundIsMin(inventario: seq<PlainIngrediente>, reqs: seq<RecetaIngrediente>, acc: JsNumber)
    requires |reqs| > 0 && Orderable(inventario, reqs)
    requires acc.PosInfinity? || (acc.Finite? && acc.value == acc.value.Floor as real)
    ensures acc.PosInfinity? ==> Bound(inventario, reqs, acc) == Finite(MinQuotient(inventario, reqs) as real)
    ensures acc.Finite? ==>
      Bound(inventario, reqs, acc) == Finite((if acc.value.Floor <= MinQuotient(inventario, reqs) then acc.value.Floor else MinQuotient(inventario, reqs)) as real)
  {
    var p := Possible(Stock(inventario, reqs[0]), reqs[0].cantidad);
    assert p == Finite((Stock(inventario, reqs[0]) / reqs[0].cantidad) as real);
    var acc' := Min(acc, p);
    if |reqs| > 1 {
      assert Orderable(inventario, reqs[1..]) by {
        forall k | 0 <= k < |reqs| - 1 ensures reqs[1..][k] == reqs[k + 1] { }
      }
      BoundIsMin(inventario, reqs[1..], acc');
    }
  }

  /** Below the bound every requirement is covered; one more unit overdraws some requirement. */
  lemma MaxIsTight(plato: Plato, inventario: seq<PlainIngrediente>)
    requires plato.ingredientes.Some? && |plato.ingredientes.value| > 0
    requires Orderable(inventario, plato.ingredientes.value)
    ensures var m, reqs := MaxDisponible(plato, inventario), plato.ingredientes.value;
      && (forall k :: 0 <= k < |reqs| && m > 0 ==> Stock(inventario, reqs[k]) >= m * reqs[k].cantidad)
      && (exists k :: 0 <= k < |reqs| && Stock(inventario, reqs[k]) < (m + 1) * reqs[k].cantidad)
  {
    var reqs := plato.ingredientes.value;
    var q := MinQuotient(inventario, reqs);
    MaxIsQuotient(plato, inventario);
    var m := MaxDisponible(plato, inventario);
    forall k | 0 <= k < |reqs| && m > 0 ensures Stock(inventario, reqs[k]) >= m * reqs[k].cantidad {
      Covered(Stock(inventario, reqs[k]), reqs[k].cantidad, m);
    }
    var k :| 0 <= k < |reqs| && q == Stock(inventario, reqs[k]) / reqs[k].cantidad;
    Overdrawn(Stock(inventario, reqs[k]), reqs[k].cantidad, m);
  }

  /** With every requirement orderable, the picker's bound is the smallest quotient, or 0 when that is negative. */
  lemma MaxIsQuotient(plato: Plato, inventario: seq<PlainIngrediente>)
    requires plato.ingredientes.Some? && |plato.ingredientes.value| > 0
    requires Orderable(inventario, plato.ingredientes.value)
    ensures var q := MinQuotient(inventario, plato.ingredientes.value);
      MaxDisponible(plato, inventario) == if q >= 0 then q else 0
  {
    BoundIsMin(inventario, plato.ingredientes.value, PosInfinity);
  }

  lemma Covered(s: int, c: int, m: int)
    requires c > 0 && 0 < m <= s / c
    ensures s >= m * c
  {
    MulMonotone(m, s / c, c);
  }

  lemma Overdrawn(s: int, c: int, m: int)
    requires c > 0 && s / c <= m
    ensures s < (m + 1) * c
  {
    MulMonotone(s / c + 1, m + 1, c);
  }

  lemma MulMonotone(a: int, b: int, c: int)
    requires a <= b && c > 0
    ensures a * c <= b * c
  {
  }

  /** `puedeHacer`: every listed requirement is stocked for one unit; false with no list. */
  function PuedeHacer(plato: Plato, inventario: seq<PlainIngrediente>): (ok: bool)
    ensures plato.ingredientes.None? ==> !ok
    ensures plato.ingredientes.Some? ==>
      (ok <==> forall k :: 0 <= k < |plato.ingredientes.value| ==>
                  var ing := Find(inventario, plato.ingredientes.value[k].ingredienteId);
                  ing.Some? && ing.value.cantidad >= plato.ingredientes.value[k].cantidad)
  {
    plato.ingredientes.Some? && Every(plato.ingredientes.value, inventario)
  }

  function Every(reqs: seq<RecetaIngrediente>, inventario: seq<PlainIngrediente>): (ok: bool)
    ensures ok <==> forall k :: 0 <= k < |reqs| ==>
      var ing := Find(inventario, reqs[k].ingredienteId);
      ing.Some? && ing.value.cantidad >= reqs[k].cantidad
  {
    if |reqs| == 0 then true
    else
      var ing := Find(inventario, reqs[0].ingredienteId);
      assert forall k :: 1 <= k < |reqs| ==> reqs[k] == reqs[1..][k - 1];
      ing.Some? && ing.value.cantidad >= reqs[0].cantidad && Every(reqs[1..], inventario)
  }

  /** With positive amounts per unit, a dish can be made exactly when the picker allows at least one. */
  lemma PuedeHacerIffOne(plato: Plato, inventario: seq<PlainIngrediente>)
    requires plato.ingredientes.Some? && |plato.ingredientes.value| > 0
    requires forall k :: 0 <= k < |plato.ingredientes.value| ==> plato.ingredientes.value[k].cantidad > 0
    ensures PuedeHacer(plato, inventario) <==> MaxDisponible(plato, inventario) >= 1
  {
    var reqs := plato.ingredientes.value;
    if Orderable(inventario, reqs) {
      MaxIsQuotient(plato, inventario);
      StockedForOne(inventario, reqs);
    } else {
      var k :| 0 <= k < |reqs| && Find(inventario, reqs[k].ingredienteId).None?;
      MaxMissing(plato, inventario, k);
      assert !Every(reqs, inventario);
    }
  }

  /** Every requirement is stocked for one unit exactly when the smallest quotient is at least 1. */
  lemma StockedForOne(inventario: seq<PlainIngrediente>, reqs: seq<RecetaIngrediente>)
    requires |reqs| > 0 && Orderable(inventario, reqs)
    ensures Every(reqs, inventario) <==> MinQuotient(inventario, reqs) >= 1
  {
    var q := MinQuotient(inventario, reqs);
    if q >= 1 {
      forall k | 0 <= k < |reqs| ensures Stock(inventario, reqs[k]) >= reqs[k].cantidad {
        Covered(Stock(inventario, reqs[k]), reqs[k].cantidad, 1);
      }
    } else {
      var k :| 0 <= k < |reqs| && q == Stock(inventario, reqs[k]) / reqs[k].cantidad;
      Overdrawn(Stock(inventario, reqs[k]), reqs[k].cantidad, 0);
    }
  }

  // ---------------------------------------------------------------------
  // The quantity picker: `cantidades` maps a dish id to its chosen amount

  function Current(cantidades: map<string, int>, id: string): int {
    if id in cantidades then cantidades[id] else 1
  }

  function MaxInt(a: int, b: int): int {
    if a >= b then a else b
  }

  function MinInt(a: int, b: int): int {
    if a <= b then a else b
  }

  /** `Math.min(Math.max(1, cur), Math.max(1, max))`. */
  function Clamp(cur: int, max: int): (c: int)
    ensures 1 <= c <= MaxInt(1, max)
    ensures 1 <= cur <= MaxInt(1, max) ==> c == cur
  {
    MinInt(MaxInt(1, cur), MaxInt(1, max))
  }

  /** The picker's amount for `id` lies in [1, max(1, max)]. */
  predicate InRange(cantidades: map<string, int>, id: string, max: int) {
    id in cantidades && 1 <= cantidades[id] <= MaxInt(1, max)
  }

  /** `incrementar`: one more, but never above `max` (or 1 when `max` ≤ 0). */
  function Incrementar(cantidades: map<string, int>, id: string, max: int): (r: map<string, int>)
    ensures r.Keys == cantidades.Keys + {id}
    ensures forall other :: other in cantidades && other != id ==> r[other] == cantidades[other]
    ensures r[id] <= (if max > 0 then max else 1)
    ensures Current(cantidades, id) < (if max > 0 then max else 1) ==> r[id] == Current(cantidades, id) + 1
    ensures InRange(cantidades, id, max) ==> InRange(r, id, max)
  {
    cantidades[id := MinInt(if max > 0 then max else 1, Current(cantidades, id) + 1)]
  }

  /** `decrementar`: one fewer, but never below 1. */
  function Decrementar(cantidades: map<string, int>, id: string): (r: map<string, int>)
    ensures r.Keys == cantidades.Keys + {id}
    ensures forall other :: other in cantidades && other != id ==> r[other] == cantidades[other]
    ensures r[id] >= 1
    ensures Current(cantidades, id) > 1 ==> r[id] == Current(cantidades, id) - 1
    ensures forall max :: InRange(cantidades, id, max) ==> InRange(r, id, max)
  {
    cantidades[id := MaxInt(1, Current(cantidades, id) - 1)]
  }

  /** `Math.floor(value || 1)` followed by `Math.max(1, ·)`: NaN and 0 count as 1. */
  function AtLeastOne(value: JsNumber): JsNumber {
    match value
    case NaN => Finite(1.0)
    case Finite(v) =>
      if v == 0.0 then Finite(1.0)
      else if v.Floor >= 1 then Finite(v.Floor as real) else Finite(1.0)
    case PosInfinity => PosInfinity
    case NegInfinity => Finite(1.0)
  }

  /** `onChangeCantidad`: whatever was typed, the stored amount ends up in [1, max(1, max)]. */
  function OnChangeCantidad(cantidades: map<string, int>, id: string, value: JsNumber, max: int): (r: map<string, int>)
    ensures InRange(r, id, max)
    ensures r.Keys == cantidades.Keys + {id}
    ensures forall other :: other in cantidades && other != id ==> r[other] == cantidades[other]
    ensures value.Finite? && value.value != 0.0 && 1 <= value.value.Floor <= MaxInt(1, max) ==>
      r[id] == value.value.Floor
    ensures value.NaN? ==> r[id] == 1
  {
    var low := AtLeastOne(value);
    var clamped := if low.PosInfinity? then MaxInt(1, max) else MinInt(low.value.Floor, MaxInt(1, max));
    cantidades[id := clamped]
  }

  /** Dish `k` is the last one in the list with its id. */
  predicate LastWithId(platos: seq<Plato>, k: int) {
    0 <= k < |platos| && forall j :: k < j < |platos| ==> platos[j].id != platos[k].id
  }

  /**
   * The synchronising effect: every dish's amount is clamped into its new
   * range, taking the previous amount (1 when none); other entries stay.
   * When two dishes share an id, the later one's range wins.
   */
  method SyncCantidades(prev: map<string, int>, platos: seq<Plato>, inventario: seq<PlainIngrediente>)
    returns (next: map<string, int>)
    ensures forall id :: id in next <==> id in prev || exists k :: 0 <= k < |platos| && platos[k].id == id
    ensures forall id :: id in prev && (forall k :: 0 <= k < |platos| ==> platos[k].id != id) ==> next[id] == prev[id]
    ensures forall k :: LastWithId(platos, k) ==>
      next[platos[k].id] == Clamp(Current(prev, platos[k].id), MaxDisponible(platos[k], inventario))
  {
    next := prev;
    for i := 0 to |platos|
      invariant Synced(prev, next, platos[..i], inventario)
    {
      var r := platos[i];
      var max := CalcularMaxDisponible(r, inventario);
      var cur := Current(prev, r.id);
      SyncStep(prev, next, platos[..i], r, inventario);
      assert platos[..i + 1] == platos[..i] + [r];
      next := next[r.id := Clamp(cur, max)];
    }
    assert platos[..|platos|] == platos;
  }

  /** `next` is `prev` after the effect has visited `done`. */
  ghost predicate Synced(prev: map<string, int>, next: map<string, int>, done: seq<Plato>, inventario: seq<PlainIngrediente>) {
    && SyncedKeys(prev, next, done)
    && SyncedUntouched(prev, next, done)
    && SyncedLast(prev, next, done, inventario)
  }

  ghost predicate SyncedKeys(prev: map<string, int>, next: map<string, int>, done: seq<Plato>) {
    forall id :: id in next <==> id in prev || exists k :: 0 <= k < |done| && done[k].id == id
  }

  ghost predicate SyncedUntouched(prev: map<string, int>, next: map<string, int>, done: seq<Plato>)
    requires SyncedKeys(prev, next, done)
  {
    forall id :: id in prev && (forall k :: 0 <= k < |done| ==> done[k].id != id) ==> next[id] == prev[id]
  }

  ghost predicate SyncedLast(prev: map<string, int>, next: map<string, int>, done: seq<Plato>, inventario: seq<PlainIngrediente>)
    requires SyncedKeys(prev, next, done)
  {
    forall k :: LastWithId(done, k) ==>
      next[done[k].id] == Clamp(Current(prev, done[k].id), MaxDisponible(done[k], inventario))
  }

  lemma SyncStep(prev: map<string, int>, next: map<string, int>, done: seq<Plato>, r: Plato, inventario: seq<PlainIngrediente>)
    requires Synced(prev, next, done, inventario)
    ensures Synced(prev, next[r.id := Clamp(Current(prev, r.id), MaxDisponible(r, inventario))], done + [r], inventario)
  {
    var v := Clamp(Current(prev, r.id), MaxDisponible(r, inventario));
    SyncStepKeys(prev, next, done, r, v);
    SyncStepUntouched(prev, next, done, r, v);
    SyncStepLast(prev, next, done, r, inventario);
  }

  lemma SyncStepKeys(prev: map<string, int>, next: map<string, int>, done: seq<Plato>, r: Plato, v: int)
    requires SyncedKeys(prev, next, done)
    ensures SyncedKeys(prev, next[r.id := v], done + [r])
  {
    var next', done' := next[r.id := v], done + [r];
    forall id ensures id in next' <==> id in prev || exists k :: 0 <= k < |done'| && done'[k].id == id {
      if id != r.id && (exists k :: 0 <= k < |done'| && done'[k].id == id) {
        var k :| 0 <= k < |done'| && done'[k].id == id;
        assert k < |done| && done[k].id == id;
      }
      if id == r.id {
        assert done'[|done|].id == id;
      }
      if id != r.id && (exists k :: 0 <= k < |done| && done[k].id == id) {
        var k :| 0 <= k < |done| && done[k].id == id;
        assert done'[k].id == id;
      }
    }
  }

  lemma SyncStepUntouched(prev: map<string, int>, next: map<string, int>, done: seq<Plato>, r: Plato, v: int)
    requires SyncedKeys(prev, next, done) && SyncedUntouched(prev, next, done)
    ensures SyncedKeys(prev, next[r.id := v], done + [r])
    ensures SyncedUntouched(prev, next[r.id := v], done + [r])
  {
    SyncStepKeys(prev, next, done, r, v);
    var next', done' := next[r.id := v], done + [r];
    forall id | id in prev && (forall k :: 0 <= k < |done'| ==> done'[k].id != id) ensures next'[id] == prev[id] {
      assert done'[|done|].id != id;
      forall k | 0 <= k < |done| ensures done[k].id != id {
        assert done'[k] == done[k];
      }
    }
  }

  lemma SyncStepLast(prev: map<string, int>, next: map<string, int>, done: seq<Plato>, r: Plato, inventario: seq<PlainIngrediente>)
    requires SyncedKeys(prev, next, done) && SyncedLast(prev, next, done, inventario)
    ensures var v := Clamp(Current(prev, r.id), MaxDisponible(r, inventario));
      SyncedKeys(prev, next[r.id := v], done + [r]) && SyncedLast(prev, next[r.id := v], done + [r], inventario)
  {
    var v := Clamp(Current(prev, r.id), MaxDisponible(r, inventario));
    SyncStepKeys(prev, next, done, r, v);
    var next', done' := next[r.id := v], done + [r];
    forall k | LastWithId(done', k)
      ensures next'[done'[k].id] == Clamp(Current(prev, done'[k].id), MaxDisponible(done'[k], inventario))
    {
      if k < |done| {
        assert done'[|done|].id != done'[k].id;
        assert done'[k] == done[k];
        forall j | k < j < |done| ensures done[j].id != done[k].id {
          assert done'[j] == done[j];
        }
        assert LastWithId(done, k);
      }
    }
  }

  /** After synchronising, the last dish of each id has its amount in range. */
  lemma SyncInRange(prev: map<string, int>, next: map<string, int>, platos: seq<Plato>, inventario: seq<PlainIngrediente>, k: nat)
    requires LastWithId(platos, k) && platos[k].id in next
    requires next[platos[k].id] == Clamp(Current(prev, platos[k].id), MaxDisponible(platos[k], inventario))
    ensures InRange(next, platos[k].id, MaxDisponible(platos[k], inventario))
  {
  }

  // ---------------------------------------------------------------------
  // The dish filters

  function CategoriaOf(p: Plato): string {
    if p.categoria.Some? then p.categoria.value else ""
  }

  /** The search matches the dish's name, or the name of one of its stocked ingredients. */
  predicate MatchesSearch(p: Plato, b: string, inventario: seq<PlainIngrediente>) {
    || Includes(ToLower(p.nombre), b)
    || (p.ingredientes.Some? &&
        exists k :: 0 <= k < |p.ingredientes.value| &&
          var ing := Find(inventario, p.ingredientes.value[k].ingredienteId);
          ing.Some? && Includes(ToLower(ing.value.nombre), b))
  }

  /** `recetasFiltradas`: the category filter unless "todos", then the search unless blank. */
  function RecetasFiltradas(platos: seq<Plato>, categoriaActiva: string, busqueda: string, inventario: seq<PlainIngrediente>)
    : (r: seq<Plato>)
    ensures SubsequenceOf(r, platos)
    ensures forall p :: p in r <==>
      && p in platos
      && (categoriaActiva != "todos" ==> ToLower(CategoriaOf(p)) == ToLower(categoriaActiva))
      && (Trim(busqueda) != "" ==> MatchesSearch(p, ToLower(busqueda), inventario))
  {
    var b := ToLower(busqueda);
    var enCategoria := (p: Plato) => ToLower(CategoriaOf(p)) == ToLower(categoriaActiva);
    var coincide := (p: Plato) => MatchesSearch(p, b, inventario);
    if categoriaActiva != "todos" && Trim(busqueda) != "" then
      FilterTwiceSubsequence(platos, enCategoria, coincide);
      Filter(Filter(platos, enCategoria), coincide)
    else if categoriaActiva != "todos" then
      FilterSubsequence(platos, enCategoria);
      Filter(platos, enCategoria)
    else if Trim(busqueda) != "" then
      FilterSubsequence(platos, coincide);
      Filter(platos, coincide)
    else
      var todos := (p: Plato) => true;
      FilterAll(platos, todos);
      FilterSubsequence(platos, todos);
      platos
  }

  function LowerCategorias(platos: seq<Plato>): (r: seq<string>)
    ensures |r| == |platos| && forall k :: 0 <= k < |platos| ==> r[k] == ToLower(CategoriaOf(platos[k]))
  {
    seq(|platos|, k requires 0 <= k < |platos| => ToLower(CategoriaOf(platos[k])))
  }

  function NonEmpty(c: string): bool {
    c != ""
  }

  /** The distinct non-empty lowercased categories, ascending. */
  function CategoriasDisponibles(platos: seq<Plato>): (r: seq<string>)
    ensures Distinct(r) && Sorted(r, LexLe)
    ensures forall c :: c in r <==> c != "" && exists k :: 0 <= k < |platos| && ToLower(CategoriaOf(platos[k])) == c
  {
    var lowered := LowerCategorias(platos);
    var kept := Filter(lowered, NonEmpty);
    assert forall c :: c in kept <==> c in lowered && c != "" by {
      forall c | c in lowered && c != "" ensures c in kept {
        var k :| 0 <= k < |lowered| && lowered[k] == c;
      }
      forall c | c in kept ensures c != "" {
        var k :| 0 <= k < |kept| && kept[k] == c;
      }
    }
    SortedDistinct(kept)
  }
}
