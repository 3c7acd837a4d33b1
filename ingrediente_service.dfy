/**
 * The inventory service: the availability check and the deduction loop an
 * order runs, restocking, creation with its business rule, and the reset to
 * the initial stock.
 */
module IngredienteService {
  import opened Wrappers
  import opened Text
  import opened Domain
  import opened Aggregate
  import opened AppErrors
  import opened ErrorHandler
  import opened IngredienteStore

  datatype Availability = Available | Unavailable(missing: string)

  function NotFoundMessage(id: string): string {
    "Ingrediente " + id + " no encontrado"
  }

  function ShortMessage(i: Ingrediente, requerido: int): string {
    i.nombre + " insuficiente (disponible: " + IntToString(i.cantidad) + ", requerido: " + IntToString(requerido) + ")"
  }

  /** A requirement is met when its ingredient exists with at least the required amount. */
  predicate Meets(m: map<string, Ingrediente>, req: RecetaIngrediente, multiplier: int) {
    req.ingredienteId in m && m[req.ingredienteId].cantidad >= req.cantidad * multiplier
  }

  /** The verdict on one requirement that is not met. */
  function Failure(m: map<string, Ingrediente>, req: RecetaIngrediente, multiplier: int): Availability {
    if req.ingredienteId !in m then Unavailable(NotFoundMessage(req.ingredienteId))
    else Unavailable(ShortMessage(m[req.ingredienteId], req.cantidad * multiplier))
  }

  /** The check, requirement by requirement: the first one not met decides. */
  function Check(m: map<string, Ingrediente>, reqs: seq<RecetaIngrediente>, multiplier: int): Availability {
    if |reqs| == 0 then Available
    else if !Meets(m, reqs[0], multiplier) then Failure(m, reqs[0], multiplier)
    else Check(m, reqs[1..], multiplier)
  }

  /** Available exactly when every requirement is met. */
  lemma {:induction false} CheckAvailableIff(m: map<string, Ingrediente>, reqs: seq<RecetaIngrediente>, multiplier: int)
    ensures Check(m, reqs, multiplier) == Available <==> forall k :: 0 <= k < |reqs| ==> Meets(m, reqs[k], multiplier)
  {
    if |reqs| > 0 {
      CheckAvailableIff(m, reqs[1..], multiplier);
      assert forall k :: 1 <= k < |reqs| ==> reqs[k] == reqs[1..][k - 1];
    }
  }

  /** When unavailable, the message is that of the first requirement not met. */
  lemma {:induction false} CheckFirstFailure(m: map<string, Ingrediente>, reqs: seq<RecetaIngrediente>, multiplier: int)
    requires Check(m, reqs, multiplier) != Available
    ensures exists k ::
      && 0 <= k < |reqs|
      && (forall j :: 0 <= j < k ==> Meets(m, reqs[j], multiplier))
      && !Meets(m, reqs[k], multiplier)
      && Check(m, reqs, multiplier) == Failure(m, reqs[k], multiplier)
  {
    if Meets(m, reqs[0], multiplier) {
      CheckFirstFailure(m, reqs[1..], multiplier);
      var k :| 0 <= k < |reqs| - 1
        && (forall j :: 0 <= j < k ==> Meets(m, reqs[1..][j], multiplier))
        && !Meets(m, reqs[1..][k], multiplier)
        && Check(m, reqs[1..], multiplier) == Failure(m, reqs[1..][k], multiplier);
      assert forall j :: 1 <= j < k + 1 ==> reqs[j] == reqs[1..][j - 1];
      assert reqs[k + 1] == reqs[1..][k];
    } else {
      assert !Meets(m, reqs[0], multiplier);
    }
  }

  /** `checkAvailability`: reads the ledger one requirement at a time and changes nothing. */
  method CheckAvailability(repo: IngredienteRepository, reqs: seq<RecetaIngrediente>, multiplier: int := 1)
    returns (r: Availability)
    requires repo.Valid()
    ensures r == Check(repo.items, reqs, multiplier)
  {
    var i := 0;
    while i < |reqs|
      invariant 0 <= i <= |reqs|
      invariant Check(repo.items, reqs, multiplier) == Check(repo.items, reqs[i..], multiplier)
    {
      var req := reqs[i];
      assert reqs[i..][1..] == reqs[i + 1..];
      var found := repo.FindById(req.ingredienteId);
      if found.None? {
        return Unavailable(NotFoundMessage(req.ingredienteId));
      }
      var requerido := req.cantidad * multiplier;
      if found.value.cantidad < requerido {
        return Unavailable(ShortMessage(found.value, requerido));
      }
      i := i + 1;
    }
    return Available;
  }

  /** How much the deduction of `reqs` takes from `id`: per-unit × multiplier, once per occurrence. */
  function Requested(reqs: seq<RecetaIngrediente>, id: string, multiplier: int): int {
    if |reqs| == 0 then 0
    else
      var last := reqs[|reqs| - 1];
      Requested(reqs[..|reqs| - 1], id, multiplier) + (if last.ingredienteId == id then last.cantidad * multiplier else 0)
  }

  /** The ledger after the deduction loop: one `$inc` per requirement, in list order. */
  function Deducted(m: map<string, Ingrediente>, reqs: seq<RecetaIngrediente>, multiplier: int): (r: map<string, Ingrediente>)
    ensures r.Keys == m.Keys
  {
    if |reqs| == 0 then m
    else
      var last := reqs[|reqs| - 1];
      Bumped(Deducted(m, reqs[..|reqs| - 1], multiplier), last.ingredienteId, -(last.cantidad * multiplier))
  }

  /**
   * The deduction lowers each stored ingredient by exactly what the list
   * requests of it and changes nothing else.
   */
  lemma {:induction false} DeductedExactly(m: map<string, Ingrediente>, reqs: seq<RecetaIngrediente>, multiplier: int)
    ensures Deducted(m, reqs, multiplier).Keys == m.Keys
    ensures forall id :: id in m ==>
      Deducted(m, reqs, multiplier)[id] == m[id].(cantidad := m[id].cantidad - Requested(reqs, id, multiplier))
  {
    if |reqs| > 0 {
      DeductedExactly(m, reqs[..|reqs| - 1], multiplier);
    }
  }

  /** An id the list never names is requested nothing. */
  lemma {:induction false} RequestedUnlisted(reqs: seq<RecetaIngrediente>, id: string, multiplier: int)
    requires forall k :: 0 <= k < |reqs| ==> reqs[k].ingredienteId != id
    ensures Requested(reqs, id, multiplier) == 0
  {
    if |reqs| > 0 {
      RequestedUnlisted(reqs[..|reqs| - 1], id, multiplier);
    }
  }

  /** An id the list names once is requested that one amount. */
  lemma {:induction false} RequestedOnce(reqs: seq<RecetaIngrediente>, k: nat, multiplier: int)
    requires k < |reqs|
    requires forall j :: 0 <= j < |reqs| && j != k ==> reqs[j].ingredienteId != reqs[k].ingredienteId
    ensures Requested(reqs, reqs[k].ingredienteId, multiplier) == reqs[k].cantidad * multiplier
  {
    var init := reqs[..|reqs| - 1];
    if k == |reqs| - 1 {
      RequestedUnlisted(init, reqs[k].ingredienteId, multiplier);
    } else {
      assert init[k] == reqs[k];
      RequestedOnce(init, k, multiplier);
    }
  }

  /** `deductIngredientes`: one unconditional decrement per requirement. */
  method DeductIngredientes(repo: IngredienteRepository, reqs: seq<RecetaIngrediente>, multiplier: int := 1)
    requires repo.Valid()
    modifies repo
    ensures repo.Valid() && repo.order == old(repo.order)
    ensures repo.items == Deducted(old(repo.items), reqs, multiplier)
  {
    var i := 0;
    while i < |reqs|
      invariant 0 <= i <= |reqs|
      invariant repo.Valid() && repo.order == old(repo.order)
      invariant repo.items == Deducted(old(repo.items), reqs[..i], multiplier)
    {
      assert reqs[..i + 1][..i] == reqs[..i];
      var cantidadADescontar := reqs[i].cantidad * multiplier;
      var _ := repo.DecrementQuantity(reqs[i].ingredienteId, cantidadADescontar);
      i := i + 1;
    }
    assert reqs[..|reqs|] == reqs;
  }

  /** Requirement ids are pairwise distinct. */
  predicate DistinctIds(reqs: seq<RecetaIngrediente>) {
    forall i, j :: 0 <= i < j < |reqs| ==> reqs[i].ingredienteId != reqs[j].ingredienteId
  }

  /**
   * With distinct ids, a deduction that passed the check leaves no stock
   * negative that was not negative before.
   */
  lemma NoNegativeStock(m: map<string, Ingrediente>, reqs: seq<RecetaIngrediente>, multiplier: int)
    requires DistinctIds(reqs)
    requires Check(m, reqs, multiplier) == Available
    ensures forall id :: id in m && m[id].cantidad >= 0 ==> Deducted(m, reqs, multiplier)[id].cantidad >= 0
  {
    CheckAvailableIff(m, reqs, multiplier);
    DeductedExactly(m, reqs, multiplier);
    forall id | id in m && m[id].cantidad >= 0
      ensures Deducted(m, reqs, multiplier)[id].cantidad >= 0
    {
      if k :| 0 <= k < |reqs| && reqs[k].ingredienteId == id {
        RequestedOnce(reqs, k, multiplier);
        assert Meets(m, reqs[k], multiplier);
      } else {
        RequestedUnlisted(reqs, id, multiplier);
      }
    }
  }

  /** A recipe naming one ingredient twice passes the check and still drives the stock below zero. */
  lemma DuplicateIdsGoNegative()
    ensures var m := map["1" := Ingrediente("1", "Pan", 5, "unidades", 1, None)];
      var reqs := [RecetaIngrediente("1", 3), RecetaIngrediente("1", 3)];
      Check(m, reqs, 1) == Available && Deducted(m, reqs, 1)["1"].cantidad == -1
  {
    var m := map["1" := Ingrediente("1", "Pan", 5, "unidades", 1, None)];
    var reqs := [RecetaIngrediente("1", 3), RecetaIngrediente("1", 3)];
    assert reqs[1..][1..] == [];
    assert reqs[..1][..0] == [];
    assert reqs[..1] == [RecetaIngrediente("1", 3)];
  }

  /** `restockIngrediente`. */
  method RestockIngrediente(repo: IngredienteRepository, id: string, cantidad: int) returns (r: Result<Ingrediente, Thrown>)
    requires repo.Valid()
    modifies repo
    ensures repo.Valid() && repo.order == old(repo.order)
    ensures id !in old(repo.items) ==>
      r == Err(App(NotFoundError(IngredienteNotFound))) && repo.items == old(repo.items)
    ensures id in old(repo.items) ==>
      && repo.items == old(repo.items)[id := old(repo.items)[id].(cantidad := old(repo.items)[id].cantidad + cantidad)]
      && r == Ok(repo.items[id])
  {
    var found := repo.FindById(id);
    if found.None? {
      return Err(App(NotFoundError(IngredienteNotFound)));
    }
    var updated := repo.IncrementQuantity(id, cantidad);
    if updated.None? {
      return Err(App(Internal(IngredienteUpdateError)));
    }
    return Ok(updated.value);
  }

  /**
   * `updateIngrediente`: an unknown id is a 404; a rename onto another
   * ingredient's id is the unique index's error, which reaches the error
   * handler as an unrecognised error; otherwise only that record takes the
   * patch, under its new id if it has one.
   */
  method UpdateIngrediente(repo: IngredienteRepository, id: string, patch: IngredientePatch) returns (r: Result<Ingrediente, Thrown>)
    requires repo.Valid()
    modifies repo
    ensures repo.Valid()
    ensures id !in old(repo.items) ==>
      r == Err(App(NotFoundError(IngredienteNotFound))) && repo.items == old(repo.items) && repo.order == old(repo.order)
    ensures id in old(repo.items) ==>
      var u := Patched(old(repo.items)[id], patch);
      if u.id != id && u.id in old(repo.items) then
        r == Err(Generic(None)) && repo.items == old(repo.items) && repo.order == old(repo.order)
      else
        && r == Ok(u)
        && repo.items == (old(repo.items) - {id})[u.id := u]
        && repo.order == Renamed(old(repo.order), id, u.id)
    ensures id in old(repo.items) && patch.id.GetOr(id) == id ==>
      && r == Ok(Patched(old(repo.items)[id], patch))
      && repo.items == old(repo.items)[id := Patched(old(repo.items)[id], patch)]
      && repo.order == old(repo.order)
  {
    var found := repo.FindById(id);
    if found.None? {
      return Err(App(NotFoundError(IngredienteNotFound)));
    }
    var updated := repo.Update(id, patch);
    if updated.Err? {
      return Err(Generic(None));
    }
    if updated.value.None? {
      return Err(App(Internal(IngredienteUpdateError)));
    }
    return Ok(updated.value.value);
  }

  /** `createIngrediente`: a taken id first, then the stock-below-minimum rule; nothing stored on failure. */
  method CreateIngrediente(repo: IngredienteRepository, data: Ingrediente) returns (r: Result<Ingrediente, Thrown>)
    requires repo.Valid()
    modifies repo
    ensures repo.Valid()
    ensures data.id in old(repo.items) ==>
      && r == Err(App(BadRequest(IngredienteCreateError, Some("Ya existe un ingrediente con ID " + data.id))))
      && repo.items == old(repo.items) && repo.order == old(repo.order)
    ensures data.id !in old(repo.items) && data.cantidad < data.minimo ==>
      && r == Err(App(BadRequest(ValidationError, Some("La cantidad inicial debe ser mayor o igual al mínimo"))))
      && repo.items == old(repo.items) && repo.order == old(repo.order)
    ensures data.id !in old(repo.items) && data.cantidad >= data.minimo ==>
      && r == Ok(data)
      && repo.items == old(repo.items)[data.id := data] && repo.order == old(repo.order) + [data.id]
  {
    var existing := repo.FindById(data.id);
    if existing.Some? {
      return Err(App(BadRequest(IngredienteCreateError, Some("Ya existe un ingrediente con ID " + data.id))));
    }
    if data.cantidad < data.minimo {
      return Err(App(BadRequest(ValidationError, Some("La cantidad inicial debe ser mayor o igual al mínimo"))));
    }
    var created := repo.Create(data);
    match created
    case Ok(v) => return Ok(v);
    case Err(_) => return Err(Generic(None));
  }

  /** The stock levels `resetAllIngredientes` restores. */
  const InitialStock: seq<(string, int)> := [
    ("1", 50), ("2", 30), ("3", 40), ("4", 35), ("5", 45), ("6", 100),
    ("7", 2000), ("8", 25), ("9", 30), ("10", 20), ("11", 15)]

  /** The ledger after one `resetQuantity` per table entry, in table order. */
  function Reset(m: map<string, Ingrediente>, table: seq<(string, int)>): (r: map<string, Ingrediente>)
    ensures r.Keys == m.Keys
  {
    if |table| == 0 then m
    else
      var prev := Reset(m, table[..|table| - 1]);
      var (id, c) := table[|table| - 1];
      if id in prev then prev[id := prev[id].(cantidad := c)] else prev
  }

  /** After the reset, every listed stored id holds its listed stock; everything else is as it was. */
  lemma {:induction false} ResetValues(m: map<string, Ingrediente>, table: seq<(string, int)>)
    requires forall i, j :: 0 <= i < j < |table| ==> table[i].0 != table[j].0
    ensures forall k :: 0 <= k < |table| && table[k].0 in m ==>
      Reset(m, table)[table[k].0] == m[table[k].0].(cantidad := table[k].1)
    ensures forall id :: id in m && (forall k :: 0 <= k < |table| ==> table[k].0 != id) ==>
      Reset(m, table)[id] == m[id]
  {
    if |table| > 0 {
      var init := table[..|table| - 1];
      ResetValues(m, init);
      assert forall k :: 0 <= k < |init| ==> init[k] == table[k];
    }
  }

  lemma InitialStockValues(m: map<string, Ingrediente>)
    ensures forall k :: 0 <= k < |InitialStock| && InitialStock[k].0 in m ==>
      Reset(m, InitialStock)[InitialStock[k].0].cantidad == InitialStock[k].1
    ensures "7" in m ==> Reset(m, InitialStock)["7"].cantidad == 2000
  {
    ResetValues(m, InitialStock);
    assert InitialStock[6] == ("7", 2000);
  }

  /** `resetAllIngredientes`: resets the listed ids one by one and returns the whole ledger. */
  method ResetAllIngredientes(repo: IngredienteRepository) returns (r: seq<Ingrediente>)
    requires repo.Valid()
    modifies repo
    ensures repo.Valid() && repo.order == old(repo.order)
    ensures repo.items == Reset(old(repo.items), InitialStock)
    ensures r == repo.FindAll()
  {
    var i := 0;
    while i < |InitialStock|
      invariant 0 <= i <= |InitialStock|
      invariant repo.Valid() && repo.order == old(repo.order)
      invariant repo.items == Reset(old(repo.items), InitialStock[..i])
    {
      assert InitialStock[..i + 1][..i] == InitialStock[..i];
      var (id, c) := InitialStock[i];
      var _ := repo.ResetQuantity(id, c);
      i := i + 1;
    }
    assert InitialStock[..|InitialStock|] == InitialStock;
    r := repo.FindAll();
  }
}
