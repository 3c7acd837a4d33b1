/**
 * The recipe service: lookup with its not-found error, and recipe creation
 * with its checks in order (a taken id, ingredients that do not resolve, a
 * non-positive amount) before anything is stored.
 */
module RecetaService {
  import opened Wrappers
  import opened Text
  import opened Domain
  import opened Aggregate
  import opened AppErrors
  import opened ErrorHandler
  import opened IngredienteStore
  import opened RecetaStore

  /** `getRecetaById`. */
  function GetRecetaById(repo: RecetaRepository, id: string): (r: Result<Receta, Thrown>)
    reads repo
    requires repo.Valid()
    ensures id in repo.items <==> r.Ok?
    ensures r.Ok? ==> r.value == repo.items[id] && r.value.id == id
    ensures r.Err? ==> r.error == App(NotFoundError(RecetaNotFound)) && r.error.err.statusCode == 404
  {
    match repo.FindById(id)
    case Some(receta) => Ok(receta)
    case None => Err(App(NotFoundError(RecetaNotFound)))
  }

  function RequirementIds(reqs: seq<RecetaIngrediente>): (ids: seq<string>)
    ensures |ids| == |reqs|
    ensures forall k :: 0 <= k < |reqs| ==> ids[k] == reqs[k].ingredienteId
  {
    seq(|reqs|, k requires 0 <= k < |reqs| => reqs[k].ingredienteId)
  }

  function FoundIds(found: seq<Ingrediente>): (ids: seq<string>)
    ensures |ids| == |found|
    ensures forall k :: 0 <= k < |found| ==> ids[k] == found[k].id
  {
    seq(|found|, k requires 0 <= k < |found| => found[k].id)
  }

  /** The requested ids that the lookup did not return, in request order. */
  function MissingIds(ids: seq<string>, found: seq<Ingrediente>): (r: seq<string>)
    ensures SubsequenceOf(r, ids)
    ensures forall id :: id in r <==> id in ids && id !in FoundIds(found)
    ensures r == [] <==> forall k :: 0 <= k < |ids| ==> ids[k] in FoundIds(found)
  {
    var fids := FoundIds(found);
    var unfound := (id: string) => id !in fids;
    FilterSubsequence(ids, unfound);
    var r := Filter(ids, unfound);
    assert r != [] ==> r[0] in r;
    r
  }

  /** The position of the first requirement whose amount is not positive. */
  function FirstNonPositive(reqs: seq<RecetaIngrediente>): (r: Option<nat>)
    ensures r.None? <==> forall k :: 0 <= k < |reqs| ==> reqs[k].cantidad > 0
    ensures r.Some? ==>
      && r.value < |reqs| && reqs[r.value].cantidad <= 0
      && forall j :: 0 <= j < r.value ==> reqs[j].cantidad > 0
  {
    if |reqs| == 0 then None
    else if reqs[0].cantidad <= 0 then Some(0)
    else
      var rest := FirstNonPositive(reqs[1..]);
      assert forall k :: 1 <= k < |reqs| ==> reqs[k] == reqs[1..][k - 1];
      if rest.None? then None else Some(rest.value + 1)
  }

  function DuplicateMessage(id: string): string {
    "Ya existe una receta con ID " + id
  }

  function MissingMessage(missing: seq<string>): string {
    "Ingredientes no encontrados: " + Join(missing, ", ")
  }

  function AmountMessage(id: string): string {
    "La cantidad del ingrediente " + id + " debe ser mayor a 0"
  }

  /** The error `createReceta` throws, or none when the recipe is stored. */
  function CreateVerdict(repo: RecetaRepository, ingRepo: IngredienteRepository, data: Receta): Option<AppError>
    reads repo, ingRepo
    requires repo.Valid() && ingRepo.Valid()
  {
    if data.id in repo.items then Some(BadRequest(RecetaCreateError, Some(DuplicateMessage(data.id))))
    else
      var ids := RequirementIds(data.ingredientes);
      var found := ingRepo.FindByIds(ids);
      if |found| != |ids| then Some(BadRequest(RecetaCreateError, Some(MissingMessage(MissingIds(ids, found)))))
      else match FirstNonPositive(data.ingredientes)
        case Some(k) => Some(BadRequest(ValidationError, Some(AmountMessage(data.ingredientes[k].ingredienteId))))
        case None => None
  }

  /** `createReceta`. */
  method CreateReceta(repo: RecetaRepository, ingRepo: IngredienteRepository, data: Receta)
    returns (r: Result<Receta, Thrown>)
    requires repo.Valid() && ingRepo.Valid()
    modifies repo
    ensures repo.Valid()
    ensures var v := old(CreateVerdict(repo, ingRepo, data));
      && (v.Some? ==> r == Err(App(v.value)) && repo.items == old(repo.items) && repo.order == old(repo.order))
      && (v.None? ==> r == Ok(data) && repo.items == old(repo.items)[data.id := data] && repo.order == old(repo.order) + [data.id])
  {
    ghost var v := CreateVerdict(repo, ingRepo, data);
    var existing := repo.FindById(data.id);
    if existing.Some? {
      return Err(App(BadRequest(RecetaCreateError, Some(DuplicateMessage(data.id)))));
    }
    var ids := RequirementIds(data.ingredientes);
    var found := ingRepo.FindByIds(ids);
    if |found| != |ids| {
      return Err(App(BadRequest(RecetaCreateError, Some(MissingMessage(MissingIds(ids, found))))));
    }
    var bad := FindNonPositive(data.ingredientes);
    if bad.Some? {
      return Err(App(BadRequest(ValidationError, Some(AmountMessage(data.ingredientes[bad.value].ingredienteId)))));
    }
    assert v.None?;
    var created := repo.Create(data);
    match created
    case Ok(c) => return Ok(c);
    case Err(_) => return Err(Generic(None));
  }

  /** The amount loop of `createReceta`: stops at the first requirement whose amount is not positive. */
  method FindNonPositive(reqs: seq<RecetaIngrediente>) returns (r: Option<nat>)
    ensures r == FirstNonPositive(reqs)
  {
    var i := 0;
    while i < |reqs|
      invariant 0 <= i <= |reqs|
      invariant forall j :: 0 <= j < i ==> reqs[j].cantidad > 0
    {
      if reqs[i].cantidad <= 0 {
        FirstNonPositiveUnique(reqs, i);
        return Some(i);
      }
      i := i + 1;
    }
    return None;
  }

  /** The position found is the only one the lemma allows. */
  lemma FirstNonPositiveUnique(reqs: seq<RecetaIngrediente>, i: nat)
    requires i < |reqs| && reqs[i].cantidad <= 0
    requires forall j :: 0 <= j < i ==> reqs[j].cantidad > 0
    ensures FirstNonPositive(reqs) == Some(i)
  {
  }

  /**
   * A recipe is stored exactly when its id is free, its ingredient ids are
   * distinct and all stored, and every amount is positive.
   */
  lemma AcceptedIff(repo: RecetaRepository, ingRepo: IngredienteRepository, data: Receta)
    requires repo.Valid() && ingRepo.Valid()
    ensures CreateVerdict(repo, ingRepo, data).None? <==>
      && data.id !in repo.items
      && Distinct(RequirementIds(data.ingredientes))
      && (forall k :: 0 <= k < |data.ingredientes| ==> data.ingredientes[k].ingredienteId in ingRepo.items)
      && (forall k :: 0 <= k < |data.ingredientes| ==> data.ingredientes[k].cantidad > 0)
  {
    var ids := RequirementIds(data.ingredientes);
    var found := ingRepo.FindByIds(ids);
    ingRepo.FindByIdsCount(ids);
    assert (forall id :: id in ids ==> id in ingRepo.items)
       <==> (forall k :: 0 <= k < |data.ingredientes| ==> data.ingredientes[k].ingredienteId in ingRepo.items) by {
      forall id | id in ids && (forall k :: 0 <= k < |data.ingredientes| ==> data.ingredientes[k].ingredienteId in ingRepo.items)
        ensures id in ingRepo.items
      {
        var k :| 0 <= k < |ids| && ids[k] == id;
      }
    }
    assert CreateVerdict(repo, ingRepo, data).None? <==>
      data.id !in repo.items && |found| == |ids| && FirstNonPositive(data.ingredientes).None?;
  }

  /**
   * A recipe listing one stored ingredient twice is refused by the count
   * check, although no id is missing: the message lists no ids.
   */
  lemma RepeatedIdRejected(repo: RecetaRepository, ingRepo: IngredienteRepository, data: Receta)
    requires repo.Valid() && ingRepo.Valid()
    requires data.id !in repo.items
    requires !Distinct(RequirementIds(data.ingredientes))
    requires forall k :: 0 <= k < |data.ingredientes| ==> data.ingredientes[k].ingredienteId in ingRepo.items
    ensures CreateVerdict(repo, ingRepo, data) == Some(BadRequest(RecetaCreateError, Some("Ingredientes no encontrados: ")))
  {
    var ids := RequirementIds(data.ingredientes);
    var found := ingRepo.FindByIds(ids);
    ingRepo.FindByIdsCount(ids);
    assert |found| != |ids|;
    NoneMissing(ingRepo, ids);
    assert CreateVerdict(repo, ingRepo, data) == Some(BadRequest(RecetaCreateError, Some(MissingMessage(MissingIds(ids, found)))));
    assert MissingMessage([]) == "Ingredientes no encontrados: ";
  }

  lemma NoneMissing(ingRepo: IngredienteRepository, ids: seq<string>)
    requires ingRepo.Valid()
    requires forall k :: 0 <= k < |ids| ==> ids[k] in ingRepo.items
    ensures MissingIds(ids, ingRepo.FindByIds(ids)) == []
  {
    MissingAreUnstored(ingRepo, ids);
  }

  /** The listed ids are exactly the requested ids that are not stored. */
  lemma MissingAreUnstored(ingRepo: IngredienteRepository, ids: seq<string>)
    requires ingRepo.Valid()
    ensures forall id :: id in MissingIds(ids, ingRepo.FindByIds(ids)) <==> id in ids && id !in ingRepo.items
  {
    var found := ingRepo.FindByIds(ids);
    var foundIds := FoundIds(found);
    forall id | id in ids ensures id in foundIds <==> id in ingRepo.items {
      if id in ingRepo.items {
        var x := ingRepo.items[id];
        assert x in found;
        var m :| 0 <= m < |found| && found[m] == x;
        assert foundIds[m] == id;
      }
      if id in foundIds {
        var m :| 0 <= m < |foundIds| && foundIds[m] == id;
        assert found[m] in found;
      }
    }
  }
}
