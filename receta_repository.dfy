/** The recipe catalogue, keyed by the unique recipe `id`. */
module RecetaStore {
  import opened Wrappers
  import opened Domain
  import opened Aggregate

  /**
   * A partial update of a recipe: each present field replaces the stored
   * one. The body may carry an `id`, which renames the document.
   */
  datatype RecetaPatch = RecetaPatch(
    id: Option<string>,
    nombre: Option<string>,
    ingredientes: Option<seq<RecetaIngrediente>>,
    precio: Option<real>,
    categoria: Option<string>)

  function Patched(r: Receta, p: RecetaPatch): (u: Receta)
    ensures u.id == p.id.GetOr(r.id)
    ensures u.nombre == p.nombre.GetOr(r.nombre) && u.ingredientes == p.ingredientes.GetOr(r.ingredientes)
    ensures u.precio == p.precio.GetOr(r.precio) && u.categoria == p.categoria.GetOr(r.categoria)
  {
    Receta(p.id.GetOr(r.id), p.nombre.GetOr(r.nombre), p.ingredientes.GetOr(r.ingredientes), p.precio.GetOr(r.precio),
           p.categoria.GetOr(r.categoria))
  }

  class RecetaRepository {
    var items: map<string, Receta>
    var order: seq<string>

    ghost predicate Valid()
      reads this
    {
      && Distinct(order)
      && (forall id :: id in items <==> id in order)
      && (forall k :: 0 <= k < |order| ==> order[k] in items)
      && (forall id :: id in items ==> items[id].id == id)
    }

    constructor()
      ensures Valid() && items == map[] && order == []
    {
      items := map[];
      order := [];
    }

    /** `find()`: every document, in collection order. */
    function FindAll(): (r: seq<Receta>)
      reads this
      requires Valid()
      ensures |r| == |order|
      ensures forall k :: 0 <= k < |r| ==> r[k] == items[order[k]]
      ensures forall x: Receta :: x in r <==> x.id in items && items[x.id] == x
      ensures forall i, j :: 0 <= i < j < |r| ==> r[i].id != r[j].id
    {
      var r := seq(|order|, k requires 0 <= k < |order| && order[k] in items reads this => items[order[k]]);
      assert forall x: Receta :: x.id in items && items[x.id] == x ==> x in r by {
        forall x: Receta | x.id in items && items[x.id] == x ensures x in r {
          var k :| 0 <= k < |order| && order[k] == x.id;
          assert r[k] == x;
        }
      }
      r
    }

    /**
     * `findOne({id})`. The recipes are a collection of their own, so this
     * is the same keyed lookup as the ingredient ledger's, on other records.
     */
    function FindById(id: string): (r: Option<Receta>)
      reads this
      requires Valid()
      ensures r.Some? <==> id in items
      ensures r.Some? ==> r.value == items[id] && r.value.id == id
    {
      if id in items then Some(items[id]) else None
    }

    /** `find({categoria})`: exact, case-sensitive match, in collection order. */
    function FindByCategory(categoria: string): (r: seq<Receta>)
      reads this
      requires Valid()
      ensures forall x: Receta :: x in r <==> x in FindAll() && x.categoria == categoria
      ensures SubsequenceOf(r, FindAll())
    {
      FilterSubsequence(FindAll(), (x: Receta) => x.categoria == categoria);
      Filter(FindAll(), (x: Receta) => x.categoria == categoria)
    }

    /** `save()` of a new recipe; the unique index refuses a taken id. */
    method Create(data: Receta) returns (r: Result<Receta, StoreError>)
      requires Valid()
      modifies this
      ensures Valid()
      ensures old(data.id in items) ==> r == Err(DuplicateKey(data.id)) && items == old(items) && order == old(order)
      ensures old(data.id !in items) ==>
        && r == Ok(data) && items == old(items)[data.id := data] && order == old(order) + [data.id]
        && FindById(data.id) == Some(data)
    {
      if data.id in items {
        return Err(DuplicateKey(data.id));
      }
      items := items[data.id := data];
      order := order + [data.id];
      return Ok(data);
    }

    /**
     * `findOneAndUpdate({id}, data, {new: true})`. A patch whose `id` belongs
     * to another recipe is refused by the unique index; otherwise the recipe
     * takes the patch in place, under its new id if it has one.
     */
    method Update(id: string, patch: RecetaPatch) returns (r: Result<Option<Receta>, StoreError>)
      requires Valid()
      modifies this
      ensures Valid()
      ensures old(id !in items) ==> r == Ok(None) && items == old(items) && order == old(order)
      ensures old(id in items) ==>
        var u := Patched(old(items)[id], patch);
        if u.id != id && u.id in old(items) then
          r == Err(DuplicateKey(u.id)) && items == old(items) && order == old(order)
        else
          && r == Ok(Some(u))
          && items == (old(items) - {id})[u.id := u]
          && order == Renamed(old(order), id, u.id)
      ensures old(id in items) && patch.id.GetOr(id) == id ==>
        r == Ok(Some(Patched(old(items)[id], patch)))
        && items == old(items)[id := Patched(old(items)[id], patch)] && order == old(order)
    {
      if id !in items {
        return Ok(None);
      }
      var updated := Patched(items[id], patch);
      if updated.id != id && updated.id in items {
        return Err(DuplicateKey(updated.id));
      }
      assert order == Renamed(order, id, id);
      items := (items - {id})[updated.id := updated];
      order := Renamed(order, id, updated.id);
      return Ok(Some(updated));
    }
  }
}
