/**
 * The ingredient ledger: the inventory collection keyed by the unique `id`,
 * with the collection's natural (insertion) order for listing queries.
 */
module IngredienteStore {
  import opened Wrappers
  import opened Domain
  import opened Aggregate

  /**
   * A partial update: each present field replaces the stored one. The body
   * may carry an `id`, which renames the document.
   */
  datatype IngredientePatch = IngredientePatch(
    id: Option<string>,
    nombre: Option<string>,
    cantidad: Option<int>,
    unidad: Option<string>,
    minimo: Option<int>,
    categoria: Option<string>)

  function Patched(i: Ingrediente, p: IngredientePatch): (r: Ingrediente)
    ensures r.id == p.id.GetOr(i.id)
    ensures r.nombre == p.nombre.GetOr(i.nombre) && r.cantidad == p.cantidad.GetOr(i.cantidad)
    ensures r.unidad == p.unidad.GetOr(i.unidad) && r.minimo == p.minimo.GetOr(i.minimo)
    ensures r.categoria == if p.categoria.Some? then p.categoria else i.categoria
  {
    Ingrediente(p.id.GetOr(i.id), p.nombre.GetOr(i.nombre), p.cantidad.GetOr(i.cantidad), p.unidad.GetOr(i.unidad),
                p.minimo.GetOr(i.minimo), if p.categoria.Some? then p.categoria else i.categoria)
  }

  /** The ledger after `$inc: {cantidad: delta}` on `id`; other entries are untouched. */
  function Bumped(m: map<string, Ingrediente>, id: string, delta: int): (r: map<string, Ingrediente>)
    ensures r.Keys == m.Keys
    ensures forall k :: k in m && k != id ==> r[k] == m[k]
    ensures id in m ==> r[id] == m[id].(cantidad := m[id].cantidad + delta)
  {
    if id in m then m[id := m[id].(cantidad := m[id].cantidad + delta)] else m
  }

  /** Adding and then removing the same amount restores the ledger. */
  lemma IncrementDecrementRoundTrip(m: map<string, Ingrediente>, id: string, c: int)
    ensures Bumped(Bumped(m, id, c), id, -c) == m
  {
    if id in m {
      assert Bumped(Bumped(m, id, c), id, -c)[id] == m[id];
    }
  }

  /** Two `$inc` updates on one entry add up. */
  lemma BumpedTwice(m: map<string, Ingrediente>, id: string, a: int, b: int)
    ensures Bumped(Bumped(m, id, a), id, b) == Bumped(m, id, a + b)
  {
  }

  function IdOf(i: Ingrediente): string {
    i.id
  }

  class IngredienteRepository {
    var items: map<string, Ingrediente>
    var order: seq<string>

    ghost predicate Valid()
      reads this
    {
      && Distinct(order)
      && (forall id :: id in items <==> id in order)
      && (forall k :: 0 <= k < |order| ==> order[k] in items)
      && (forall id :: id in items ==> items[id].id == id)
    }

    constructor()
      ensures Valid() && items == map[] && order == []
    {
      items := map[];
      order := [];
    }

    /** `find()`: every document, in collection order. */
    function FindAll(): (r: seq<Ingrediente>)
      reads this
      requires Valid()
      ensures |r| == |order|
      ensures forall k :: 0 <= k < |r| ==> r[k] == items[order[k]]
      ensures forall x: Ingrediente :: x in r <==> x.id in items && items[x.id] == x
      ensures forall i, j :: 0 <= i < j < |r| ==> r[i].id != r[j].id
    {
      var r := seq(|order|, k requires 0 <= k < |order| && order[k] in items reads this => items[order[k]]);
      assert forall x: Ingrediente :: x.id in items && items[x.id] == x ==> x in r by {
        forall x: Ingrediente | x.id in items && items[x.id] == x ensures x in r {
          var k :| 0 <= k < |order| && order[k] == x.id;
          assert r[k] == x;
        }
      }
      r
    }

    /** `findOne({id})`. */
    function FindById(id: string): (r: Option<Ingrediente>)
      reads this
      requires Valid()
      ensures r.Some? <==> id in items
      ensures r.Some? ==> r.value == items[id] && r.value.id == id
    {
      if id in items then Some(items[id]) else None
    }

    /** `find({id: {$in: ids}})`: each matching document once, in collection order. */
    function FindByIds(ids: seq<string>): (r: seq<Ingrediente>)
      reads this
      requires Valid()
      ensures forall x: Ingrediente :: x in r <==> x.id in ids && x.id in items && items[x.id] == x
      ensures forall i, j :: 0 <= i < j < |r| ==> r[i].id != r[j].id
      ensures SubsequenceOf(r, FindAll())
    {
      var all := FindAll();
      var r := Filter(all, (x: Ingrediente) => x.id in ids);
      FilterKeepsKeysDistinct(all, (x: Ingrediente) => x.id in ids, IdOf);
      FilterSubsequence(all, (x: Ingrediente) => x.id in ids);
      r
    }

    /**
     * The result has one document per requested id exactly when the ids are
     * distinct and all stored.
     */
    lemma FindByIdsCount(ids: seq<string>)
      requires Valid()
      ensures |FindByIds(ids)| == |ids| <==> Distinct(ids) && forall id :: id in ids ==> id in items
    {
      var r := FindByIds(ids);
      var found := set x | x in r :: x.id;
      FoundIds(ids);
      FoundSize(r, found);
      CountArgument(found, ids, items.Keys);
    }

    lemma FoundIds(ids: seq<string>)
      requires Valid()
      ensures (set x | x in FindByIds(ids) :: x.id) == ToSet(ids) * items.Keys
    {
      var r := FindByIds(ids);
      forall id | id in ToSet(ids) * items.Keys ensures id in set x | x in r :: x.id {
        assert items[id] in r;
      }
    }

    /** `find({$expr: {$lte: ['$cantidad', '$minimo']}})`. */
    function FindLowStock(): (r: seq<Ingrediente>)
      reads this
      requires Valid()
      ensures forall x: Ingrediente :: x in r <==> x in FindAll() && IsLowStock(x)
      ensures SubsequenceOf(r, FindAll())
    {
      FilterSubsequence(FindAll(), IsLowStock);
      Filter(FindAll(), IsLowStock)
    }

    /** `save()` of a new document; the unique index refuses a taken id. */
    method Create(data: Ingrediente) returns (r: Result<Ingrediente, StoreError>)
      requires Valid()
      modifies this
      ensures Valid()
      ensures old(data.id in items) ==> r == Err(DuplicateKey(data.id)) && items == old(items) && order == old(order)
      ensures old(data.id !in items) ==>
        r == Ok(data) && items == old(items)[data.id := data] && order == old(order) + [data.id]
    {
      if data.id in items {
        return Err(DuplicateKey(data.id));
      }
      items := items[data.id := data];
      order := order + [data.id];
      return Ok(data);
    }

    /**
     * `findOneAndUpdate({id}, data, {new: true})`. A patch whose `id` belongs
     * to another document is refused by the unique index; otherwise the
     * document takes the patch in place, under its new id if it has one.
     */
    method Update(id: string, patch: IngredientePatch) returns (r: Result<Option<Ingrediente>, StoreError>)
      requires Valid()
      modifies this
      ensures Valid()
      ensures old(id !in items) ==> r == Ok(None) && items == old(items) && order == old(order)
      ensures old(id in items) ==>
        var u := Patched(old(items)[id], patch);
        if u.id != id && u.id in old(items) then
          r == Err(DuplicateKey(u.id)) && items == old(items) && order == old(order)
        else
          && r == Ok(Some(u))
          && items == (old(items) - {id})[u.id := u]
          && order == Renamed(old(order), id, u.id)
      ensures old(id in items) && patch.id.GetOr(id) == id ==>
        r == Ok(Some(Patched(old(items)[id], patch)))
        && items == old(items)[id := Patched(old(items)[id], patch)] && order == old(order)
    {
      if id !in items {
        return Ok(None);
      }
      var updated := Patched(items[id], patch);
      if updated.id != id && updated.id in items {
        return Err(DuplicateKey(updated.id));
      }
      assert order == Renamed(order, id, id);
      items := (items - {id})[updated.id := updated];
      order := Renamed(order, id, updated.id);
      return Ok(Some(updated));
    }

    /** `findOneAndUpdate({id}, {$inc: {cantidad}}, {new: true})`. */
    method IncrementQuantity(id: string, cantidad: int) returns (r: Option<Ingrediente>)
      requires Valid()
      modifies this
      ensures Valid() && order == old(order)
      ensures items == Bumped(old(items), id, cantidad)
      ensures r.Some? <==> id in old(items)
      ensures r.Some? ==> r.value == items[id] && r.value.cantidad == old(items)[id].cantidad + cantidad
    {
      items := Bumped(items, id, cantidad);
      r := if id in items then Some(items[id]) else None;
    }

    /** `$inc` by `-cantidad`: no lower bound, so the stock may become negative. */
    method DecrementQuantity(id: string, cantidad: int) returns (r: Option<Ingrediente>)
      requires Valid()
      modifies this
      ensures Valid() && order == old(order)
      ensures items == Bumped(old(items), id, -cantidad)
      ensures r.Some? <==> id in old(items)
      ensures r.Some? ==> r.value == items[id] && r.value.cantidad == old(items)[id].cantidad - cantidad
    {
      items := Bumped(items, id, -cantidad);
      r := if id in items then Some(items[id]) else None;
    }

    /** `findOneAndUpdate({id}, {cantidad}, {new: true})`. */
    method ResetQuantity(id: string, cantidad: int) returns (r: Option<Ingrediente>)
      requires Valid()
      modifies this
      ensures Valid() && order == old(order)
      ensures old(id !in items) ==> r.None? && items == old(items)
      ensures old(id in items) ==>
        items == old(items)[id := old(items)[id].(cantidad := cantidad)] && r == Some(items[id])
    {
      if id !in items {
        return None;
      }
      items := items[id := items[id].(cantidad := cantidad)];
      return Some(items[id]);
    }
  }

  /** Distinct ids make the set of ids as large as the list. */
  lemma FoundSize(r: seq<Ingrediente>, found: set<string>)
    requires forall i, j :: 0 <= i < j < |r| ==> r[i].id != r[j].id
    requires found == set x | x in r :: x.id
    ensures |found| == |r|
  {
    var ids := seq(|r|, k requires 0 <= k < |r| => r[k].id);
    assert Distinct(ids);
    ToSetCardinality(ids);
    assert found == ToSet(ids) by {
      forall id | id in ToSet(ids) ensures id in found {
        var k :| 0 <= k < |ids| && ids[k] == id;
        assert r[k] in r;
      }
      forall id | id in found ensures id in ToSet(ids) {
        var x :| x in r && x.id == id;
        var k :| 0 <= k < |r| && r[k] == x;
        assert ids[k] == id;
      }
    }
  }

  /** Found ids are the requested ids that are stored; there are as many as requested exactly when none repeats or is missing. */
  lemma CountArgument(found: set<string>, ids: seq<string>, keys: set<string>)
    requires found == ToSet(ids) * keys
    ensures |found| == |ids| <==> Distinct(ids) && forall id :: id in ids ==> id in keys
  {
    ToSetCardinality(ids);
    if |found| == |ids| {
      SubsetOfEqualSize(found, ToSet(ids));
      assert forall id :: id in ids ==> id in ToSet(ids);
    }
    if Distinct(ids) && forall id :: id in ids ==> id in keys {
      assert found == ToSet(ids);
    }
  }
}
