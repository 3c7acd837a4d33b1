/**
 * The order log: orders in insertion order, each stamped with the `createdAt`
 * instant (epoch ms) of its save; the `id` is a unique index.
 */
module OrdenStore {
  import opened Wrappers
  import opened Domain
  import opened Aggregate
  import opened Sorting

  datatype StoredOrden = StoredOrden(orden: Orden, createdAt: int)

  /** The sort `{createdAt: -1}`: newer documents first. */
  function NewerFirst(a: StoredOrden, b: StoredOrden): bool {
    a.createdAt >= b.createdAt
  }

  lemma NewerFirstIsOrder()
    ensures Total(NewerFirst) && Transitive(NewerFirst)
  {
  }

  /** `createdAt` lies in the inclusive range. */
  function CreatedWithin(start: int, end: int): StoredOrden -> bool {
    (x: StoredOrden) => start <= x.createdAt <= end
  }

  /** The stored order with this id, if any. */
  function Lookup(log: seq<StoredOrden>, id: string): (r: Option<StoredOrden>)
    ensures r.Some? <==> exists k :: 0 <= k < |log| && log[k].orden.id == id
    ensures r.Some? ==> r.value in log && r.value.orden.id == id
  {
    if |log| == 0 then None
    else if log[0].orden.id == id then Some(log[0])
    else
      var r := Lookup(log[1..], id);
      assert forall k :: 1 <= k < |log| ==> log[k] == log[1..][k - 1];
      r
  }

  class OrdenRepository {
    var log: seq<StoredOrden>

    ghost predicate Valid()
      reads this
    {
      forall i, j :: 0 <= i < j < |log| ==> log[i].orden.id != log[j].orden.id
    }

    constructor()
      ensures Valid() && log == []
    {
      log := [];
    }

    /** `find().sort({createdAt: -1})`: every order, newest first. */
    function FindAll(): (r: seq<StoredOrden>)
      reads this
      ensures multiset(r) == multiset(log)
      ensures Sorted(r, NewerFirst)
    {
      NewerFirstIsOrder();
      Sort(log, NewerFirst)
    }

    /** `findOne({id})`. */
    function FindById(id: string): (r: Option<StoredOrden>)
      reads this
      ensures r.Some? <==> exists k :: 0 <= k < |log| && log[k].orden.id == id
      ensures r.Some? ==> r.value in log && r.value.orden.id == id
    {
      Lookup(log, id)
    }

    /** `find({createdAt: {$gte: start, $lte: end}}).sort({createdAt: -1})`. */
    function FindByDateRange(start: int, end: int): (r: seq<StoredOrden>)
      reads this
      ensures multiset(r) == multiset(Filter(log, CreatedWithin(start, end)))
      ensures forall x :: x in r <==> x in log && start <= x.createdAt <= end
      ensures Sorted(r, NewerFirst)
    {
      NewerFirstIsOrder();
      var kept := Filter(log, CreatedWithin(start, end));
      var r := Sort(kept, NewerFirst);
      assert forall x :: x in r <==> x in kept by {
        forall x ensures x in r <==> x in kept {
          assert x in r <==> x in multiset(r);
          assert x in kept <==> x in multiset(kept);
        }
      }
      r
    }

    /** `save()`: appends the order stamped `now`; the unique index refuses a taken id. */
    method Create(data: Orden, now: int) returns (r: Result<StoredOrden, StoreError>)
      requires Valid()
      modifies this
      ensures Valid()
      ensures (exists k :: 0 <= k < |old(log)| && old(log)[k].orden.id == data.id) ==>
        r == Err(DuplicateKey(data.id)) && log == old(log)
      ensures (forall k :: 0 <= k < |old(log)| ==> old(log)[k].orden.id != data.id) ==>
        r == Ok(StoredOrden(data, now)) && log == old(log) + [StoredOrden(data, now)]
    {
      if Lookup(log, data.id).Some? {
        return Err(DuplicateKey(data.id));
      }
      var stored := StoredOrden(data, now);
      log := log + [stored];
      return Ok(stored);
    }

    /** `deleteMany({})`. */
    method DeleteAll()
      modifies this
      ensures Valid() && log == []
    {
      log := [];
    }
  }
}
