/**
 * The client's order figures: the totals over a list of orders and the
 * per-category buckets built by walking the list once.
 */
module Calculations {
  import opened Wrappers
  import opened Domain
  import opened Aggregate

  function Total(o: Orden): real {
    o.total
  }

  function Cantidad(o: Orden): int {
    o.cantidad
  }

  datatype Totales = Totales(totalVentas: real, totalOrdenes: nat, totalProductos: int)

  /** `calcularTotales` without the floating-point average. */
  function CalcularTotales(ordenes: seq<Orden>): (t: Totales)
    ensures t.totalOrdenes == |ordenes| == SumInt(ordenes, One)
  {
    SumOneIsLength(ordenes);
    Totales(SumReal(ordenes, Total), |ordenes|, SumInt(ordenes, Cantidad))
  }

  /** The bucket of an order: its category, or 'Sin categoria' when that is missing or empty. */
  function CategoriaKey(o: Orden): string {
    OrElse(o.categoria, "Sin categoria")
  }

  datatype Bucket = Bucket(cantidad: int, ventas: real, ordenes: nat)

  /** What the bucket of key `k` holds once every order has been visited. */
  function BucketOf(ordenes: seq<Orden>, k: string): Bucket {
    var g := Where(ordenes, CategoriaKey, k);
    Bucket(SumInt(g, Cantidad), SumReal(g, Total), |g|)
  }

  /** `ventasPorCategoria`: one bucket per category met, holding its quantity, sales and count. */
  method VentasPorCategoria(ordenes: seq<Orden>) returns (resultado: map<string, Bucket>)
    ensures forall k :: k in resultado <==> k in Keys(ordenes, CategoriaKey)
    ensures forall k :: k in resultado ==> resultado[k] == BucketOf(ordenes, k)
  {
    resultado := map[];
    for i := 0 to |ordenes|
      invariant forall k :: k in resultado <==> k in Keys(ordenes[..i], CategoriaKey)
      invariant forall k :: k in resultado ==> resultado[k] == BucketOf(ordenes[..i], k)
    {
      assert ordenes[..i + 1] == ordenes[..i] + [ordenes[i]];
      AddToBucketCorrect(resultado, ordenes[..i], ordenes[i]);
      resultado := AddToBucket(resultado, ordenes[i]);
    }
    assert ordenes[..|ordenes|] == ordenes;
  }

  /** The callback: open the order's bucket if needed, then add the order to it. */
  function AddToBucket(resultado: map<string, Bucket>, o: Orden): (r: map<string, Bucket>)
    ensures r.Keys == resultado.Keys + {CategoriaKey(o)}
  {
    var cat := OrElse(o.categoria, "Sin categoria");
    var abierto := if cat !in resultado then resultado[cat := Bucket(0, 0.0, 0)] else resultado;
    var b := abierto[cat];
    abierto[cat := Bucket(b.cantidad + o.cantidad, b.ventas + o.total, b.ordenes + 1)]
  }

  /** Visiting an order keeps the buckets in step with the orders seen so far. */
  lemma AddToBucketCorrect(resultado: map<string, Bucket>, xs: seq<Orden>, o: Orden)
    requires forall k :: k in resultado <==> k in Keys(xs, CategoriaKey)
    requires forall k :: k in resultado ==> resultado[k] == BucketOf(xs, k)
    ensures var r := AddToBucket(resultado, o);
      && (forall k :: k in r <==> k in Keys(xs + [o], CategoriaKey))
      && (forall k :: k in r ==> r[k] == BucketOf(xs + [o], k))
  {
    KeysAfterVisit(resultado, AddToBucket(resultado, o), xs, o, CategoriaKey);
    if CategoriaKey(o) !in resultado {
      WhereAbsent(xs, CategoriaKey, CategoriaKey(o));
    }
    OwnBucket(resultado, xs, o);
    OtherBuckets(resultado, xs, o);
  }

  /** Every other bucket is left as it was. */
  lemma OtherBuckets(resultado: map<string, Bucket>, xs: seq<Orden>, o: Orden)
    requires forall k :: k in resultado ==> resultado[k] == BucketOf(xs, k)
    ensures var r := AddToBucket(resultado, o);
      forall k :: k in r && k != CategoriaKey(o) ==> r[k] == BucketOf(xs + [o], k)
  {
    forall k | k in AddToBucket(resultado, o) && k != CategoriaKey(o)
      ensures AddToBucket(resultado, o)[k] == BucketOf(xs + [o], k)
    {
      OtherBucketKept(xs, o, k);
    }
  }

  /** The order's own bucket grows by its quantity, its total and one. */
  lemma OwnBucket(resultado: map<string, Bucket>, xs: seq<Orden>, o: Orden)
    requires CategoriaKey(o) !in resultado ==> Where(xs, CategoriaKey, CategoriaKey(o)) == []
    requires CategoriaKey(o) in resultado ==> resultado[CategoriaKey(o)] == BucketOf(xs, CategoriaKey(o))
    ensures AddToBucket(resultado, o)[CategoriaKey(o)] == BucketOf(xs + [o], CategoriaKey(o))
  {
    var g := Where(xs, CategoriaKey, CategoriaKey(o));
    WhereSnoc(xs, o, CategoriaKey, CategoriaKey(o));
    SumIntSnoc(g, o, Cantidad);
    SumRealSnoc(g, o, Total);
  }

  /** An order leaves every other bucket as it was. */
  lemma OtherBucketKept(xs: seq<Orden>, o: Orden, k: string)
    requires CategoriaKey(o) != k
    ensures BucketOf(xs + [o], k) == BucketOf(xs, k)
  {
    WhereSnoc(xs, o, CategoriaKey, k);
    assert Where(xs + [o], CategoriaKey, k) == Where(xs, CategoriaKey, k);
  }

  /** Each order sits in exactly one bucket: the one of its own key. */
  lemma OneBucketEach(ordenes: seq<Orden>, i: nat)
    requires i < |ordenes|
    ensures ordenes[i] in Where(ordenes, CategoriaKey, CategoriaKey(ordenes[i]))
    ensures forall k :: k != CategoriaKey(ordenes[i]) ==> ordenes[i] !in Where(ordenes, CategoriaKey, k)
  {
    InOwnGroup(ordenes, CategoriaKey, i);
  }

  /** The buckets, summed in the order their keys first appear, give back `calcularTotales`. */
  lemma BucketsReproduceTotales(ordenes: seq<Orden>)
    ensures var ks := Keys(ordenes, CategoriaKey);
      && GroupsSumReal(ordenes, CategoriaKey, Total, ks) == CalcularTotales(ordenes).totalVentas
      && GroupsSumInt(ordenes, CategoriaKey, Cantidad, ks) == CalcularTotales(ordenes).totalProductos
      && GroupsSumInt(ordenes, CategoriaKey, One, ks) == CalcularTotales(ordenes).totalOrdenes
  {
    PartitionSumReal(ordenes, CategoriaKey, Total);
    PartitionSumInt(ordenes, CategoriaKey, Cantidad);
    PartitionSumInt(ordenes, CategoriaKey, One);
  }
}
