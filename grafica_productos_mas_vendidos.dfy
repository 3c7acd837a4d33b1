/**
 * The best-sellers chart: one entry per product name with its summed
 * quantity and sales, ranked by quantity, the first eight kept.
 */
module GraficaProductosMasVendidos {
  import opened Wrappers
  import opened Domain
  import opened Aggregate
  import opened Sorting
  import opened StringSets
  import Calculations

  const SinCategoria := "Sin categoría"
  const MaxEntradas := 8

  function Nombre(o: Orden): string {
    o.recetaNombre
  }

  /** A dictionary value: running quantity and sales, and the category fixed when the name is first met. */
  datatype Producto = Producto(cantidad: int, ventas: real, categoria: string)

  /** The category the first order with name `k` carries, or the fallback when it has none. */
  function PrimeraCategoria(ordenes: seq<Orden>, k: string): string {
    var g := Where(ordenes, Nombre, k);
    if |g| == 0 then SinCategoria else OrElse(g[0].categoria, SinCategoria)
  }

  /** What the dictionary holds for name `k` once every order has been visited. */
  function ProductoOf(ordenes: seq<Orden>, k: string): Producto {
    var g := Where(ordenes, Nombre, k);
    Producto(SumInt(g, Calculations.Cantidad), SumReal(g, Calculations.Total), PrimeraCategoria(ordenes, k))
  }

  /** An order leaves every other name's value as it was. */
  lemma OtherProductoKept(xs: seq<Orden>, o: Orden, k: string)
    requires Nombre(o) != k
    ensures ProductoOf(xs + [o], k) == ProductoOf(xs, k)
  {
    assert (xs + [o])[..|xs|] == xs;
    assert Where(xs + [o], Nombre, k) == Where(xs, Nombre, k);
  }

  /** A name has a non-empty group exactly when it occurs. */
  lemma GroupIffKey(ordenes: seq<Orden>, k: string)
    ensures |Where(ordenes, Nombre, k)| > 0 <==> k in Keys(ordenes, Nombre)
  {
    if k in Keys(ordenes, Nombre) {
      var i :| 0 <= i < |ordenes| && Nombre(ordenes[i]) == k;
      InOwnGroup(ordenes, Nombre, i);
    } else {
      WhereAbsent(ordenes, Nombre, k);
    }
  }

  /** The `forEach` that fills the `productos` dictionary. */
  method AcumularProductos(ordenes: seq<Orden>) returns (productos: map<string, Producto>)
    ensures forall k :: k in productos <==> k in Keys(ordenes, Nombre)
    ensures forall k :: k in productos ==> productos[k] == ProductoOf(ordenes, k)
  {
    productos := map[];
    for i := 0 to |ordenes|
      invariant forall k :: k in productos <==> k in Keys(ordenes[..i], Nombre)
      invariant forall k :: k in productos ==> productos[k] == ProductoOf(ordenes[..i], k)
    {
      assert ordenes[..i + 1] == ordenes[..i] + [ordenes[i]];
      VisitarCorrect(productos, ordenes[..i], ordenes[i]);
      productos := Visitar(productos, ordenes[i]);
    }
    assert ordenes[..|ordenes|] == ordenes;
  }

  /** The callback: open the entry with the order's category if the name is new, then add the order. */
  function Visitar(productos: map<string, Producto>, orden: Orden): (r: map<string, Producto>)
    ensures r.Keys == productos.Keys + {orden.recetaNombre}
  {
    var nombre := orden.recetaNombre;
    var abierto := if nombre !in productos
      then productos[nombre := Producto(0, 0.0, OrElse(orden.categoria, SinCategoria))]
      else productos;
    var p := abierto[nombre];
    abierto[nombre := Producto(p.cantidad + orden.cantidad, p.ventas + orden.total, p.categoria)]
  }

  /** Visiting an order keeps the dictionary in step with the orders seen so far. */
  lemma VisitarCorrect(productos: map<string, Producto>, xs: seq<Orden>, orden: Orden)
    requires forall k :: k in productos <==> k in Keys(xs, Nombre)
    requires forall k :: k in productos ==> productos[k] == ProductoOf(xs, k)
    ensures var r := Visitar(productos, orden);
      && (forall k :: k in r <==> k in Keys(xs + [orden], Nombre))
      && (forall k :: k in r ==> r[k] == ProductoOf(xs + [orden], k))
  {
    VisitedKeys(productos, xs, orden);
    GroupIffKey(xs, orden.recetaNombre);
    VisitedOwn(productos, xs, orden);
    VisitedOthers(productos, xs, orden);
  }

  lemma VisitedKeys(productos: map<string, Producto>, xs: seq<Orden>, orden: Orden)
    requires forall k :: k in productos <==> k in Keys(xs, Nombre)
    ensures forall k :: k in Visitar(productos, orden) <==> k in Keys(xs + [orden], Nombre)
  {
    assert (xs + [orden])[..|xs|] == xs;
  }

  /** The visited order's own entry: opened with its category when new, then increased by it. */
  lemma VisitedOwn(productos: map<string, Producto>, xs: seq<Orden>, orden: Orden)
    requires orden.recetaNombre in productos <==> |Where(xs, Nombre, orden.recetaNombre)| > 0
    requires orden.recetaNombre in productos ==> productos[orden.recetaNombre] == ProductoOf(xs, orden.recetaNombre)
    ensures Visitar(productos, orden)[orden.recetaNombre] == ProductoOf(xs + [orden], orden.recetaNombre)
  {
    var n := orden.recetaNombre;
    var g := Where(xs, Nombre, n);
    assert (xs + [orden])[..|xs|] == xs;
    assert Where(xs + [orden], Nombre, n) == g + [orden];
    SumIntSnoc(g, orden, Calculations.Cantidad);
    SumRealSnoc(g, orden, Calculations.Total);
    if n in productos {
      assert (g + [orden])[0] == g[0];
    }
  }

  /** The names other than the visited order's keep their values. */
  lemma VisitedOthers(productos: map<string, Producto>, xs: seq<Orden>, orden: Orden)
    requires forall k :: k in productos ==> productos[k] == ProductoOf(xs, k)
    ensures var r := Visitar(productos, orden);
      forall k :: k in r && k != orden.recetaNombre ==> r[k] == ProductoOf(xs + [orden], k)
  {
    var r := Visitar(productos, orden);
    forall k | k in r && k != orden.recetaNombre ensures r[k] == ProductoOf(xs + [orden], k) {
      OtherProductoKept(xs, orden, k);
    }
  }

  /** A chart row. */
  datatype Entrada = Entrada(nombre: string, cantidad: int, ventas: real, categoria: string)

  function EntradaOf(ordenes: seq<Orden>, k: string): Entrada {
    var p := ProductoOf(ordenes, k);
    Entrada(k, p.cantidad, p.ventas, p.categoria)
  }

  /** `Object.entries(productos).map(...)`: one row per name, in first-occurrence order. */
  function Entradas(ordenes: seq<Orden>): (r: seq<Entrada>)
    ensures |r| == |Keys(ordenes, Nombre)|
    ensures forall i :: 0 <= i < |r| ==> r[i] == EntradaOf(ordenes, Keys(ordenes, Nombre)[i])
  {
    var ks := Keys(ordenes, Nombre);
    seq(|ks|, i requires 0 <= i < |ks| => EntradaOf(ordenes, ks[i]))
  }

  /** The comparator `b.cantidad - a.cantidad`: `a` may stand before `b` when it sold at least as much. */
  predicate PorCantidad(a: Entrada, b: Entrada) {
    a.cantidad >= b.cantidad
  }

  lemma PorCantidadIsOrder()
    ensures Total(PorCantidad) && Transitive(PorCantidad)
  {
  }

  /** All rows, highest quantity first. */
  function Ranking(ordenes: seq<Orden>): seq<Entrada> {
    Sort(Entradas(ordenes), PorCantidad)
  }

  /** `.slice(0, 8)`. */
  function Top(xs: seq<Entrada>): (r: seq<Entrada>)
    ensures |r| <= MaxEntradas && (|xs| <= MaxEntradas ==> |r| == |xs|)
    ensures r == xs[..|r|]
  {
    if |xs| <= MaxEntradas then xs else xs[..MaxEntradas]
  }

  /** The chart's data: accumulate, list, rank, keep eight. */
  method Datos(ordenes: seq<Orden>) returns (datos: seq<Entrada>)
    ensures datos == Top(Ranking(ordenes))
  {
    var productos := AcumularProductos(ordenes);
    var ks := Keys(ordenes, Nombre);
    var entradas := seq(|ks|, i requires 0 <= i < |ks| && ks[i] in productos =>
      Entrada(ks[i], productos[ks[i]].cantidad, productos[ks[i]].ventas, productos[ks[i]].categoria));
    assert entradas == Entradas(ordenes);
    datos := Top(Sort(entradas, PorCantidad));
  }

  function NombreDe(e: Entrada): string {
    e.nombre
  }

  function CantidadDe(e: Entrada): int {
    e.cantidad
  }

  function VentasDe(e: Entrada): real {
    e.ventas
  }

  /** The ranking holds exactly one row per product name that occurs, each with that name's figures. */
  lemma RankingRows(ordenes: seq<Orden>)
    ensures var r := Ranking(ordenes);
      && (forall i :: 0 <= i < |r| ==> r[i] == EntradaOf(ordenes, r[i].nombre))
      && Distinct(MapSeq(r, NombreDe))
      && (forall k :: k in MapSeq(r, NombreDe) <==> k in Keys(ordenes, Nombre))
  {
    var r := Ranking(ordenes);
    var e := Entradas(ordenes);
    PermutedRows(r, e, Keys(ordenes, Nombre), NombreDe);
    forall i | 0 <= i < |r| ensures r[i] == EntradaOf(ordenes, r[i].nombre) {
      var m :| 0 <= m < |e| && e[m] == r[i];
    }
  }

  /** A row's category is the one of the first order with that name, defaulting to 'Sin categoría'. */
  lemma CategoriaFromFirstOrder(ordenes: seq<Orden>, j: nat)
    requires j < |ordenes|
    requires forall m :: 0 <= m < j ==> ordenes[m].recetaNombre != ordenes[j].recetaNombre
    ensures EntradaOf(ordenes, ordenes[j].recetaNombre).categoria == OrElse(ordenes[j].categoria, SinCategoria)
  {
    WhereHead(ordenes, Nombre, j);
  }

  /** The ranking is ordered by quantity, highest first, and is a reordering of the rows. */
  lemma RankingOrdered(ordenes: seq<Orden>)
    ensures Sorted(Ranking(ordenes), PorCantidad)
    ensures forall i, j :: 0 <= i < j < |Ranking(ordenes)| ==> Ranking(ordenes)[i].cantidad >= Ranking(ordenes)[j].cantidad
    ensures multiset(Ranking(ordenes)) == multiset(Entradas(ordenes))
  {
    PorCantidadIsOrder();
  }

  /** What the chart shows: at most eight rows, the head of the ranking, none outsold by a row left out. */
  lemma TopIsBest(ordenes: seq<Orden>)
    ensures var r := Ranking(ordenes); var t := Top(r);
      && |t| <= MaxEntradas
      && t == r[..|t|]
      && (|r| <= MaxEntradas ==> t == r)
      && (forall i, j :: 0 <= i < |t| <= j < |r| ==> t[i].cantidad >= r[j].cantidad)
  {
    var r := Ranking(ordenes);
    PorCantidadIsOrder();
    SortedPrefix(r, |Top(r)|, PorCantidad);
  }

  /** Before the slice, the rows' quantities add up to the quantity over all orders, and likewise the sales. */
  lemma RankingSums(ordenes: seq<Orden>)
    ensures SumInt(Ranking(ordenes), CantidadDe) == SumInt(ordenes, Calculations.Cantidad)
    ensures SumReal(Ranking(ordenes), VentasDe) == SumReal(ordenes, Calculations.Total)
  {
    var ks := Keys(ordenes, Nombre);
    var e := Entradas(ordenes);
    SumIntPermutation(Ranking(ordenes), e, CantidadDe);
    SumRealPermutation(Ranking(ordenes), e, VentasDe);
    RowsSumInt(ordenes, Nombre, Calculations.Cantidad, ks, e, CantidadDe);
    RowsSumReal(ordenes, Nombre, Calculations.Total, ks, e, VentasDe);
    PartitionSumInt(ordenes, Nombre, Calculations.Cantidad);
    PartitionSumReal(ordenes, Nombre, Calculations.Total);
  }
}
