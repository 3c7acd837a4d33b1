/**
 * The sales-by-category chart: one slice per category with its summed
 * sales, labelled with the first letter upper-cased, largest first.
 */
module GraficaVentasPorCategoria {
  import opened Wrappers
  import opened Domain
  import opened Text
  import opened Aggregate
  import opened Sorting
  import Calculations

  const SinCategoria := "Sin categoría"

  /** The bucket of an order: its category, or 'Sin categoría' when missing or empty. */
  function Cat(o: Orden): string {
    OrElse(o.categoria, SinCategoria)
  }

  /** What the dictionary holds for category `k` once every order has been visited. */
  function VentasOf(ordenes: seq<Orden>, k: string): real {
    SumReal(Where(ordenes, Cat, k), Calculations.Total)
  }

  /** The `forEach` that fills `ventasPorCategoria`. */
  method AcumularVentas(ordenes: seq<Orden>) returns (ventasPorCategoria: map<string, real>)
    ensures forall k :: k in ventasPorCategoria <==> k in Keys(ordenes, Cat)
    ensures forall k :: k in ventasPorCategoria ==> ventasPorCategoria[k] == VentasOf(ordenes, k)
  {
    ventasPorCategoria := map[];
    for i := 0 to |ordenes|
      invariant forall k :: k in ventasPorCategoria <==> k in Keys(ordenes[..i], Cat)
      invariant forall k :: k in ventasPorCategoria ==> ventasPorCategoria[k] == VentasOf(ordenes[..i], k)
    {
      assert ordenes[..i + 1] == ordenes[..i] + [ordenes[i]];
      VisitarCorrect(ventasPorCategoria, ordenes[..i], ordenes[i]);
      ventasPorCategoria := Visitar(ventasPorCategoria, ordenes[i]);
    }
    assert ordenes[..|ordenes|] == ordenes;
  }

  /** The callback: `(ventasPorCategoria[cat] || 0) + orden.total`. */
  function Visitar(ventasPorCategoria: map<string, real>, orden: Orden): (r: map<string, real>)
    ensures r.Keys == ventasPorCategoria.Keys + {Cat(orden)}
  {
    var cat := OrElse(orden.categoria, SinCategoria);
    var anterior := if cat in ventasPorCategoria && ventasPorCategoria[cat] != 0.0 then ventasPorCategoria[cat] else 0.0;
    ventasPorCategoria[cat := anterior + orden.total]
  }

  /** Visiting an order keeps the dictionary in step with the orders seen so far. */
  lemma VisitarCorrect(ventasPorCategoria: map<string, real>, xs: seq<Orden>, orden: Orden)
    requires forall k :: k in ventasPorCategoria <==> k in Keys(xs, Cat)
    requires forall k :: k in ventasPorCategoria ==> ventasPorCategoria[k] == VentasOf(xs, k)
    ensures var r := Visitar(ventasPorCategoria, orden);
      && (forall k :: k in r <==> k in Keys(xs + [orden], Cat))
      && (forall k :: k in r ==> r[k] == VentasOf(xs + [orden], k))
  {
    KeysAfterVisit(ventasPorCategoria, Visitar(ventasPorCategoria, orden), xs, orden, Cat);
    if Cat(orden) !in ventasPorCategoria {
      WhereAbsent(xs, Cat, Cat(orden));
    }
    OwnCategory(ventasPorCategoria, xs, orden);
    OtherCategories(ventasPorCategoria, xs, orden);
  }

  /** The order's own category grows by its total. */
  lemma OwnCategory(ventasPorCategoria: map<string, real>, xs: seq<Orden>, orden: Orden)
    requires Cat(orden) !in ventasPorCategoria ==> Where(xs, Cat, Cat(orden)) == []
    requires Cat(orden) in ventasPorCategoria ==> ventasPorCategoria[Cat(orden)] == VentasOf(xs, Cat(orden))
    ensures Visitar(ventasPorCategoria, orden)[Cat(orden)] == VentasOf(xs + [orden], Cat(orden))
  {
    var g := Where(xs, Cat, Cat(orden));
    WhereSnoc(xs, orden, Cat, Cat(orden));
    SumRealSnoc(g, orden, Calculations.Total);
  }

  /** Every other category keeps its value. */
  lemma OtherCategories(ventasPorCategoria: map<string, real>, xs: seq<Orden>, orden: Orden)
    requires forall k :: k in ventasPorCategoria ==> ventasPorCategoria[k] == VentasOf(xs, k)
    ensures var r := Visitar(ventasPorCategoria, orden);
      forall k :: k in r && k != Cat(orden) ==> r[k] == VentasOf(xs + [orden], k)
  {
    var r := Visitar(ventasPorCategoria, orden);
    forall k | k in r && k != Cat(orden) ensures r[k] == VentasOf(xs + [orden], k) {
      WhereSnoc(xs, orden, Cat, k);
      assert Where(xs + [orden], Cat, k) == Where(xs, Cat, k);
    }
  }

  /** `s.charAt(0).toUpperCase() + s.slice(1)`. */
  function Capitalizar(s: string): (r: string)
    ensures |r| == |s|
    ensures |s| > 0 ==> r[0] == UpperChar(s[0]) && r[1..] == s[1..]
  {
    if |s| == 0 then "" else [UpperChar(s[0])] + s[1..]
  }

  /** Capitalising twice is capitalising once. */
  lemma CapitalizarIdempotent(s: string)
    ensures Capitalizar(Capitalizar(s)) == Capitalizar(s)
  {
    if |s| > 0 {
      var c := Capitalizar(s);
      assert UpperChar(UpperChar(s[0])) == UpperChar(s[0]);
      assert Capitalizar(c) == [UpperChar(c[0])] + c[1..];
    }
  }

  /** A slice of the pie. */
  datatype Porcion = Porcion(categoria: string, ventas: real)

  function PorcionOf(ordenes: seq<Orden>, k: string): Porcion {
    Porcion(Capitalizar(k), VentasOf(ordenes, k))
  }

  /** `Object.entries(ventasPorCategoria).map(...)`: one slice per category, in first-occurrence order. */
  function Porciones(ordenes: seq<Orden>): (r: seq<Porcion>)
    ensures |r| == |Keys(ordenes, Cat)|
    ensures forall i :: 0 <= i < |r| ==> r[i] == PorcionOf(ordenes, Keys(ordenes, Cat)[i])
  {
    var ks := Keys(ordenes, Cat);
    seq(|ks|, i requires 0 <= i < |ks| => PorcionOf(ordenes, ks[i]))
  }

  /** The comparator `b.ventas - a.ventas`. */
  predicate PorVentas(a: Porcion, b: Porcion) {
    a.ventas >= b.ventas
  }

  /** The chart's data. */
  method Datos(ordenes: seq<Orden>) returns (datos: seq<Porcion>)
    ensures datos == Sort(Porciones(ordenes), PorVentas)
  {
    var ventasPorCategoria := AcumularVentas(ordenes);
    var ks := Keys(ordenes, Cat);
    var porciones := seq(|ks|, i requires 0 <= i < |ks| && ks[i] in ventasPorCategoria =>
      Porcion(Capitalizar(ks[i]), ventasPorCategoria[ks[i]]));
    assert porciones == Porciones(ordenes);
    datos := Sort(porciones, PorVentas);
  }

  function VentasDe(p: Porcion): real {
    p.ventas
  }

  /**
   * One slice per category that occurs, each the capitalised category with
   * that category's sales, largest first.
   */
  lemma DatosRows(ordenes: seq<Orden>)
    ensures var r := Sort(Porciones(ordenes), PorVentas);
      && |r| == |Keys(ordenes, Cat)|
      && (forall i :: 0 <= i < |r| ==> r[i] in Porciones(ordenes))
      && (forall k :: k in Keys(ordenes, Cat) ==> PorcionOf(ordenes, k) in r)
      && (forall i, j :: 0 <= i < j < |r| ==> r[i].ventas >= r[j].ventas)
  {
    var r := Sort(Porciones(ordenes), PorVentas);
    var p := Porciones(ordenes);
    var ks := Keys(ordenes, Cat);
    forall i | 0 <= i < |r| ensures r[i] in p {
      assert r[i] in multiset(r);
    }
    forall k | k in ks ensures PorcionOf(ordenes, k) in r {
      var a :| 0 <= a < |ks| && ks[a] == k;
      assert p[a] in multiset(p);
    }
  }

  /** The slices together hold the sales over all orders. */
  lemma DatosSum(ordenes: seq<Orden>)
    ensures SumReal(Sort(Porciones(ordenes), PorVentas), VentasDe) == SumReal(ordenes, Calculations.Total)
  {
    var ks := Keys(ordenes, Cat);
    var p := Porciones(ordenes);
    SumRealPermutation(Sort(p, PorVentas), p, VentasDe);
    RowsSumReal(ordenes, Cat, Calculations.Total, ks, p, VentasDe);
    PartitionSumReal(ordenes, Cat, Calculations.Total);
  }

  /**
   * Categories that differ only in the case of their first letter are two
   * buckets but get the same label.
   */
  lemma LabelsCanRepeat()
    ensures var a := Orden("1", "r1", "Flan", 1, "2024-01-01", "10:00", 1.0, Some("postres"));
      var b := Orden("2", "r2", "Tres leches", 1, "2024-01-01", "11:00", 2.0, Some("Postres"));
      var p := Porciones([a, b]);
      |p| == 2 && p[0].categoria == p[1].categoria == "Postres"
  {
    var a := Orden("1", "r1", "Flan", 1, "2024-01-01", "10:00", 1.0, Some("postres"));
    var b := Orden("2", "r2", "Tres leches", 1, "2024-01-01", "11:00", 2.0, Some("Postres"));
    TwoKeys(a, b);
    assert Capitalizar("postres") == "Postres" && Capitalizar("Postres") == "Postres";
  }

  lemma TwoKeys(a: Orden, b: Orden)
    requires a.categoria == Some("postres") && b.categoria == Some("Postres")
    ensures Keys([a, b], Cat) == ["postres", "Postres"]
  {
    assert Cat(a) == "postres" && Cat(b) == "Postres";
    assert [a][..0] == [];
    assert Keys([a], Cat) == Keys([], Cat) + ["postres"];
    assert [a, b][..1] == [a];
    assert "Postres" != "postres";
    assert "Postres" !in Keys([a], Cat);
  }
}
