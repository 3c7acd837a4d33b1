/**
 * The sales-by-day chart: one point per order date with the day's sales
 * and order count, in ascending date order.
 */
module GraficaVentasPorDia {
  import opened Domain
  import opened Text
  import opened Aggregate
  import opened Sorting
  import opened StringSets
  import Calculations

  function Fecha(o: Orden): string {
    o.fecha
  }

  /** A dictionary value: the day's running sales and order count. */
  datatype Dia = Dia(ventas: real, ordenes: nat)

  /** What the dictionary holds for date `k` once every order has been visited. */
  function DiaOf(ordenes: seq<Orden>, k: string): Dia {
    var g := Where(ordenes, Fecha, k);
    Dia(SumReal(g, Calculations.Total), |g|)
  }

  /** The `forEach` that fills `ventasPorFecha`. */
  method AcumularDias(ordenes: seq<Orden>) returns (ventasPorFecha: map<string, Dia>)
    ensures forall k :: k in ventasPorFecha <==> k in Keys(ordenes, Fecha)
    ensures forall k :: k in ventasPorFecha ==> ventasPorFecha[k] == DiaOf(ordenes, k)
  {
    ventasPorFecha := map[];
    for i := 0 to |ordenes|
      invariant forall k :: k in ventasPorFecha <==> k in Keys(ordenes[..i], Fecha)
      invariant forall k :: k in ventasPorFecha ==> ventasPorFecha[k] == DiaOf(ordenes[..i], k)
    {
      assert ordenes[..i + 1] == ordenes[..i] + [ordenes[i]];
      VisitarCorrect(ventasPorFecha, ordenes[..i], ordenes[i]);
      ventasPorFecha := Visitar(ventasPorFecha, ordenes[i]);
    }
    assert ordenes[..|ordenes|] == ordenes;
  }

  /** The callback: open the day if needed, then add the order's total and one order. */
  function Visitar(ventasPorFecha: map<string, Dia>, orden: Orden): (r: map<string, Dia>)
    ensures r.Keys == ventasPorFecha.Keys + {Fecha(orden)}
  {
    var abierto := if orden.fecha !in ventasPorFecha
      then ventasPorFecha[orden.fecha := Dia(0.0, 0)]
      else ventasPorFecha;
    var d := abierto[orden.fecha];
    abierto[orden.fecha := Dia(d.ventas + orden.total, d.ordenes + 1)]
  }

  /** Visiting an order keeps the dictionary in step with the orders seen so far. */
  lemma VisitarCorrect(ventasPorFecha: map<string, Dia>, xs: seq<Orden>, orden: Orden)
    requires forall k :: k in ventasPorFecha <==> k in Keys(xs, Fecha)
    requires forall k :: k in ventasPorFecha ==> ventasPorFecha[k] == DiaOf(xs, k)
    ensures var r := Visitar(ventasPorFecha, orden);
      && (forall k :: k in r <==> k in Keys(xs + [orden], Fecha))
      && (forall k :: k in r ==> r[k] == DiaOf(xs + [orden], k))
  {
    KeysAfterVisit(ventasPorFecha, Visitar(ventasPorFecha, orden), xs, orden, Fecha);
    if orden.fecha !in ventasPorFecha {
      WhereAbsent(xs, Fecha, orden.fecha);
    }
    OwnDay(ventasPorFecha, xs, orden);
    OtherDays(ventasPorFecha, xs, orden);
  }

  /** The order's own day grows by its total and by one order. */
  lemma OwnDay(ventasPorFecha: map<string, Dia>, xs: seq<Orden>, orden: Orden)
    requires orden.fecha !in ventasPorFecha ==> Where(xs, Fecha, orden.fecha) == []
    requires orden.fecha in ventasPorFecha ==> ventasPorFecha[orden.fecha] == DiaOf(xs, orden.fecha)
    ensures Visitar(ventasPorFecha, orden)[orden.fecha] == DiaOf(xs + [orden], orden.fecha)
  {
    var g := Where(xs, Fecha, orden.fecha);
    WhereSnoc(xs, orden, Fecha, orden.fecha);
    SumRealSnoc(g, orden, Calculations.Total);
  }

  /** Every other day keeps its value. */
  lemma OtherDays(ventasPorFecha: map<string, Dia>, xs: seq<Orden>, orden: Orden)
    requires forall k :: k in ventasPorFecha ==> ventasPorFecha[k] == DiaOf(xs, k)
    ensures var r := Visitar(ventasPorFecha, orden);
      forall k :: k in r && k != orden.fecha ==> r[k] == DiaOf(xs + [orden], k)
  {
    var r := Visitar(ventasPorFecha, orden);
    forall k | k in r && k != orden.fecha ensures r[k] == DiaOf(xs + [orden], k) {
      WhereSnoc(xs, orden, Fecha, k);
      assert Where(xs + [orden], Fecha, k) == Where(xs, Fecha, k);
    }
  }

  /** A chart point; the day-month label drawn on the axis is left out. */
  datatype Punto = Punto(fechaCompleta: string, ventas: real, ordenes: nat)

  function PuntoOf(ordenes: seq<Orden>, k: string): Punto {
    var d := DiaOf(ordenes, k);
    Punto(k, d.ventas, d.ordenes)
  }

  /** `Object.entries(ventasPorFecha).map(...)`: one point per date, in first-occurrence order. */
  function Puntos(ordenes: seq<Orden>): (r: seq<Punto>)
    ensures |r| == |Keys(ordenes, Fecha)|
    ensures forall i :: 0 <= i < |r| ==> r[i] == PuntoOf(ordenes, Keys(ordenes, Fecha)[i])
  {
    var ks := Keys(ordenes, Fecha);
    seq(|ks|, i requires 0 <= i < |ks| => PuntoOf(ordenes, ks[i]))
  }

  /** The comparator `a.fechaCompleta.localeCompare(b.fechaCompleta)`, as `LexLe` (scalar-value order). */
  predicate PorFecha(a: Punto, b: Punto) {
    LexLe(a.fechaCompleta, b.fechaCompleta)
  }

  lemma PorFechaIsOrder()
    ensures Total(PorFecha) && Transitive(PorFecha)
  {
    LexLeIsOrder();
    forall a: Punto, b: Punto ensures PorFecha(a, b) || PorFecha(b, a) {
      assert LexLe(a.fechaCompleta, b.fechaCompleta) || LexLe(b.fechaCompleta, a.fechaCompleta);
    }
    forall a: Punto, b: Punto, c: Punto | PorFecha(a, b) && PorFecha(b, c) ensures PorFecha(a, c) {
      assert LexLe(a.fechaCompleta, c.fechaCompleta);
    }
  }

  /** The chart's data. */
  method Datos(ordenes: seq<Orden>) returns (datos: seq<Punto>)
    ensures datos == Sort(Puntos(ordenes), PorFecha)
  {
    var ventasPorFecha := AcumularDias(ordenes);
    var ks := Keys(ordenes, Fecha);
    var puntos := seq(|ks|, i requires 0 <= i < |ks| && ks[i] in ventasPorFecha =>
      Punto(ks[i], ventasPorFecha[ks[i]].ventas, ventasPorFecha[ks[i]].ordenes));
    assert puntos == Puntos(ordenes);
    datos := Sort(puntos, PorFecha);
  }

  function FechaDe(p: Punto): string {
    p.fechaCompleta
  }

  function OrdenesDe(p: Punto): int {
    p.ordenes
  }

  function VentasDe(p: Punto): real {
    p.ventas
  }

  /**
   * One point per date that occurs and no other, each with that day's
   * sales and order count, in strictly ascending date order.
   */
  lemma DatosRows(ordenes: seq<Orden>)
    ensures var r := Sort(Puntos(ordenes), PorFecha);
      && (forall i :: 0 <= i < |r| ==> r[i] == PuntoOf(ordenes, r[i].fechaCompleta))
      && (forall k :: k in MapSeq(r, FechaDe) <==> exists j :: 0 <= j < |ordenes| && ordenes[j].fecha == k)
      && (forall i, j :: 0 <= i < j < |r| ==> LexLess(r[i].fechaCompleta, r[j].fechaCompleta))
  {
    var r := Sort(Puntos(ordenes), PorFecha);
    var p := Puntos(ordenes);
    PermutedRows(r, p, Keys(ordenes, Fecha), FechaDe);
    forall i | 0 <= i < |r| ensures r[i] == PuntoOf(ordenes, r[i].fechaCompleta) {
      var m :| 0 <= m < |p| && p[m] == r[i];
    }
    PorFechaIsOrder();
    var n := MapSeq(r, FechaDe);
    forall i, j | 0 <= i < j < |r| ensures LexLess(r[i].fechaCompleta, r[j].fechaCompleta) {
      assert n[i] != n[j];
    }
  }

  /** The points' order counts add up to the number of orders. */
  lemma DatosCountOrders(ordenes: seq<Orden>)
    ensures SumInt(Sort(Puntos(ordenes), PorFecha), OrdenesDe) == |ordenes|
  {
    var ks := Keys(ordenes, Fecha);
    var p := Puntos(ordenes);
    SumIntPermutation(Sort(p, PorFecha), p, OrdenesDe);
    forall i | 0 <= i < |ks| ensures OrdenesDe(p[i]) == SumInt(Where(ordenes, Fecha, ks[i]), One) {
      SumOneIsLength(Where(ordenes, Fecha, ks[i]));
    }
    RowsSumInt(ordenes, Fecha, One, ks, p, OrdenesDe);
    PartitionSumInt(ordenes, Fecha, One);
    SumOneIsLength(ordenes);
  }

  /** The points' sales add up to the sales over all orders. */
  lemma DatosSumSales(ordenes: seq<Orden>)
    ensures SumReal(Sort(Puntos(ordenes), PorFecha), VentasDe) == SumReal(ordenes, Calculations.Total)
  {
    var ks := Keys(ordenes, Fecha);
    var p := Puntos(ordenes);
    SumRealPermutation(Sort(p, PorFecha), p, VentasDe);
    RowsSumReal(ordenes, Fecha, Calculations.Total, ks, p, VentasDe);
    PartitionSumReal(ordenes, Fecha, Calculations.Total);
  }

  /** `datos.length === 1`: the single-day view. */
  predicate VistaDeUnDia(datos: seq<Punto>) {
    |datos| == 1
  }

  /** The single-day view shows exactly when there are orders and they all share one date. */
  lemma UnDiaIffMismaFecha(ordenes: seq<Orden>)
    ensures VistaDeUnDia(Sort(Puntos(ordenes), PorFecha)) <==>
      |ordenes| > 0 && forall j :: 0 <= j < |ordenes| ==> ordenes[j].fecha == ordenes[0].fecha
  {
    var ks := Keys(ordenes, Fecha);
    if |ordenes| > 0 && forall j :: 0 <= j < |ordenes| ==> ordenes[j].fecha == ordenes[0].fecha {
      KeysConstant(ordenes, Fecha, ordenes[0].fecha);
    }
    if |ks| == 1 {
      assert ks[0] in ks;
      forall j | 0 <= j < |ordenes| ensures ordenes[j].fecha == ordenes[0].fecha {
        assert Fecha(ordenes[j]) in ks && Fecha(ordenes[0]) in ks;
      }
    }
  }
}
