/**
 * The four statistics cards (total sales, order count, units sold, average
 * per order) and the low-stock panel under them.
 */
module TarjetasEstadisticas {
  import opened Domain
  import opened Aggregate
  import Calculations

  datatype Estadisticas = Estadisticas(totalVentas: real, totalProductos: int, totalOrdenes: nat, promedioVenta: real)

  /** The average per order: 0 for no orders, otherwise the exact quotient. */
  function Promedio(totalVentas: real, n: nat): (p: real)
    ensures n == 0 ==> p == 0.0
    ensures n > 0 ==> p * n as real == totalVentas
  {
    if n > 0 then totalVentas / n as real else 0.0
  }

  /** The card figures for a list of orders. */
  function CalcularEstadisticas(ordenes: seq<Orden>): (e: Estadisticas)
    ensures e.totalOrdenes == |ordenes|
    ensures e.promedioVenta == Promedio(e.totalVentas, |ordenes|)
  {
    var totalVentas := SumReal(ordenes, Calculations.Total);
    var totalProductos := SumInt(ordenes, Calculations.Cantidad);
    Estadisticas(totalVentas, totalProductos, |ordenes|, Promedio(totalVentas, |ordenes|))
  }

  /** The cards show the same three totals as `calcularTotales`. */
  lemma AgreesWithTotales(ordenes: seq<Orden>)
    ensures var e := CalcularEstadisticas(ordenes);
      var t := Calculations.CalcularTotales(ordenes);
      e.totalVentas == t.totalVentas && e.totalProductos == t.totalProductos && e.totalOrdenes == t.totalOrdenes
  {
  }

  lemma {:induction false} SumRealBounds(xs: seq<Orden>, lo: real, hi: real)
    requires forall k :: 0 <= k < |xs| ==> lo <= xs[k].total <= hi
    ensures lo * |xs| as real <= SumReal(xs, Calculations.Total) <= hi * |xs| as real
  {
    if |xs| > 0 {
      var init := xs[..|xs| - 1];
      SumRealBounds(init, lo, hi);
      assert lo * |xs| as real == lo * |init| as real + lo;
      assert hi * |xs| as real == hi * |init| as real + hi;
    }
  }

  /** With at least one order, the average lies between the smallest and the largest order total. */
  lemma PromedioBetweenExtremes(ordenes: seq<Orden>, lo: real, hi: real)
    requires |ordenes| > 0
    requires forall k :: 0 <= k < |ordenes| ==> lo <= ordenes[k].total <= hi
    ensures lo <= CalcularEstadisticas(ordenes).promedioVenta <= hi
  {
    var e := CalcularEstadisticas(ordenes);
    var n := |ordenes| as real;
    SumRealBounds(ordenes, lo, hi);
    QuotientBounds(e.totalVentas, n, e.promedioVenta, lo, hi);
  }

  lemma QuotientBounds(t: real, n: real, p: real, lo: real, hi: real)
    requires n > 0.0 && p * n == t
    requires lo * n <= t <= hi * n
    ensures lo <= p <= hi
  {
    assert (p - lo) * n == t - lo * n;
    assert (hi - p) * n == hi * n - t;
  }

  /** Every order with the same total makes the average that total. */
  lemma PromedioOfEqualTotals(ordenes: seq<Orden>, v: real)
    requires |ordenes| > 0
    requires forall k :: 0 <= k < |ordenes| ==> ordenes[k].total == v
    ensures CalcularEstadisticas(ordenes).promedioVenta == v
  {
    PromedioBetweenExtremes(ordenes, v, v);
  }

  /** The low-stock panel renders exactly when the list it is given is non-empty. */
  predicate MuestraPanelBajos(ingredientesBajos: seq<PlainIngrediente>) {
    |ingredientesBajos| > 0
  }
}
