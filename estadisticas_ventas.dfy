/**
 * The sales statistics section: the date-range filter over the orders, the
 * low-stock list handed to the cards, and what the section shows (the
 * placeholder, or the export buttons and the charts).
 */
module EstadisticasVentas {
  import opened Text
  import opened Domain
  import opened Aggregate
  import TarjetasEstadisticas

  /** Inclusive date range by string comparison of `fecha`. */
  function EnRango(inicio: string, fin: string): Orden -> bool {
    (o: Orden) => LexLe(inicio, o.fecha) && LexLe(o.fecha, fin)
  }

  /**
   * `ordenesFiltradas`: with either bound empty nothing is filtered;
   * otherwise exactly the orders with inicio <= fecha <= fin stay, in order.
   */
  function OrdenesFiltradas(ordenes: seq<Orden>, fechaInicio: string, fechaFin: string): (r: seq<Orden>)
    ensures fechaInicio == "" || fechaFin == "" ==> r == ordenes
    ensures fechaInicio != "" && fechaFin != "" ==>
      && SubsequenceOf(r, ordenes)
      && forall o :: o in r <==> o in ordenes && LexLe(fechaInicio, o.fecha) && LexLe(o.fecha, fechaFin)
  {
    FilterSubsequence(ordenes, EnRango(fechaInicio, fechaFin));
    if fechaInicio == "" || fechaFin == "" then ordenes else Filter(ordenes, EnRango(fechaInicio, fechaFin))
  }

  function EsBajo(ing: PlainIngrediente): bool {
    ing.cantidad <= ing.minimo
  }

  /** `ingredientesBajos`: exactly the ingredients at or under their minimum, in order. */
  function IngredientesBajos(ingredientes: seq<PlainIngrediente>): (r: seq<PlainIngrediente>)
    ensures SubsequenceOf(r, ingredientes)
    ensures forall x :: x in r <==> x in ingredientes && x.cantidad <= x.minimo
  {
    FilterSubsequence(ingredientes, EsBajo);
    Filter(ingredientes, EsBajo)
  }

  /** The cards' low-stock panel shows exactly when some ingredient is at or under its minimum. */
  lemma PanelIffSomeLow(ingredientes: seq<PlainIngrediente>)
    ensures TarjetasEstadisticas.MuestraPanelBajos(IngredientesBajos(ingredientes))
      <==> exists k :: 0 <= k < |ingredientes| && ingredientes[k].cantidad <= ingredientes[k].minimo
  {
    var r := IngredientesBajos(ingredientes);
    if |r| > 0 {
      assert r[0] in r;
      var k :| 0 <= k < |ingredientes| && ingredientes[k] == r[0];
    }
    if k :| 0 <= k < |ingredientes| && ingredientes[k].cantidad <= ingredientes[k].minimo {
      assert ingredientes[k] in r;
    }
  }

  /** What the section renders: the placeholder, or the statistics with the export buttons' state. */
  datatype Vista =
    | SinDatos
    | ConDatos(filtradas: seq<Orden>, exportarHabilitado: bool)

  /**
   * With no orders at all the placeholder replaces everything; otherwise both
   * export buttons are enabled exactly when no export is under way and some
   * order passes the filter.
   */
  function Mostrar(ordenes: seq<Orden>, fechaInicio: string, fechaFin: string, exportando: bool): (v: Vista)
    ensures v.SinDatos? <==> |ordenes| == 0
    ensures v.ConDatos? ==> v.filtradas == OrdenesFiltradas(ordenes, fechaInicio, fechaFin)
    ensures v.ConDatos? ==> (v.exportarHabilitado <==> !exportando && |v.filtradas| > 0)
  {
    if |ordenes| == 0 then SinDatos
    else
      var filtradas := OrdenesFiltradas(ordenes, fechaInicio, fechaFin);
      ConDatos(filtradas, !(exportando || |filtradas| == 0))
  }

  /** An export can be started only when some order falls in the chosen range. */
  lemma ExportNeedsAnOrderInRange(ordenes: seq<Orden>, fechaInicio: string, fechaFin: string, exportando: bool)
    requires fechaInicio != "" && fechaFin != ""
    ensures var v := Mostrar(ordenes, fechaInicio, fechaFin, exportando);
      v.ConDatos? && v.exportarHabilitado <==>
        !exportando && exists k :: 0 <= k < |ordenes| && LexLe(fechaInicio, ordenes[k].fecha) && LexLe(ordenes[k].fecha, fechaFin)
  {
    var r := OrdenesFiltradas(ordenes, fechaInicio, fechaFin);
    if |r| > 0 {
      assert r[0] in r;
      var k :| 0 <= k < |ordenes| && ordenes[k] == r[0];
    }
    if k :| 0 <= k < |ordenes| && LexLe(fechaInicio, ordenes[k].fecha) && LexLe(ordenes[k].fecha, fechaFin) {
      assert ordenes[k] in r;
    }
  }

  /** Without both bounds, the buttons are enabled whenever orders exist and no export is running. */
  lemma ExportWithoutRange(ordenes: seq<Orden>, fechaInicio: string, fechaFin: string, exportando: bool)
    requires fechaInicio == "" || fechaFin == ""
    requires |ordenes| > 0
    ensures Mostrar(ordenes, fechaInicio, fechaFin, exportando).exportarHabilitado == !exportando
  {
  }
}
