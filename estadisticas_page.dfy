/**
 * The statistics page: the loader while data is missing, the empty-state
 * message, or the cards and charts over the date-filtered orders. The date
 * filter and the low-stock list are the same expressions as in the sales
 * statistics section and are taken from there.
 */
module EstadisticasPage {
  import opened Text
  import opened Domain
  import opened EstadisticasVentas

  const SinOrdenes := "No hay órdenes para mostrar estadísticas"
  const SinOrdenesEnRango := "No hay órdenes en el rango de fechas seleccionado"

  /** The loader shows only while loading and while one of the two data sets is still missing. */
  function MuestraCargando(loading: bool, ordenesCargadas: bool, ingredientesCargados: bool): (b: bool)
    ensures !loading ==> !b
    ensures ordenesCargadas && ingredientesCargados ==> !b
    ensures loading && !ordenesCargadas ==> b
    ensures loading && !ingredientesCargados ==> b
  {
    loading && (!ordenesCargadas || !ingredientesCargados)
  }

  datatype Pantalla =
    | Cargando
    | Vacia(mensaje: string)
    | Estadisticas(ordenesFiltradas: seq<Orden>, ingredientesBajos: seq<PlainIngrediente>)

  /** The page for the given context and date bounds. */
  function Mostrar(
    ordenes: seq<Orden>, ingredientes: seq<PlainIngrediente>,
    loading: bool, ordenesCargadas: bool, ingredientesCargados: bool,
    fechaInicio: string, fechaFin: string): (p: Pantalla)
    ensures p.Cargando? <==> MuestraCargando(loading, ordenesCargadas, ingredientesCargados)
    ensures p.Vacia? ==> |OrdenesFiltradas(ordenes, fechaInicio, fechaFin)| == 0
    ensures p.Vacia? ==> (p.mensaje == SinOrdenes <==> |ordenes| == 0)
    ensures p.Vacia? ==> (p.mensaje == SinOrdenes || p.mensaje == SinOrdenesEnRango)
    ensures p.Estadisticas? ==>
      && p.ordenesFiltradas == OrdenesFiltradas(ordenes, fechaInicio, fechaFin)
      && |p.ordenesFiltradas| > 0
      && p.ingredientesBajos == IngredientesBajos(ingredientes)
  {
    if MuestraCargando(loading, ordenesCargadas, ingredientesCargados) then Cargando
    else
      var filtradas := OrdenesFiltradas(ordenes, fechaInicio, fechaFin);
      if |filtradas| == 0 then
        Vacia(if |ordenes| == 0 then SinOrdenes else SinOrdenesEnRango)
      else Estadisticas(filtradas, IngredientesBajos(ingredientes))
  }

  /**
   * "None in range" appears only with both bounds set, some orders present
   * and none of them inside the range.
   */
  lemma SinOrdenesEnRangoMeans(
    ordenes: seq<Orden>, ingredientes: seq<PlainIngrediente>,
    loading: bool, ordenesCargadas: bool, ingredientesCargados: bool,
    fechaInicio: string, fechaFin: string)
    ensures
      (Mostrar(ordenes, ingredientes, loading, ordenesCargadas, ingredientesCargados, fechaInicio, fechaFin)
         == Vacia(SinOrdenesEnRango))
      <==>
      (&& !MuestraCargando(loading, ordenesCargadas, ingredientesCargados)
      && fechaInicio != "" && fechaFin != ""
      && |ordenes| > 0
      && forall k :: 0 <= k < |ordenes| ==> !(LexLe(fechaInicio, ordenes[k].fecha) && LexLe(ordenes[k].fecha, fechaFin)))
  {
    var r := OrdenesFiltradas(ordenes, fechaInicio, fechaFin);
    if fechaInicio != "" && fechaFin != "" {
      if |r| > 0 {
        assert r[0] in r;
      }
      forall k | 0 <= k < |ordenes| && LexLe(fechaInicio, ordenes[k].fecha) && LexLe(ordenes[k].fecha, fechaFin)
        ensures |r| > 0
      {
        assert ordenes[k] in r;
      }
    }
    assert SinOrdenes != SinOrdenesEnRango;
  }

  /** Once loaded, with orders and no full range, the page always shows every order. */
  lemma SinRangoMuestraTodo(
    ordenes: seq<Orden>, ingredientes: seq<PlainIngrediente>,
    loading: bool, fechaInicio: string, fechaFin: string)
    requires |ordenes| > 0
    requires fechaInicio == "" || fechaFin == ""
    ensures Mostrar(ordenes, ingredientes, loading, true, true, fechaInicio, fechaFin)
      == Estadisticas(ordenes, IngredientesBajos(ingredientes))
  {
  }
}
