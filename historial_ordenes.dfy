/**
 * The order history screen: the set of expanded days, the date and
 * category filters, the total, the grouping by `fecha` and the group keys
 * newest first.
 */
module HistorialOrdenes {
  import opened Wrappers
  import opened Text
  import opened Domain
  import opened Aggregate
  import opened Sorting
  import opened StringSets
  import Calculations

  /** The set after `toggleDia`: the date leaves if it was there and joins otherwise. */
  function Toggled(s: set<string>, fecha: string): (r: set<string>)
    ensures fecha in r <==> fecha !in s
    ensures forall other :: other != fecha ==> (other in r <==> other in s)
  {
    if fecha in s then s - {fecha} else s + {fecha}
  }

  /** Toggling a day twice puts the set back as it was. */
  lemma ToggleTwice(s: set<string>, fecha: string)
    ensures Toggled(Toggled(s, fecha), fecha) == s
  {
  }

  class HistorialView {
    var fechaInicio: string
    var fechaFin: string
    var categoriaActiva: string
    var diasExpandidos: set<string>

    constructor()
      ensures fechaInicio == "" && fechaFin == "" && categoriaActiva == "todos" && diasExpandidos == {}
    {
      fechaInicio := "";
      fechaFin := "";
      categoriaActiva := "todos";
      diasExpandidos := {};
    }

    /** `toggleDia`: a fresh copy of the set with the date flipped. */
    method ToggleDia(fecha: string)
      modifies this
      ensures diasExpandidos == Toggled(old(diasExpandidos), fecha)
      ensures fechaInicio == old(fechaInicio) && fechaFin == old(fechaFin) && categoriaActiva == old(categoriaActiva)
    {
      var nuevos := diasExpandidos;
      if fecha in nuevos {
        nuevos := nuevos - {fecha};
      } else {
        nuevos := nuevos + {fecha};
      }
      diasExpandidos := nuevos;
    }
  }

  function CategoriaText(o: Orden): string {
    if o.categoria.Some? then o.categoria.value else ""
  }

  function Categorias(ordenes: seq<Orden>): (r: seq<string>)
    ensures |r| == |ordenes| && forall k :: 0 <= k < |ordenes| ==> r[k] == CategoriaText(ordenes[k])
  {
    seq(|ordenes|, k requires 0 <= k < |ordenes| => CategoriaText(ordenes[k]))
  }

  function NonEmpty(c: string): bool {
    c != ""
  }

  /** `categoriasDisponibles`: the distinct non-empty categories. */
  function CategoriasDisponibles(ordenes: seq<Orden>): (r: seq<string>)
    ensures Distinct(r)
    ensures forall c :: c in r <==> c != "" && exists k :: 0 <= k < |ordenes| && ordenes[k].categoria == Some(c)
  {
    var cats := Categorias(ordenes);
    var kept := Filter(cats, NonEmpty);
    assert forall c :: c in kept <==> c in cats && c != "" by {
      forall c | c in cats && c != "" ensures c in kept {
        var k :| 0 <= k < |cats| && cats[k] == c;
      }
      forall c | c in kept ensures c != "" {
        var k :| 0 <= k < |kept| && kept[k] == c;
      }
    }
    assert forall c :: c != "" ==> (c in cats <==> exists k :: 0 <= k < |ordenes| && ordenes[k].categoria == Some(c)) by {
      forall c | c != "" && c in cats ensures exists k :: 0 <= k < |ordenes| && ordenes[k].categoria == Some(c) {
        var k :| 0 <= k < |cats| && cats[k] == c;
      }
    }
    Dedup(kept)
  }

  /** The inclusive date filter, by string comparison. */
  function EnRango(inicio: string, fin: string): Orden -> bool {
    (o: Orden) => LexLe(inicio, o.fecha) && LexLe(o.fecha, fin)
  }

  function EnCategoria(categoria: string): Orden -> bool {
    (o: Orden) => o.categoria == Some(categoria)
  }

  /** `ordenesFiltradas`: the dates apply only with both bounds set, the category unless "todos". */
  function OrdenesFiltradas(ordenes: seq<Orden>, fechaInicio: string, fechaFin: string, categoriaActiva: string)
    : (r: seq<Orden>)
    ensures SubsequenceOf(r, ordenes)
    ensures forall o :: o in r <==>
      && o in ordenes
      && (fechaInicio != "" && fechaFin != "" ==> LexLe(fechaInicio, o.fecha) && LexLe(o.fecha, fechaFin))
      && (categoriaActiva != "todos" ==> o.categoria == Some(categoriaActiva))
  {
    var porFecha := if fechaInicio != "" && fechaFin != "" then Filter(ordenes, EnRango(fechaInicio, fechaFin)) else ordenes;
    var r := if categoriaActiva != "todos" then Filter(porFecha, EnCategoria(categoriaActiva)) else porFecha;
    FilterSubsequence(ordenes, EnRango(fechaInicio, fechaFin));
    FilterSubsequence(ordenes, EnCategoria(categoriaActiva));
    FilterTwiceSubsequence(ordenes, EnRango(fechaInicio, fechaFin), EnCategoria(categoriaActiva));
    var todos := (o: Orden) => true;
    FilterAll(ordenes, todos);
    FilterSubsequence(ordenes, todos);
    r
  }

  /** `totalVentas` of the filtered orders. */
  function TotalVentas(filtradas: seq<Orden>): real {
    SumReal(filtradas, Calculations.Total)
  }

  function Fecha(o: Orden): string {
    o.fecha
  }

  /** `ordenesPorFecha`: one group per date, each keeping the orders of that date in list order. */
  method OrdenesPorFecha(filtradas: seq<Orden>) returns (grupos: map<string, seq<Orden>>)
    ensures forall f :: f in grupos <==> f in Keys(filtradas, Fecha)
    ensures forall f :: f in grupos ==> grupos[f] == Where(filtradas, Fecha, f)
  {
    grupos := map[];
    for i := 0 to |filtradas|
      invariant forall f :: f in grupos <==> f in Keys(filtradas[..i], Fecha)
      invariant forall f :: f in grupos ==> grupos[f] == Where(filtradas[..i], Fecha, f)
    {
      var o := filtradas[i];
      PrefixStep(filtradas, i, Fecha);
      if o.fecha !in grupos {
        WhereAbsent(filtradas[..i], Fecha, o.fecha);
        grupos := grupos[o.fecha := []];
      }
      grupos := grupos[o.fecha := grupos[o.fecha] + [o]];
    }
    assert filtradas[..|filtradas|] == filtradas;
  }

  /** Every filtered order is in the group of its own date and in no other. */
  lemma OneGroupEach(filtradas: seq<Orden>, i: nat)
    requires i < |filtradas|
    ensures filtradas[i] in Where(filtradas, Fecha, filtradas[i].fecha)
    ensures forall f :: f != filtradas[i].fecha ==> filtradas[i] !in Where(filtradas, Fecha, f)
  {
    InOwnGroup(filtradas, Fecha, i);
  }

  /** The day totals add up to `totalVentas`. */
  lemma DayTotalsSum(filtradas: seq<Orden>)
    ensures GroupsSumReal(filtradas, Fecha, Calculations.Total, Keys(filtradas, Fecha)) == TotalVentas(filtradas)
  {
    PartitionSumReal(filtradas, Fecha, Calculations.Total);
  }

  function Reverse<T>(s: seq<T>): (r: seq<T>)
    ensures |r| == |s| && forall i :: 0 <= i < |s| ==> r[i] == s[|s| - 1 - i]
  {
    seq(|s|, i requires 0 <= i < |s| => s[|s| - 1 - i])
  }

  function LexGe(a: string, b: string): bool {
    LexLe(b, a)
  }

  /** `Object.keys(grupos).sort().reverse()`: the dates, each once, newest first. */
  function FechasOrdenadas(filtradas: seq<Orden>): (r: seq<string>)
    ensures Distinct(r)
    ensures forall f :: f in r <==> exists k :: 0 <= k < |filtradas| && filtradas[k].fecha == f
    ensures Sorted(r, LexGe)
  {
    var keys := Keys(filtradas, Fecha);
    var asc := Sort(keys, LexLe);
    LexLeIsOrder();
    PermutationKeepsDistinct(asc, keys);
    var r := Reverse(asc);
    forall f ensures f in r <==> f in asc {
      if f in asc {
        var i :| 0 <= i < |asc| && asc[i] == f;
        assert r[|asc| - 1 - i] == f;
      }
    }
    r
  }
}
