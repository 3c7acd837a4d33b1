/**
 * The inventory screen: the category and name filters, the low-stock
 * count, and the eight-per-page pagination with its page state.
 */
module Inventario {
  import opened Wrappers
  import opened Text
  import opened Domain
  import opened Aggregate

  const PageSize := 8

  /** "todos" keeps everything; otherwise the category must match ignoring case. */
  function PorCategoria(ingredientes: seq<PlainIngrediente>, categoriaActiva: string): (r: seq<PlainIngrediente>)
    ensures categoriaActiva == "todos" ==> r == ingredientes
    ensures categoriaActiva != "todos" ==>
      forall x :: x in r <==> x in ingredientes && ToLower(x.categoria) == ToLower(categoriaActiva)
    ensures SubsequenceOf(r, ingredientes)
  {
    var enCategoria := (x: PlainIngrediente) => ToLower(x.categoria) == ToLower(categoriaActiva);
    FilterSubsequence(ingredientes, enCategoria);
    KeepAll(ingredientes);
    if categoriaActiva == "todos" then ingredientes else Filter(ingredientes, enCategoria)
  }

  /** A blank query keeps everything; otherwise the lowercased name must contain the trimmed, lowercased query. */
  function PorBusqueda(ingredientes: seq<PlainIngrediente>, query: string): (r: seq<PlainIngrediente>)
    ensures Trim(query) == "" ==> r == ingredientes
    ensures Trim(query) != "" ==>
      forall x :: x in r <==> x in ingredientes && Includes(ToLower(x.nombre), ToLower(Trim(query)))
    ensures SubsequenceOf(r, ingredientes)
  {
    var q := ToLower(Trim(query));
    var coincide := (x: PlainIngrediente) => Includes(ToLower(x.nombre), q);
    FilterSubsequence(ingredientes, coincide);
    KeepAll(ingredientes);
    if q == "" then ingredientes else Filter(ingredientes, coincide)
  }

  lemma KeepAll(xs: seq<PlainIngrediente>)
    ensures SubsequenceOf(xs, xs)
  {
    var todos := (x: PlainIngrediente) => true;
    FilterAll(xs, todos);
    FilterSubsequence(xs, todos);
  }

  function IsBajo(x: PlainIngrediente): bool {
    x.cantidad <= x.minimo
  }

  /** `ingredientesBajos`: counted over every ingredient, whatever the filters. */
  function IngredientesBajos(ingredientes: seq<PlainIngrediente>): (n: nat)
    ensures n <= |ingredientes|
    ensures n == |ingredientes| <==> forall k :: 0 <= k < |ingredientes| ==> IsBajo(ingredientes[k])
    ensures n == 0 <==> forall k :: 0 <= k < |ingredientes| ==> !IsBajo(ingredientes[k])
  {
    CountLow(ingredientes);
    |Filter(ingredientes, IsBajo)|
  }

  lemma {:induction false} CountLow(xs: seq<PlainIngrediente>)
    ensures |Filter(xs, IsBajo)| == |xs| <==> forall k :: 0 <= k < |xs| ==> IsBajo(xs[k])
    ensures |Filter(xs, IsBajo)| == 0 <==> forall k :: 0 <= k < |xs| ==> !IsBajo(xs[k])
  {
    if |xs| > 0 {
      var init := xs[..|xs| - 1];
      CountLow(init);
      assert forall k :: 0 <= k < |xs| - 1 ==> xs[k] == init[k];
      assert |Filter(init, IsBajo)| <= |init|;
    }
  }

  /** `Math.max(1, Math.ceil(n / 8))`. */
  function TotalPages(n: nat): (t: nat)
    ensures t >= 1
    ensures PageSize * t >= n
    ensures n > 0 ==> PageSize * (t - 1) < n
  {
    if n == 0 then 1 else (n + PageSize - 1) / PageSize
  }

  /** The page shown: the requested page clamped into [1, totalPages]. */
  function ClampPage(currentPage: int, totalPages: nat): (p: int)
    requires totalPages >= 1
    ensures 1 <= p <= totalPages
    ensures 1 <= currentPage <= totalPages ==> p == currentPage
  {
    if currentPage < 1 then 1 else if currentPage > totalPages then totalPages else currentPage
  }

  function MinNat(a: nat, b: nat): nat {
    if a <= b then a else b
  }

  /** `slice((page - 1) * 8, page * 8)`, with JavaScript's clamping at the end. */
  function Page<T>(xs: seq<T>, page: nat): (r: seq<T>)
    requires page >= 1
    ensures |r| <= PageSize
    ensures var start := MinNat((page - 1) * PageSize, |xs|);
      r == xs[start..MinNat(start + PageSize, |xs|)]
  {
    var start := MinNat((page - 1) * PageSize, |xs|);
    xs[start..MinNat(start + PageSize, |xs|)]
  }

  /** The rows on screen for the current filters and page. */
  function Visible(ingredientes: seq<PlainIngrediente>, categoriaActiva: string, query: string, currentPage: int)
    : (r: seq<PlainIngrediente>)
    ensures |r| <= PageSize
    ensures forall x :: x in r ==> x in PorBusqueda(PorCategoria(ingredientes, categoriaActiva), query)
  {
    var lista := PorBusqueda(PorCategoria(ingredientes, categoriaActiva), query);
    Page(lista, ClampPage(currentPage, TotalPages(|lista|)))
  }

  /** Pages 1..k laid end to end. */
  function PagesUpTo<T>(xs: seq<T>, k: nat): seq<T> {
    if k == 0 then [] else PagesUpTo(xs, k - 1) + Page(xs, k)
  }

  lemma {:induction false} PagesUpToPrefix<T>(xs: seq<T>, k: nat)
    ensures PagesUpTo(xs, k) == xs[..MinNat(k * PageSize, |xs|)]
  {
    if k > 0 {
      PagesUpToPrefix(xs, k - 1);
      var a := MinNat((k - 1) * PageSize, |xs|);
      var b := MinNat(a + PageSize, |xs|);
      assert b == MinNat(k * PageSize, |xs|);
      assert xs[..a] + xs[a..b] == xs[..b];
    }
  }

  /** The pages partition the list: laid end to end they give it back, each row once, in order. */
  lemma PagesPartition<T>(xs: seq<T>)
    ensures PagesUpTo(xs, TotalPages(|xs|)) == xs
  {
    PagesUpToPrefix(xs, TotalPages(|xs|));
  }

  /** A page is one contiguous block: row `i` of page `p` is row `(p - 1) * 8 + i` of the list. */
  lemma PageIsContiguous<T>(xs: seq<T>, page: nat, i: nat)
    requires page >= 1 && i < |Page(xs, page)|
    ensures (page - 1) * PageSize + i < |xs| && Page(xs, page)[i] == xs[(page - 1) * PageSize + i]
  {
  }

  /** The screen state the handlers change. */
  class InventarioView {
    var categoriaActiva: string
    var query: string
    var currentPage: int

    constructor()
      ensures categoriaActiva == "todos" && query == "" && currentPage == 1
    {
      categoriaActiva := "todos";
      query := "";
      currentPage := 1;
    }

    /** `onQueryOrFilterChange`: takes whichever of the two was given and goes back to page 1. */
    method OnQueryOrFilterChange(newQuery: Option<string>, newCategoria: Option<string>)
      modifies this
      ensures query == (if newQuery.Some? then newQuery.value else old(query))
      ensures categoriaActiva == (if newCategoria.Some? then newCategoria.value else old(categoriaActiva))
      ensures currentPage == 1
    {
      if newQuery.Some? {
        query := newQuery.value;
      }
      if newCategoria.Some? {
        categoriaActiva := newCategoria.value;
      }
      currentPage := 1;
    }

    /** "Anterior": one page back, never below 1. */
    method Anterior()
      modifies this
      ensures currentPage == if old(currentPage) - 1 >= 1 then old(currentPage) - 1 else 1
      ensures currentPage >= 1
      ensures query == old(query) && categoriaActiva == old(categoriaActiva)
    {
      currentPage := if currentPage - 1 >= 1 then currentPage - 1 else 1;
    }

    /** "Siguiente": one page on, never above the page count. */
    method Siguiente(totalPages: nat)
      modifies this
      ensures currentPage == if old(currentPage) + 1 <= totalPages then old(currentPage) + 1 else totalPages
      ensures currentPage <= totalPages
      ensures 1 <= old(currentPage) ==> 1 <= currentPage || totalPages == 0
      ensures query == old(query) && categoriaActiva == old(categoriaActiva)
    {
      currentPage := if currentPage + 1 <= totalPages then currentPage + 1 else totalPages;
    }
  }
}
