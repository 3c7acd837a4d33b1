/**
 * The menu: the category filter over the recipes and the list of
 * categories offered to it.
 */
module Menu {
  import opened Text
  import opened Domain
  import opened Aggregate
  import opened Sorting
  import opened StringSets

  function EnCategoria(categoriaActiva: string): Receta -> bool {
    (receta: Receta) => ToLower(receta.categoria) == ToLower(categoriaActiva)
  }

  /** `recetasFiltradas`: "todos" keeps all; otherwise the categories must agree once lowercased. */
  function RecetasFiltradas(recetas: seq<Receta>, categoriaActiva: string): (r: seq<Receta>)
    ensures categoriaActiva == "todos" ==> r == recetas
    ensures categoriaActiva != "todos" ==>
      && SubsequenceOf(r, recetas)
      && forall x :: x in r <==> x in recetas && ToLower(x.categoria) == ToLower(categoriaActiva)
  {
    FilterSubsequence(recetas, EnCategoria(categoriaActiva));
    if categoriaActiva == "todos" then recetas else Filter(recetas, EnCategoria(categoriaActiva))
  }

  function CategoriasEnMinuscula(recetas: seq<Receta>): (r: seq<string>)
    ensures |r| == |recetas| && forall i :: 0 <= i < |recetas| ==> r[i] == ToLower(recetas[i].categoria)
  {
    seq(|recetas|, i requires 0 <= i < |recetas| => ToLower(recetas[i].categoria))
  }

  /** `categoriasDisponibles`: the distinct lowercased categories, ascending. */
  function CategoriasDisponibles(recetas: seq<Receta>): (r: seq<string>)
    ensures Distinct(r)
    ensures Sorted(r, LexLe)
    ensures forall c :: c in r <==> exists i :: 0 <= i < |recetas| && ToLower(recetas[i].categoria) == c
  {
    var cats := CategoriasEnMinuscula(recetas);
    var r := SortedDistinct(cats);
    assert forall c :: c in cats <==> exists i :: 0 <= i < |recetas| && ToLower(recetas[i].categoria) == c by {
      forall c | c in cats ensures exists i :: 0 <= i < |recetas| && ToLower(recetas[i].categoria) == c {
        var i :| 0 <= i < |cats| && cats[i] == c;
      }
    }
    r
  }

  /** Choosing any offered category other than "todos" shows at least one recipe, and only recipes of it. */
  lemma OfferedCategoryNonEmpty(recetas: seq<Receta>, c: string)
    requires c in CategoriasDisponibles(recetas)
    requires c != "todos"
    ensures |RecetasFiltradas(recetas, c)| > 0
    ensures forall x :: x in RecetasFiltradas(recetas, c) ==> ToLower(x.categoria) == c
  {
    var i :| 0 <= i < |recetas| && ToLower(recetas[i].categoria) == c;
    ToLowerIdempotent(recetas[i].categoria);
    assert recetas[i] in RecetasFiltradas(recetas, c);
    forall x | x in RecetasFiltradas(recetas, c) ensures ToLower(x.categoria) == c {
    }
  }

  /** Every recipe is kept when the filter is set to its own category, in any case. */
  lemma RecipeInOwnCategory(recetas: seq<Receta>, i: nat, categoriaActiva: string)
    requires i < |recetas|
    requires ToLower(categoriaActiva) == ToLower(recetas[i].categoria)
    ensures recetas[i] in RecetasFiltradas(recetas, categoriaActiva)
  {
  }
}
