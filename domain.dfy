/** The records the server stores and the client displays. */
module Domain {
  import opened Wrappers

  /** An ingredient document of the inventory collection. */
  datatype Ingrediente = Ingrediente(
    id: string,
    nombre: string,
    cantidad: int,
    unidad: string,
    minimo: int,
    categoria: Option<string>)

  /** The ingredient shape the alert service receives: the category is always present. */
  datatype PlainIngrediente = PlainIngrediente(
    id: string,
    nombre: string,
    cantidad: int,
    unidad: string,
    minimo: int,
    categoria: string)

  /** One requirement of a recipe: how much of an ingredient one unit consumes. */
  datatype RecetaIngrediente = RecetaIngrediente(ingredienteId: string, cantidad: int)

  datatype Receta = Receta(
    id: string,
    nombre: string,
    ingredientes: seq<RecetaIngrediente>,
    precio: real,
    categoria: string)

  /** A placed order, with the recipe's name and category copied in at creation. */
  datatype Orden = Orden(
    id: string,
    recetaId: string,
    recetaNombre: string,
    cantidad: int,
    fecha: string,
    hora: string,
    total: real,
    categoria: Option<string>)

  /** A write the store refuses: the unique index on `id` already holds this key. */
  datatype StoreError = DuplicateKey(key: string)

  /** The low-stock test used by the server and the client alike: at or below the minimum. */
  predicate IsLowStock(i: Ingrediente) {
    i.cantidad <= i.minimo
  }

  /** JavaScript's `s || fallback` on an optional string: absent or empty gives the fallback. */
  function OrElse(s: Option<string>, fallback: string): (r: string)
    ensures s.Some? && s.value != "" ==> r == s.value
    ensures s.None? || s.value == "" ==> r == fallback
  {
    if s.Some? && s.value != "" then s.value else fallback
  }
}
