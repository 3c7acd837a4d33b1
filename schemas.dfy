/**
 * The request-body schemas. A body is accepted exactly when its list of
 * issues is empty; every failed rule contributes one issue, in field order,
 * with the path of the offending field and the schema's message.
 */
module Schemas {
  import opened Wrappers

  datatype PathKey = Key(name: string) | Index(i: nat)

  datatype Issue = Issue(path: seq<PathKey>, message: string)

  /** One rule: no issue when it holds, one issue at `path` when it fails. */
  function Rule(holds: bool, path: seq<PathKey>, message: string): (r: seq<Issue>)
    ensures holds <==> r == []
    ensures !holds ==> r == [Issue(path, message)]
  {
    if holds then [] else [Issue(path, message)]
  }

  /** A JSON number that is an integer. */
  predicate IsInteger(x: real) {
    x == x.Floor as real
  }

  datatype IngredienteInput = IngredienteInput(
    id: string,
    nombre: string,
    cantidad: real,
    unidad: string,
    minimo: real,
    categoria: Option<string>)

  predicate IngredienteValid(b: IngredienteInput) {
    |b.id| >= 1 && |b.nombre| >= 1 && b.cantidad >= 0.0 && |b.unidad| >= 1 && b.minimo >= 0.0
  }

  function IngredienteIssues(b: IngredienteInput): (r: seq<Issue>)
    ensures r == [] <==> IngredienteValid(b)
    ensures |r| <= 5
    ensures forall k :: 0 <= k < |r| ==> |r[k].path| == 1
  {
    Rule(|b.id| >= 1, [Key("id")], "El ID es requerido")
    + Rule(|b.nombre| >= 1, [Key("nombre")], "El nombre es requerido")
    + Rule(b.cantidad >= 0.0, [Key("cantidad")], "La cantidad debe ser mayor o igual a 0")
    + Rule(|b.unidad| >= 1, [Key("unidad")], "La unidad es requerida")
    + Rule(b.minimo >= 0.0, [Key("minimo")], "El mínimo debe ser mayor o igual a 0")
  }

  /** The schema does not relate the stock to its minimum: a body already at low stock is accepted. */
  lemma LowStockBodyAccepted()
    ensures var b := IngredienteInput("x", "Queso", 3.0, "unidades", 10.0, None);
      IngredienteIssues(b) == [] && b.cantidad < b.minimo
  {
  }

  datatype RestockInput = RestockInput(cantidad: real)

  function RestockIssues(b: RestockInput): (r: seq<Issue>)
    ensures r == [] <==> b.cantidad > 0.0
    ensures r != [] ==> r == [Issue([Key("cantidad")], "La cantidad debe ser mayor a 0")]
  {
    Rule(b.cantidad > 0.0, [Key("cantidad")], "La cantidad debe ser mayor a 0")
  }

  datatype RecetaIngredienteInput = RecetaIngredienteInput(ingredienteId: string, cantidad: real)

  datatype RecetaInput = RecetaInput(
    id: string,
    nombre: string,
    categoria: string,
    precio: real,
    ingredientes: seq<RecetaIngredienteInput>)

  predicate RecetaIngredienteValid(x: RecetaIngredienteInput) {
    |x.ingredienteId| >= 1 && x.cantidad > 0.0
  }

  predicate RecetaValid(b: RecetaInput) {
    && |b.id| >= 1 && |b.nombre| >= 1 && |b.categoria| >= 1 && b.precio > 0.0
    && |b.ingredientes| >= 1
    && forall k :: 0 <= k < |b.ingredientes| ==> RecetaIngredienteValid(b.ingredientes[k])
  }

  /** The issues of one element of the `ingredientes` array, at position `k`. */
  function ElementIssues(x: RecetaIngredienteInput, k: nat): (r: seq<Issue>)
    ensures r == [] <==> RecetaIngredienteValid(x)
    ensures forall j :: 0 <= j < |r| ==> |r[j].path| == 3 && r[j].path[..2] == [Key("ingredientes"), Index(k)]
  {
    Rule(|x.ingredienteId| >= 1, [Key("ingredientes"), Index(k), Key("ingredienteId")], "El ID del ingrediente es requerido")
    + Rule(x.cantidad > 0.0, [Key("ingredientes"), Index(k), Key("cantidad")], "La cantidad debe ser mayor a 0")
  }

  /** The issues of the elements `xs`, which sit in the array from position `from` on. */
  function ElementsIssues(xs: seq<RecetaIngredienteInput>, from: nat): (r: seq<Issue>)
    ensures r == [] <==> forall k :: 0 <= k < |xs| ==> RecetaIngredienteValid(xs[k])
    ensures forall j :: 0 <= j < |r| ==>
      && |r[j].path| == 3 && r[j].path[0] == Key("ingredientes")
      && r[j].path[1].Index? && from <= r[j].path[1].i < from + |xs|
    decreases |xs|
  {
    if xs == [] then []
    else
      var head := ElementIssues(xs[0], from);
      var tail := ElementsIssues(xs[1..], from + 1);
      assert forall k :: 1 <= k < |xs| ==> xs[k] == xs[1..][k - 1];
      head + tail
  }

  function RecetaIssues(b: RecetaInput): (r: seq<Issue>)
    ensures r == [] <==> RecetaValid(b)
  {
    Rule(|b.id| >= 1, [Key("id")], "El ID es requerido")
    + Rule(|b.nombre| >= 1, [Key("nombre")], "El nombre es requerido")
    + Rule(|b.categoria| >= 1, [Key("categoria")], "La categoría es requerida")
    + Rule(b.precio > 0.0, [Key("precio")], "El precio debe ser mayor a 0")
    + ElementsIssues(b.ingredientes, 0)
    + Rule(|b.ingredientes| >= 1, [Key("ingredientes")], "Debe tener al menos un ingrediente")
  }

  datatype OrdenInput = OrdenInput(recetaId: string, cantidad: real)

  predicate OrdenValid(b: OrdenInput) {
    |b.recetaId| >= 1 && b.cantidad > 0.0 && IsInteger(b.cantidad)
  }

  /** Both number rules of `cantidad` are checked, so a negative fraction gets two issues. */
  function OrdenIssues(b: OrdenInput): (r: seq<Issue>)
    ensures r == [] <==> OrdenValid(b)
    ensures |r| <= 3
  {
    Rule(|b.recetaId| >= 1, [Key("recetaId")], "El ID de la receta es requerido")
    + Rule(b.cantidad > 0.0, [Key("cantidad")], "La cantidad debe ser mayor a 0")
    + Rule(IsInteger(b.cantidad), [Key("cantidad")], "La cantidad debe ser un número entero")
  }

  lemma NegativeFractionTwoIssues()
    ensures |OrdenIssues(OrdenInput("r1", -1.5))| == 2
  {
    assert (-1.5).Floor == -2;
  }

  /** An accepted order quantity is a whole number of at least one. */
  lemma AcceptedOrdenQuantity(b: OrdenInput)
    requires OrdenIssues(b) == []
    ensures b.cantidad.Floor >= 1 && b.cantidad == b.cantidad.Floor as real
  {
  }
}
