/**
 * The restock dialog: the amount to add, its buttons and typed input,
 * the confirmation, and the preview of the new stock.
 */
module ModalReabastecer {
  import opened Wrappers
  import opened Domain

  const InitialAmount := 10

  /** The stock the dialog previews: current stock plus the amount to add. */
  function NuevaCantidad(ing: PlainIngrediente, cantidadAAgregar: int): int {
    ing.cantidad + cantidadAAgregar
  }

  predicate EsStockBajo(ing: PlainIngrediente) {
    ing.cantidad <= ing.minimo
  }

  /** The success mark: the ingredient is low now and would no longer be low after the restock. */
  predicate MuestraExito(ing: PlainIngrediente, cantidadAAgregar: int) {
    NuevaCantidad(ing, cantidadAAgregar) > ing.minimo && EsStockBajo(ing)
  }

  /** The mark shows exactly when the restock lifts a low ingredient out of the low set. */
  lemma ExitoIffLeavesLowSet(ing: PlainIngrediente, cantidadAAgregar: int)
    ensures MuestraExito(ing, cantidadAAgregar) <==>
      EsStockBajo(ing) && !EsStockBajo(ing.(cantidad := ing.cantidad + cantidadAAgregar))
  {
  }

  /** `Math.max(1, parseInt(text) || 1)`; `parsed` is what `parseInt` gave, `None` for NaN. */
  function TypedAmount(parsed: Option<int>): (a: int)
    ensures a >= 1
    ensures parsed.Some? && parsed.value >= 1 ==> a == parsed.value
    ensures parsed.None? || parsed.value <= 1 ==> a == 1
  {
    var v := if parsed.None? || parsed.value == 0 then 1 else parsed.value;
    if v >= 1 then v else 1
  }

  class RestockDialog {
    var cantidadAAgregar: int

    /** The amount never drops below 1. */
    ghost predicate Valid()
      reads this
    {
      cantidadAAgregar >= 1
    }

    constructor()
      ensures Valid() && cantidadAAgregar == InitialAmount
    {
      cantidadAAgregar := InitialAmount;
    }

    /** `incrementar`: exactly one more. */
    method Incrementar()
      requires Valid()
      modifies this
      ensures Valid() && cantidadAAgregar == old(cantidadAAgregar) + 1
    {
      cantidadAAgregar := cantidadAAgregar + 1;
    }

    /** `decrementar`: one fewer, never below 1. */
    method Decrementar()
      modifies this
      ensures Valid()
      ensures cantidadAAgregar == if old(cantidadAAgregar) - 1 >= 1 then old(cantidadAAgregar) - 1 else 1
    {
      cantidadAAgregar := if cantidadAAgregar - 1 >= 1 then cantidadAAgregar - 1 else 1;
    }

    /** The typed input. */
    method OnChange(parsed: Option<int>)
      modifies this
      ensures Valid() && cantidadAAgregar == TypedAmount(parsed)
    {
      cantidadAAgregar := TypedAmount(parsed);
    }

    /**
     * `handleConfirmar`: with a positive amount, reports `(id, amount)` to
     * the caller, resets the amount to 10 and closes; otherwise nothing.
     */
    method HandleConfirmar(ing: PlainIngrediente) returns (confirmado: Option<(string, int)>, cerrado: bool)
      modifies this
      ensures old(cantidadAAgregar) > 0 ==>
        confirmado == Some((ing.id, old(cantidadAAgregar))) && cerrado && cantidadAAgregar == InitialAmount
      ensures old(cantidadAAgregar) <= 0 ==> confirmado.None? && !cerrado && cantidadAAgregar == old(cantidadAAgregar)
      ensures old(Valid()) ==> confirmado.Some? && Valid()
    {
      if cantidadAAgregar > 0 {
        confirmado := Some((ing.id, cantidadAAgregar));
        cantidadAAgregar := InitialAmount;
        cerrado := true;
      } else {
        confirmado := None;
        cerrado := false;
      }
    }
  }
}
