/**
 * `Array.from(new Set(xs)).sort()` on strings: the distinct values in
 * first-occurrence order, then sorted by the default comparison.
 */
module StringSets {
  import opened Text
  import opened Aggregate
  import opened Sorting

  function Same(s: string): string {
    s
  }

  /** `Array.from(new Set(xs))`: a `Set` iterates in insertion order. */
  function Dedup(xs: seq<string>): (r: seq<string>)
    ensures Distinct(r)
    ensures forall s :: s in r <==> s in xs
  {
    var r := Keys(xs, Same);
    assert forall s :: s in r <==> exists i :: 0 <= i < |xs| && Same(xs[i]) == s;
    r
  }

  lemma LexLeIsOrder()
    ensures Total(LexLe) && Transitive(LexLe)
  {
    forall a, b ensures LexLe(a, b) || LexLe(b, a) {
      LexLeTotal(a, b);
    }
    forall a, b, c | LexLe(a, b) && LexLe(b, c) ensures LexLe(a, c) {
      LexLeTransitive(a, b, c);
    }
  }

  /** The distinct values, ascending. */
  function SortedDistinct(xs: seq<string>): (r: seq<string>)
    ensures Distinct(r)
    ensures forall s :: s in r <==> s in xs
    ensures Sorted(r, LexLe)
  {
    var d := Dedup(xs);
    var r := Sort(d, LexLe);
    LexLeIsOrder();
    PermutationKeepsDistinct(r, d);
    r
  }
}
