/**
 * `Array.prototype.sort` with a comparator: a stable sort, written here as an
 * insertion sort. `le(a, b)` says that `a` may stand before `b`.
 */
module Sorting {

  ghost predicate Total<T(!new)>(le: (T, T) -> bool) {
    forall a: T, b: T :: le(a, b) || le(b, a)
  }

  ghost predicate Transitive<T(!new)>(le: (T, T) -> bool) {
    forall a: T, b: T, c: T :: le(a, b) && le(b, c) ==> le(a, c)
  }

  predicate Sorted<T>(s: seq<T>, le: (T, T) -> bool) {
    forall i, j :: 0 <= i < j < |s| ==> le(s[i], s[j])
  }

  /** Puts `x` after every element that may stand before it (so after its equals, keeping input order). */
  function Insert<T(!new)>(s: seq<T>, x: T, le: (T, T) -> bool): (r: seq<T>)
    ensures |r| == |s| + 1
    ensures multiset(r) == multiset(s) + multiset{x}
    ensures Total(le) && Transitive(le) && Sorted(s, le) ==> Sorted(r, le)
  {
    if |s| == 0 then [x]
    else
      var last := s[|s| - 1];
      if le(last, x) then
        assert Total(le) && Transitive(le) && Sorted(s, le) ==> Sorted(s + [x], le) by {
          if Total(le) && Transitive(le) && Sorted(s, le) {
            forall i, j | 0 <= i < j < |s| + 1 ensures le((s + [x])[i], (s + [x])[j]) {
              if j == |s| && i < |s| - 1 {
                assert le(s[i], last);
              }
            }
          }
        }
        s + [x]
      else
        var init := s[..|s| - 1];
        assert s == init + [last];
        var r' := Insert(init, x, le);
        InsertBelow(init, x, last, r', le);
        r' + [last]
  }

  /** The step of Insert that moves `x` below `last`. */
  lemma InsertBelow<T(!new)>(init: seq<T>, x: T, last: T, r': seq<T>, le: (T, T) -> bool)
    requires !le(last, x)
    requires multiset(r') == multiset(init) + multiset{x}
    requires Total(le) && Transitive(le) && Sorted(init + [last], le) ==> Sorted(r', le)
    ensures Total(le) && Transitive(le) && Sorted(init + [last], le) ==> Sorted(r' + [last], le)
  {
    if Total(le) && Transitive(le) && Sorted(init + [last], le) {
      var s := init + [last];
      forall k | 0 <= k < |r'| ensures le(r'[k], last) {
        assert r'[k] in multiset(r');
        if r'[k] != x {
          assert r'[k] in multiset(init);
          var m :| 0 <= m < |init| && init[m] == r'[k];
          assert s[m] == init[m] && s[|s| - 1] == last;
        }
      }
      var r := r' + [last];
      forall i, j | 0 <= i < j < |r| ensures le(r[i], r[j]) {
        if j == |r'| {
          assert le(r'[i], last);
        } else {
          assert le(r'[i], r'[j]);
        }
      }
    }
  }

  function Sort<T(!new)>(xs: seq<T>, le: (T, T) -> bool): (r: seq<T>)
    ensures |r| == |xs|
    ensures multiset(r) == multiset(xs)
    ensures Total(le) && Transitive(le) ==> Sorted(r, le)
  {
    if |xs| == 0 then []
    else
      assert xs == xs[..|xs| - 1] + [xs[|xs| - 1]];
      Insert(Sort(xs[..|xs| - 1], le), xs[|xs| - 1], le)
  }

  /** The elements of `s` that `le` cannot tell apart from `e`, in their order in `s`. */
  function Ties<T>(s: seq<T>, e: T, le: (T, T) -> bool): seq<T> {
    if |s| == 0 then []
    else Ties(s[..|s| - 1], e, le) + (if le(e, s[|s| - 1]) && le(s[|s| - 1], e) then [s[|s| - 1]] else [])
  }

  lemma TiesSnoc<T>(s: seq<T>, x: T, e: T, le: (T, T) -> bool)
    ensures Ties(s + [x], e, le) == Ties(s, e, le) + (if le(e, x) && le(x, e) then [x] else [])
  {
    assert (s + [x])[..|s|] == s;
  }

  /** Inserting `x` puts it after every element equivalent to it. */
  lemma {:induction false} InsertStable<T(!new)>(s: seq<T>, x: T, e: T, le: (T, T) -> bool)
    requires Total(le) && Transitive(le)
    ensures Ties(Insert(s, x, le), e, le) == Ties(s, e, le) + (if le(e, x) && le(x, e) then [x] else [])
  {
    if |s| == 0 {
      TiesSnoc([], x, e, le);
      assert [] + [x] == [x];
    } else {
      var last := s[|s| - 1];
      var init := s[..|s| - 1];
      assert s == init + [last];
      if le(last, x) {
        TiesSnoc(s, x, e, le);
      } else {
        var r' := Insert(init, x, le);
        InsertStable(init, x, e, le);
        TiesSnoc(r', last, e, le);
        TiesSnoc(init, last, e, le);
        assert !(le(e, x) && le(x, e) && le(e, last) && le(last, e));
      }
    }
  }

  /**
   * Stability: the elements the comparator cannot tell apart keep their
   * input order.
   */
  lemma {:induction false} SortStable<T(!new)>(xs: seq<T>, e: T, le: (T, T) -> bool)
    requires Total(le) && Transitive(le)
    ensures Ties(Sort(xs, le), e, le) == Ties(xs, e, le)
  {
    if |xs| > 0 {
      var init := xs[..|xs| - 1];
      assert xs == init + [xs[|xs| - 1]];
      SortStable(init, e, le);
      InsertStable(Sort(init, le), xs[|xs| - 1], e, le);
      TiesSnoc(init, xs[|xs| - 1], e, le);
    }
  }

  /** The first `n` elements of a sorted sequence stand before all the others. */
  lemma SortedPrefix<T>(s: seq<T>, n: nat, le: (T, T) -> bool)
    requires Sorted(s, le) && n <= |s|
    ensures Sorted(s[..n], le)
    ensures forall i, j :: 0 <= i < n <= j < |s| ==> le(s[i], s[j])
  {
  }
}
