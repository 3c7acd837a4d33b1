/**
 * The sequence vocabulary of the client's computations: order-preserving
 * filters, sums, and grouping by a string key with the groups' keys in the
 * order a JavaScript object keeps them (first insertion first).
 */
module Aggregate {

  // ---------------------------------------------------------------------
  // Filtering

  /** `xs.filter(p)`. */
  function Filter<T>(xs: seq<T>, p: T -> bool): (r: seq<T>)
    ensures |r| <= |xs|
    ensures forall k :: 0 <= k < |r| ==> p(r[k])
    ensures forall k :: 0 <= k < |xs| && p(xs[k]) ==> xs[k] in r
    ensures forall x :: x in r ==> x in xs
  {
    if |xs| == 0 then []
    else
      var init := xs[..|xs| - 1];
      assert forall k :: 0 <= k < |xs| - 1 ==> xs[k] == init[k];
      Filter(init, p) + (if p(xs[|xs| - 1]) then [xs[|xs| - 1]] else [])
  }

  /** The elements of `xs` at the positions `mask` marks, in order. */
  function Pick<T>(xs: seq<T>, mask: seq<bool>): seq<T>
    requires |mask| == |xs|
  {
    if |xs| == 0 then []
    else Pick(xs[..|xs| - 1], mask[..|xs| - 1]) + (if mask[|xs| - 1] then [xs[|xs| - 1]] else [])
  }

  /** `a` is `b` with some elements dropped and the rest kept in their order. */
  ghost predicate SubsequenceOf<T>(a: seq<T>, b: seq<T>) {
    exists mask: seq<bool> :: |mask| == |b| && Pick(b, mask) == a
  }

  function Mask<T>(xs: seq<T>, p: T -> bool): (m: seq<bool>)
    ensures |m| == |xs|
  {
    seq(|xs|, k requires 0 <= k < |xs| => p(xs[k]))
  }

  lemma {:induction false} FilterIsPick<T>(xs: seq<T>, p: T -> bool)
    ensures Filter(xs, p) == Pick(xs, Mask(xs, p))
  {
    if |xs| > 0 {
      var init := xs[..|xs| - 1];
      FilterIsPick(init, p);
      assert Mask(xs, p)[..|xs| - 1] == Mask(init, p);
    }
  }

  /** A filter keeps an order-preserving subsequence of its input. */
  lemma FilterSubsequence<T>(xs: seq<T>, p: T -> bool)
    ensures SubsequenceOf(Filter(xs, p), xs)
  {
    FilterIsPick(xs, p);
  }

  /** Filtering keeps everything exactly when every element passes. */
  lemma {:induction false} FilterAll<T>(xs: seq<T>, p: T -> bool)
    requires forall k :: 0 <= k < |xs| ==> p(xs[k])
    ensures Filter(xs, p) == xs
  {
    if |xs| > 0 {
      FilterAll(xs[..|xs| - 1], p);
      assert xs[..|xs| - 1] + [xs[|xs| - 1]] == xs;
    }
  }

  /** Two filters in a row keep what one filter on both conditions keeps. */
  lemma {:induction false} FilterFilter<T>(xs: seq<T>, p: T -> bool, q: T -> bool, pq: T -> bool)
    requires forall x :: pq(x) == (p(x) && q(x))
    ensures Filter(Filter(xs, p), q) == Filter(xs, pq)
  {
    if |xs| > 0 {
      var init, x := xs[..|xs| - 1], xs[|xs| - 1];
      FilterFilter(init, p, q, pq);
      var f := Filter(init, p);
      assert pq(x) == (p(x) && q(x));
      assert Filter(xs, pq) == Filter(init, pq) + (if pq(x) then [x] else []);
      if p(x) {
        assert Filter(xs, p) == f + [x];
        assert (f + [x])[..|f|] == f;
        assert Filter(f + [x], q) == Filter(f, q) + (if q(x) then [x] else []);
      } else {
        assert Filter(xs, p) == f;
      }
    }
  }

  lemma FilterTwiceSubsequence<T>(xs: seq<T>, p: T -> bool, q: T -> bool)
    ensures SubsequenceOf(Filter(Filter(xs, p), q), xs)
  {
    var pq := (x: T) => p(x) && q(x);
    FilterFilter(xs, p, q, pq);
    FilterSubsequence(xs, pq);
  }

  // ---------------------------------------------------------------------
  // Sums (`reduce((sum, x) => sum + f(x), 0)`)

  function SumInt<T>(xs: seq<T>, f: T -> int): int {
    if |xs| == 0 then 0 else SumInt(xs[..|xs| - 1], f) + f(xs[|xs| - 1])
  }

  function SumReal<T>(xs: seq<T>, f: T -> real): real {
    if |xs| == 0 then 0.0 else SumReal(xs[..|xs| - 1], f) + f(xs[|xs| - 1])
  }

  lemma SumIntSnoc<T>(xs: seq<T>, x: T, f: T -> int)
    ensures SumInt(xs + [x], f) == SumInt(xs, f) + f(x)
  {
    assert (xs + [x])[..|xs|] == xs;
  }

  lemma SumRealSnoc<T>(xs: seq<T>, x: T, f: T -> real)
    ensures SumReal(xs + [x], f) == SumReal(xs, f) + f(x)
  {
    assert (xs + [x])[..|xs|] == xs;
  }

  lemma {:induction false} SumIntNonNegative<T>(xs: seq<T>, f: T -> int)
    requires forall k :: 0 <= k < |xs| ==> f(xs[k]) >= 0
    ensures SumInt(xs, f) >= 0
  {
    if |xs| > 0 {
      SumIntNonNegative(xs[..|xs| - 1], f);
    }
  }

  lemma {:induction false} SumIntConcat<T>(p: seq<T>, q: seq<T>, f: T -> int)
    ensures SumInt(p + q, f) == SumInt(p, f) + SumInt(q, f)
    decreases |q|
  {
    if |q| == 0 {
      assert p + q == p;
    } else {
      var q' := q[..|q| - 1];
      assert p + q == (p + q') + [q[|q| - 1]];
      SumIntConcat(p, q', f);
      SumIntSnoc(p + q', q[|q| - 1], f);
    }
  }

  lemma {:induction false} SumRealConcat<T>(p: seq<T>, q: seq<T>, f: T -> real)
    ensures SumReal(p + q, f) == SumReal(p, f) + SumReal(q, f)
    decreases |q|
  {
    if |q| == 0 {
      assert p + q == p;
    } else {
      var q' := q[..|q| - 1];
      assert p + q == (p + q') + [q[|q| - 1]];
      SumRealConcat(p, q', f);
      SumRealSnoc(p + q', q[|q| - 1], f);
    }
  }

  /** Reordering the elements does not change their sum. */
  lemma {:induction false} SumIntPermutation<T>(a: seq<T>, b: seq<T>, f: T -> int)
    requires multiset(a) == multiset(b)
    ensures SumInt(a, f) == SumInt(b, f)
    decreases |a|
  {
    if |a| == 0 {
      assert |multiset(b)| == 0;
    } else {
      var x := a[|a| - 1];
      var a' := a[..|a| - 1];
      assert a == a' + [x];
      assert x in multiset(b);
      var i :| 0 <= i < |b| && b[i] == x;
      var b' := b[..i] + b[i + 1..];
      assert b == b[..i] + [x] + b[i + 1..];
      assert multiset(b) == multiset(b[..i]) + multiset{x} + multiset(b[i + 1..]);
      assert multiset(a) == multiset(a') + multiset{x};
      assert multiset(b') == multiset(b[..i]) + multiset(b[i + 1..]);
      assert multiset(b') == multiset(b) - multiset{x};
      assert multiset(a') == multiset(a) - multiset{x};
      SumIntPermutation(a', b', f);
      SumIntConcat(b[..i] + [x], b[i + 1..], f);
      SumIntConcat(b[..i], b[i + 1..], f);
      SumIntSnoc(b[..i], x, f);
    }
  }

  lemma {:induction false} SumRealPermutation<T>(a: seq<T>, b: seq<T>, f: T -> real)
    requires multiset(a) == multiset(b)
    ensures SumReal(a, f) == SumReal(b, f)
    decreases |a|
  {
    if |a| == 0 {
      assert |multiset(b)| == 0;
    } else {
      var x := a[|a| - 1];
      var a' := a[..|a| - 1];
      assert a == a' + [x];
      assert x in multiset(b);
      var i :| 0 <= i < |b| && b[i] == x;
      var b' := b[..i] + b[i + 1..];
      assert b == b[..i] + [x] + b[i + 1..];
      assert multiset(b) == multiset(b[..i]) + multiset{x} + multiset(b[i + 1..]);
      assert multiset(a) == multiset(a') + multiset{x};
      assert multiset(b') == multiset(b[..i]) + multiset(b[i + 1..]);
      assert multiset(b') == multiset(b) - multiset{x};
      assert multiset(a') == multiset(a) - multiset{x};
      SumRealPermutation(a', b', f);
      SumRealConcat(b[..i] + [x], b[i + 1..], f);
      SumRealConcat(b[..i], b[i + 1..], f);
      SumRealSnoc(b[..i], x, f);
    }
  }

  // ---------------------------------------------------------------------
  // Grouping by a string key

  predicate Distinct<T(==)>(s: seq<T>) {
    forall i, j :: 0 <= i < j < |s| ==> s[i] != s[j]
  }

  /** The list with `a` replaced by `b` where it occurs, every position kept. */
  function Renamed<T(==)>(s: seq<T>, a: T, b: T): (r: seq<T>)
    ensures |r| == |s|
    ensures forall k :: 0 <= k < |s| ==> r[k] == if s[k] == a then b else s[k]
    ensures a in s ==> b in r && (a != b ==> a !in r)
    ensures Distinct(s) && (b == a || b !in s) ==> Distinct(r)
  {
    seq(|s|, k requires 0 <= k < |s| => if s[k] == a then b else s[k])
  }

  /** The distinct keys of `xs`, in order of first occurrence. */
  function Keys<T>(xs: seq<T>, key: T -> string): (r: seq<string>)
    ensures Distinct(r)
    ensures forall k :: k in r <==> exists i :: 0 <= i < |xs| && key(xs[i]) == k
  {
    if |xs| == 0 then []
    else
      var init := xs[..|xs| - 1];
      var ks := Keys(init, key);
      var k := key(xs[|xs| - 1]);
      assert forall i :: 0 <= i < |xs| - 1 ==> xs[i] == init[i];
      if k in ks then ks else ks + [k]
  }

  /** The group of key `k`: the elements with that key, in input order. */
  function Where<T>(xs: seq<T>, key: T -> string, k: string): (r: seq<T>)
    ensures |r| <= |xs|
    ensures forall j :: 0 <= j < |r| ==> key(r[j]) == k
  {
    if |xs| == 0 then []
    else Where(xs[..|xs| - 1], key, k) + (if key(xs[|xs| - 1]) == k then [xs[|xs| - 1]] else [])
  }

  /** How the keys and groups of a prefix grow by one element. */
  lemma PrefixStep<T>(xs: seq<T>, i: nat, key: T -> string)
    requires i < |xs|
    ensures Keys(xs[..i + 1], key) ==
      if key(xs[i]) in Keys(xs[..i], key) then Keys(xs[..i], key) else Keys(xs[..i], key) + [key(xs[i])]
    ensures forall k :: Where(xs[..i + 1], key, k)
                     == Where(xs[..i], key, k) + (if key(xs[i]) == k then [xs[i]] else [])
  {
    assert xs[..i + 1][..i] == xs[..i];
  }

  lemma KeysSnoc<T>(xs: seq<T>, x: T, key: T -> string)
    ensures Keys(xs + [x], key) == if key(x) in Keys(xs, key) then Keys(xs, key) else Keys(xs, key) + [key(x)]
  {
    assert (xs + [x])[..|xs|] == xs;
  }

  /** One more element joins its own group only. */
  lemma WhereSnoc<T>(xs: seq<T>, x: T, key: T -> string, k: string)
    ensures Where(xs + [x], key, k) == Where(xs, key, k) + (if key(x) == k then [x] else [])
  {
    assert (xs + [x])[..|xs|] == xs;
  }

  /** A dictionary that gains the key of each visited element has exactly the keys met so far. */
  lemma KeysAfterVisit<T, V>(m: map<string, V>, r: map<string, V>, xs: seq<T>, x: T, key: T -> string)
    requires forall k :: k in m <==> k in Keys(xs, key)
    requires r.Keys == m.Keys + {key(x)}
    ensures forall k :: k in r <==> k in Keys(xs + [x], key)
  {
    assert (xs + [x])[..|xs|] == xs;
  }

  /** When every element has the same key, that key is the only one. */
  lemma {:induction false} KeysConstant<T>(xs: seq<T>, key: T -> string, k: string)
    requires |xs| > 0 && forall m :: 0 <= m < |xs| ==> key(xs[m]) == k
    ensures Keys(xs, key) == [k]
  {
    if |xs| > 1 {
      KeysConstant(xs[..|xs| - 1], key, k);
    }
  }

  lemma {:induction false} WhereAbsent<T>(xs: seq<T>, key: T -> string, k: string)
    requires k !in Keys(xs, key)
    ensures Where(xs, key, k) == []
  {
    if |xs| > 0 {
      WhereAbsent(xs[..|xs| - 1], key, k);
    }
  }

  /** Subsidiary sums: over a list of keys, the sum of each group's total. */
  function GroupsSumInt<T>(xs: seq<T>, key: T -> string, f: T -> int, ks: seq<string>): int {
    if |ks| == 0 then 0 else GroupsSumInt(xs, key, f, ks[..|ks| - 1]) + SumInt(Where(xs, key, ks[|ks| - 1]), f)
  }

  function GroupsSumReal<T>(xs: seq<T>, key: T -> string, f: T -> real, ks: seq<string>): real {
    if |ks| == 0 then 0.0 else GroupsSumReal(xs, key, f, ks[..|ks| - 1]) + SumReal(Where(xs, key, ks[|ks| - 1]), f)
  }

  /** Adding one element to the data adds its value to exactly one listed group (if its key is listed). */
  lemma {:induction false} GroupsSumIntSnoc<T>(xs: seq<T>, x: T, key: T -> string, f: T -> int, ks: seq<string>)
    requires Distinct(ks)
    ensures GroupsSumInt(xs + [x], key, f, ks) ==
      GroupsSumInt(xs, key, f, ks) + (if key(x) in ks then f(x) else 0)
  {
    var ys := xs + [x];
    assert ys[..|xs|] == xs;
    if |ks| > 0 {
      var init := ks[..|ks| - 1];
      GroupsSumIntSnoc(xs, x, key, f, init);
      var k := ks[|ks| - 1];
      if key(x) == k {
        SumIntSnoc(Where(xs, key, k), x, f);
        assert key(x) !in init;
      } else {
        assert Where(ys, key, k) == Where(xs, key, k);
      }
      assert key(x) in ks <==> key(x) in init || key(x) == k;
    }
  }

  lemma {:induction false} GroupsSumRealSnoc<T>(xs: seq<T>, x: T, key: T -> string, f: T -> real, ks: seq<string>)
    requires Distinct(ks)
    ensures GroupsSumReal(xs + [x], key, f, ks) ==
      GroupsSumReal(xs, key, f, ks) + (if key(x) in ks then f(x) else 0.0)
  {
    var ys := xs + [x];
    assert ys[..|xs|] == xs;
    if |ks| > 0 {
      var init := ks[..|ks| - 1];
      GroupsSumRealSnoc(xs, x, key, f, init);
      var k := ks[|ks| - 1];
      if key(x) == k {
        SumRealSnoc(Where(xs, key, k), x, f);
        assert key(x) !in init;
      } else {
        assert Where(ys, key, k) == Where(xs, key, k);
      }
      assert key(x) in ks <==> key(x) in init || key(x) == k;
    }
  }

  /** The first occurrence of a key opens a group holding just that element. */
  lemma NewKeyGroup<T>(init: seq<T>, x: T, key: T -> string, f: T -> int)
    requires key(x) !in Keys(init, key)
    ensures SumInt(Where(init + [x], key, key(x)), f) == f(x)
  {
    WhereAbsent(init, key, key(x));
    assert (init + [x])[..|init|] == init;
    assert Where(init + [x], key, key(x)) == [x];
    assert [x][..0] == [];
  }

  lemma NewKeyGroupReal<T>(init: seq<T>, x: T, key: T -> string, f: T -> real)
    requires key(x) !in Keys(init, key)
    ensures SumReal(Where(init + [x], key, key(x)), f) == f(x)
  {
    WhereAbsent(init, key, key(x));
    assert (init + [x])[..|init|] == init;
    assert Where(init + [x], key, key(x)) == [x];
    assert [x][..0] == [];
  }

  /** The groups partition the data: their sums add up to the sum over everything. */
  lemma {:induction false} PartitionSumInt<T>(xs: seq<T>, key: T -> string, f: T -> int)
    ensures GroupsSumInt(xs, key, f, Keys(xs, key)) == SumInt(xs, f)
  {
    if |xs| > 0 {
      var init, x := xs[..|xs| - 1], xs[|xs| - 1];
      assert xs == init + [x];
      PartitionSumInt(init, key, f);
      var ks := Keys(init, key);
      if key(x) in ks {
        GroupsSumIntSnoc(init, x, key, f, ks);
      } else {
        var ks' := ks + [key(x)];
        assert Keys(xs, key) == ks';
        GroupsSumIntSnoc(init, x, key, f, ks);
        assert ks'[..|ks|] == ks;
        NewKeyGroup(init, x, key, f);
      }
    }
  }

  lemma {:induction false} PartitionSumReal<T>(xs: seq<T>, key: T -> string, f: T -> real)
    ensures GroupsSumReal(xs, key, f, Keys(xs, key)) == SumReal(xs, f)
  {
    if |xs| > 0 {
      var init, x := xs[..|xs| - 1], xs[|xs| - 1];
      assert xs == init + [x];
      PartitionSumReal(init, key, f);
      var ks := Keys(init, key);
      if key(x) in ks {
        GroupsSumRealSnoc(init, x, key, f, ks);
      } else {
        var ks' := ks + [key(x)];
        assert Keys(xs, key) == ks';
        GroupsSumRealSnoc(init, x, key, f, ks);
        assert ks'[..|ks|] == ks;
        NewKeyGroupReal(init, x, key, f);
      }
    }
  }

  /** Every element sits in the group of its own key. */
  lemma {:induction false} InOwnGroup<T>(xs: seq<T>, key: T -> string, i: nat)
    requires i < |xs|
    ensures xs[i] in Where(xs, key, key(xs[i]))
  {
    if i < |xs| - 1 {
      InOwnGroup(xs[..|xs| - 1], key, i);
    }
  }

  lemma {:induction false} WhereNone<T>(xs: seq<T>, key: T -> string, k: string)
    requires forall m :: 0 <= m < |xs| ==> key(xs[m]) != k
    ensures Where(xs, key, k) == []
  {
    if |xs| > 0 {
      WhereNone(xs[..|xs| - 1], key, k);
    }
  }

  /** The group of a key starts with the element where that key first occurs. */
  lemma {:induction false} WhereHead<T>(xs: seq<T>, key: T -> string, j: nat)
    requires j < |xs|
    requires forall m :: 0 <= m < j ==> key(xs[m]) != key(xs[j])
    ensures |Where(xs, key, key(xs[j]))| > 0 && Where(xs, key, key(xs[j]))[0] == xs[j]
  {
    var init := xs[..|xs| - 1];
    var k := key(xs[j]);
    if j == |xs| - 1 {
      WhereNone(init, key, k);
    } else {
      assert init[j] == xs[j];
      WhereHead(init, key, j);
    }
  }

  function One<T>(x: T): int {
    1
  }

  lemma {:induction false} SumOneIsLength<T>(xs: seq<T>)
    ensures SumInt(xs, One) == |xs|
  {
    if |xs| > 0 {
      SumOneIsLength(xs[..|xs| - 1]);
      assert One(xs[|xs| - 1]) == 1;
    }
  }

  // ---------------------------------------------------------------------
  // Distinctness and cardinality

  /** Filtering keeps distinct keys distinct. */
  lemma {:induction false} FilterKeepsKeysDistinct<T>(xs: seq<T>, p: T -> bool, key: T -> string)
    requires forall i, j :: 0 <= i < j < |xs| ==> key(xs[i]) != key(xs[j])
    ensures forall i, j :: 0 <= i < j < |Filter(xs, p)| ==> key(Filter(xs, p)[i]) != key(Filter(xs, p)[j])
  {
    if |xs| > 0 {
      var init := xs[..|xs| - 1];
      FilterKeepsKeysDistinct(init, p, key);
      var fi := Filter(init, p);
      forall k | 0 <= k < |fi| ensures key(fi[k]) != key(xs[|xs| - 1]) {
        assert fi[k] in init;
        var m :| 0 <= m < |init| && init[m] == fi[k];
        assert xs[m] == init[m];
      }
      var r := Filter(xs, p);
      assert r == fi + (if p(xs[|xs| - 1]) then [xs[|xs| - 1]] else []);
      forall i, j | 0 <= i < j < |r| ensures key(r[i]) != key(r[j]) {
        if j == |fi| {
          assert r[j] == xs[|xs| - 1];
          assert r[i] == fi[i];
          assert key(fi[i]) != key(xs[|xs| - 1]);
        } else {
          assert r[i] == fi[i] && r[j] == fi[j];
          assert key(fi[i]) != key(fi[j]);
        }
      }
    }
  }

  function ToSet<T(==)>(s: seq<T>): set<T> {
    set x | x in s
  }

  /** A sequence has as many distinct elements as elements exactly when it repeats none. */
  lemma {:induction false} ToSetCardinality<T>(s: seq<T>)
    ensures |ToSet(s)| <= |s|
    ensures |ToSet(s)| == |s| <==> Distinct(s)
  {
    if |s| > 0 {
      var init, x := s[..|s| - 1], s[|s| - 1];
      ToSetCardinality(init);
      assert s == init + [x];
      assert ToSet(s) == ToSet(init) + {x};
      if x in init {
        assert ToSet(s) == ToSet(init);
        var m :| 0 <= m < |init| && init[m] == x;
        assert s[m] == s[|s| - 1];
      } else {
        assert x !in ToSet(init);
        if Distinct(init) {
          forall i, j | 0 <= i < j < |s| ensures s[i] != s[j] {
            if j < |s| - 1 {
              assert s[i] == init[i] && s[j] == init[j];
            } else {
              assert s[i] in init;
            }
          }
        }
        if Distinct(s) {
          forall i, j | 0 <= i < j < |init| ensures init[i] != init[j] {
            assert s[i] == init[i] && s[j] == init[j];
          }
        }
      }
    }
  }

  /** A subset as large as its superset is the whole superset. */
  lemma SubsetOfEqualSize<T>(a: set<T>, b: set<T>)
    requires a <= b && |a| >= |b|
    ensures a == b
  {
    assert |b - a| == |b| - |a|;
  }

  /** Reordering a list that repeats nothing repeats nothing. */
  lemma PermutationKeepsDistinct<T>(a: seq<T>, b: seq<T>)
    requires multiset(a) == multiset(b) && Distinct(b)
    ensures Distinct(a) && forall s: T :: s in a <==> s in b
  {
    forall s: T ensures s in a <==> s in b {
      assert s in a <==> s in multiset(a);
      assert s in b <==> s in multiset(b);
    }
    assert ToSet(a) == ToSet(b);
    assert |a| == |multiset(a)| == |multiset(b)| == |b|;
    ToSetCardinality(a);
    ToSetCardinality(b);
  }

  // ---------------------------------------------------------------------
  // Chart rows: one row per group, then reordered

  function MapSeq<A, B>(xs: seq<A>, f: A -> B): (r: seq<B>)
    ensures |r| == |xs| && forall i :: 0 <= i < |xs| ==> r[i] == f(xs[i])
  {
    seq(|xs|, i requires 0 <= i < |xs| => f(xs[i]))
  }

  /** Rows built one per listed key sum to the sum of the listed groups. */
  lemma {:induction false} RowsSumInt<T, E>(xs: seq<T>, key: T -> string, f: T -> int, ks: seq<string>, rows: seq<E>, g: E -> int)
    requires |rows| == |ks|
    requires forall i :: 0 <= i < |ks| ==> g(rows[i]) == SumInt(Where(xs, key, ks[i]), f)
    ensures SumInt(rows, g) == GroupsSumInt(xs, key, f, ks)
  {
    if |ks| > 0 {
      RowsSumInt(xs, key, f, ks[..|ks| - 1], rows[..|rows| - 1], g);
    }
  }

  lemma {:induction false} RowsSumReal<T, E>(xs: seq<T>, key: T -> string, f: T -> real, ks: seq<string>, rows: seq<E>, g: E -> real)
    requires |rows| == |ks|
    requires forall i :: 0 <= i < |ks| ==> g(rows[i]) == SumReal(Where(xs, key, ks[i]), f)
    ensures SumReal(rows, g) == GroupsSumReal(xs, key, f, ks)
  {
    if |ks| > 0 {
      RowsSumReal(xs, key, f, ks[..|ks| - 1], rows[..|rows| - 1], g);
    }
  }

  /**
   * Rows named by distinct keys, once reordered, still carry each key once
   * and nothing else.
   */
  lemma PermutedRows<E>(r: seq<E>, rows: seq<E>, ks: seq<string>, name: E -> string)
    requires Distinct(ks) && |rows| == |ks|
    requires forall i :: 0 <= i < |rows| ==> name(rows[i]) == ks[i]
    requires multiset(r) == multiset(rows)
    ensures forall i :: 0 <= i < |r| ==> r[i] in rows
    ensures Distinct(MapSeq(r, name))
    ensures forall k :: k in MapSeq(r, name) <==> k in ks
  {
    assert Distinct(rows) by {
      forall i, j | 0 <= i < j < |rows| ensures rows[i] != rows[j] {
        assert name(rows[i]) == ks[i] && name(rows[j]) == ks[j];
      }
    }
    PermutationKeepsDistinct(r, rows);
    var n := MapSeq(r, name);
    forall i, j | 0 <= i < j < |n| ensures n[i] != n[j] {
      assert r[i] in rows && r[j] in rows;
      var a :| 0 <= a < |rows| && rows[a] == r[i];
      var b :| 0 <= b < |rows| && rows[b] == r[j];
      assert r[i] != r[j];
      assert a != b;
    }
    forall k ensures k in n <==> k in ks {
      if k in ks {
        var m :| 0 <= m < |ks| && ks[m] == k;
        assert rows[m] in r;
        var i :| 0 <= i < |r| && r[i] == rows[m];
        assert n[i] == k;
      }
      if k in n {
        var i :| 0 <= i < |n| && n[i] == k;
        assert r[i] in rows;
        var m :| 0 <= m < |rows| && rows[m] == r[i];
        assert ks[m] == k;
      }
    }
  }
}
