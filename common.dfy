/** Shared vocabulary of the forecasting pipeline: optional values and results,
    sums and means of quantities, the three roundings the code uses, the
    first-appearance "unique" of pandas and JavaScript, filtering, and the
    lexicographic order in which pandas sorts string columns. */
module Common {

  datatype Option<+T> = None | Some(value: T)

  datatype Result<+T, +E> = Ok(value: T) | Err(error: E)

  /** An optional text is falsy (Python's `not x`, JavaScript's `!x`) when it is
      absent (`None`, `undefined`) or empty. */
  predicate Falsy(x: Option<string>)
  {
    x.None? || x.value == ""
  }

  // ---------------------------------------------------------------------------
  // Sums and means

  function Sum(xs: seq<real>): real
  {
    if xs == [] then 0.0 else Sum(xs[..|xs| - 1]) + xs[|xs| - 1]
  }

  lemma {:induction false} SumAppend(xs: seq<real>, ys: seq<real>)
    ensures Sum(xs + ys) == Sum(xs) + Sum(ys)
  {
    if ys != [] {
      var zs := xs + ys;
      assert zs[..|zs| - 1] == xs + ys[..|ys| - 1];
      assert zs[|zs| - 1] == ys[|ys| - 1];
      SumAppend(xs, ys[..|ys| - 1]);
    } else {
      assert xs + ys == xs;
    }
  }

  /** Every element between lo and hi puts the sum between |xs|*lo and |xs|*hi. */
  lemma {:induction false} SumBounds(xs: seq<real>, lo: real, hi: real)
    requires forall i :: 0 <= i < |xs| ==> lo <= xs[i] <= hi
    ensures |xs| as real * lo <= Sum(xs) <= |xs| as real * hi
  {
    if xs != [] {
      SumBounds(xs[..|xs| - 1], lo, hi);
    }
  }

  /** The arithmetic mean of a non-empty list (pandas `mean`, the JavaScript
      `reduce(...) / length`). */
  function Mean(xs: seq<real>): real
    requires |xs| > 0
  {
    Sum(xs) / |xs| as real
  }

  lemma MeanBetween(xs: seq<real>, lo: real, hi: real)
    requires |xs| > 0
    requires forall i :: 0 <= i < |xs| ==> lo <= xs[i] <= hi
    ensures lo <= Mean(xs) <= hi
  {
    SumBounds(xs, lo, hi);
    var n := |xs| as real;
    assert Mean(xs) * n == Sum(xs);
  }

  lemma MeanAtLeast(xs: seq<real>, lo: real)
    requires |xs| > 0
    requires forall i :: 0 <= i < |xs| ==> lo <= xs[i]
    ensures lo <= Mean(xs)
  {
    SumLowerBound(xs, lo);
    var n := |xs| as real;
    assert Mean(xs) * n == Sum(xs);
  }

  /** No element of the list is at or above 1.2 times a positive mean:
      if every element were, the sum would exceed itself. */
  lemma {:induction false} NotAllAtLeastScaledMean(xs: seq<real>)
    requires |xs| > 0 && Mean(xs) > 0.0
    ensures exists i :: 0 <= i < |xs| && xs[i] < 1.2 * Mean(xs)
  {
    var m := Mean(xs);
    var n := |xs| as real;
    if forall i :: 0 <= i < |xs| ==> xs[i] >= 1.2 * m {
      SumLowerBound(xs, 1.2 * m);
      assert false;
    }
  }

  lemma {:induction false} SumLowerBound(xs: seq<real>, lo: real)
    requires forall i :: 0 <= i < |xs| ==> lo <= xs[i]
    ensures |xs| as real * lo <= Sum(xs)
  {
    if xs != [] {
      SumLowerBound(xs[..|xs| - 1], lo);
    }
  }

  // ---------------------------------------------------------------------------
  // Roundings

  /** Python's `round(x)` on a number: to the nearest integer, ties to even. */
  function HalfEven(x: real): (r: int)
    ensures -0.5 <= x - r as real <= 0.5
    ensures (x - r as real == 0.5 || x - r as real == -0.5) ==> r % 2 == 0
  {
    var f := x.Floor;
    var d := x - f as real;
    if d < 0.5 then f
    else if d > 0.5 then f + 1
    else if f % 2 == 0 then f
    else f + 1
  }

  lemma HalfEvenOfInteger(k: int)
    ensures HalfEven(k as real) == k
  {
  }

  lemma HalfEvenMonotone(x: real, y: real)
    requires x <= y
    ensures HalfEven(x) <= HalfEven(y)
  {
  }

  /** JavaScript's `Math.round(x)`: the integer nearest to x, ties towards +infinity. */
  function JsRound(x: real): (r: int)
    ensures x - 0.5 < r as real <= x + 0.5
  {
    (x + 0.5).Floor
  }

  lemma JsRoundMonotone(x: real, y: real)
    requires x <= y
    ensures JsRound(x) <= JsRound(y)
  {
  }

  /** Python's `round(x, 2)` and pandas' `.round(2)` on exact reals: half-to-even at
      the hundredths. */
  function Round2(x: real): (r: real)
    ensures -0.005 <= x - r <= 0.005
    ensures (r * 100.0).Floor as real == r * 100.0
    ensures (x * 100.0 - r * 100.0 == 0.5 || x * 100.0 - r * 100.0 == -0.5) ==> (r * 100.0).Floor % 2 == 0
  {
    HalfEven(x * 100.0) as real / 100.0
  }

  /** Rounding twice to two decimals is rounding once. */
  lemma Round2Idempotent(x: real)
    ensures Round2(Round2(x)) == Round2(x)
  {
    var k := HalfEven(x * 100.0);
    assert Round2(x) * 100.0 == k as real;
    HalfEvenOfInteger(k);
  }

  /** Rounding to two decimals keeps the order of its arguments and fixes zero,
      so it never flips the sign of a growth figure. */
  lemma Round2Monotone(x: real, y: real)
    requires x <= y
    ensures Round2(x) <= Round2(y)
    ensures Round2(0.0) == 0.0
  {
    HalfEvenMonotone(x * 100.0, y * 100.0);
    HalfEvenOfInteger(0);
  }

  // ---------------------------------------------------------------------------
  // First-appearance de-duplication (pandas `unique`, JavaScript `[...new Set(xs)]`)

  ghost predicate NoDup<T>(s: seq<T>)
  {
    forall i, j :: 0 <= i < j < |s| ==> s[i] != s[j]
  }

  function Distinct<T(==,!new)>(s: seq<T>): (d: seq<T>)
    ensures NoDup(d)
    ensures forall x :: x in d <==> x in s
    ensures |d| <= |s|
  {
    if s == [] then []
    else
      var p := Distinct(s[..|s| - 1]);
      if s[|s| - 1] in p then p else p + [s[|s| - 1]]
  }

  /** Position of the first occurrence of x in s. */
  function FirstIndex<T(==)>(s: seq<T>, x: T): (i: nat)
    requires x in s
    ensures i < |s| && s[i] == x
    ensures forall j :: 0 <= j < i ==> s[j] != x
  {
    if s[0] == x then 0 else 1 + FirstIndex(s[1..], x)
  }

  lemma {:induction false} FirstIndexPrefix<T>(s: seq<T>, n: nat, x: T)
    requires n <= |s| && x in s[..n]
    ensures FirstIndex(s, x) == FirstIndex(s[..n], x)
  {
    var i := FirstIndex(s[..n], x);
    assert s[i] == x;
  }

  /** `Distinct` lists the values in the order of their first appearance. */
  lemma {:induction false} DistinctFirstAppearance<T(!new)>(s: seq<T>, i: nat, j: nat)
    requires i < j < |Distinct(s)|
    ensures FirstIndex(s, Distinct(s)[i]) < FirstIndex(s, Distinct(s)[j])
  {
    var n := |s| - 1;
    var s' := s[..n];
    var p := Distinct(s');
    var d := Distinct(s);
    assert d[i] in s' by {
      if s[n] in p { } else { assert d == p + [s[n]]; assert i < |p|; assert d[i] == p[i]; }
    }
    FirstIndexPrefix(s, n, d[i]);
    if s[n] in p || j < |p| {
      assert d[j] == p[j] && d[i] == p[i];
      FirstIndexPrefix(s, n, d[j]);
      DistinctFirstAppearance(s', i, j);
    } else {
      assert d[j] == s[n];
      assert s[n] !in s';
    }
  }

  // ---------------------------------------------------------------------------
  // Filtering, as DataFrame boolean masks and Array.filter

  /** The elements that pass, each as often as in s and in s's order. */
  function Filter<T(!new)>(s: seq<T>, p: T -> bool): (r: seq<T>)
    ensures |r| <= |s|
    ensures forall x :: x in r <==> x in s && p(x)
    ensures (forall i :: 0 <= i < |s| ==> !p(s[i])) ==> r == []
  {
    if s == [] then []
    else Filter(s[..|s| - 1], p) + (if p(s[|s| - 1]) then [s[|s| - 1]] else [])
  }

  /** The indices below n that satisfy p, each once and in ascending order. */
  function Positions(n: nat, p: nat -> bool): (ix: seq<nat>)
    ensures |ix| <= n
    ensures forall j :: 0 <= j < |ix| ==> ix[j] < n && p(ix[j])
    ensures forall j, k :: 0 <= j < k < |ix| ==> ix[j] < ix[k]
    ensures forall i :: 0 <= i < n && p(i) ==> i in ix
  {
    if n == 0 then [] else Positions(n - 1, p) + (if p(n - 1) then [n - 1] else [])
  }

  /** Filtering keeps the passing elements in their order in s. */
  lemma {:induction false} FilterOrder<T(!new)>(s: seq<T>, p: T -> bool)
    ensures IsSubsequence(Filter(s, p), s)
  {
    if s != [] {
      var n := |s| - 1;
      var r' := Filter(s[..n], p);
      var r := Filter(s, p);
      FilterOrder(s[..n], p);
      if p(s[n]) {
        assert r == r' + [s[n]] && r[..|r| - 1] == r';
      } else {
        assert r == r';
        assert r' != [] ==> r'[|r'| - 1] in r';
      }
    }
  }

  /** Filtering keeps every passing value as often as it occurs, and no other. */
  lemma {:induction false} FilterCount<T(!new)>(s: seq<T>, p: T -> bool)
    ensures forall x :: multiset(Filter(s, p))[x] == if p(x) then multiset(s)[x] else 0
  {
    if s != [] {
      var n := |s| - 1;
      FilterCount(s[..n], p);
      assert s == s[..n] + [s[n]];
    }
  }

  /** Filtering one more element that passes appends it. */
  lemma FilterKeep<T(!new)>(s: seq<T>, i: nat, p: T -> bool)
    requires i < |s| && p(s[i])
    ensures Filter(s[..i + 1], p) == Filter(s[..i], p) + [s[i]]
  {
    assert s[..i + 1][..i] == s[..i];
  }

  /** Filtering one more element that fails changes nothing. */
  lemma FilterSkip<T(!new)>(s: seq<T>, i: nat, p: T -> bool)
    requires i < |s| && !p(s[i])
    ensures Filter(s[..i + 1], p) == Filter(s[..i], p)
  {
    assert s[..i + 1][..i] == s[..i];
  }

  /** a lists some of b's elements, in b's order. */
  predicate IsSubsequence<T(==)>(a: seq<T>, b: seq<T>)
    decreases |b|
  {
    if a == [] then true
    else if b == [] then false
    else if a[|a| - 1] == b[|b| - 1] then IsSubsequence(a[..|a| - 1], b[..|b| - 1])
    else IsSubsequence(a, b[..|b| - 1])
  }

  lemma {:induction false} SubsequenceExtend<T>(a: seq<T>, b: seq<T>, x: T)
    requires IsSubsequence(a, b)
    ensures IsSubsequence(a, b + [x])
    decreases |b|, 1
  {
    var bx := b + [x];
    assert bx[..|bx| - 1] == b;
    if a != [] && a[|a| - 1] == x {
      SubsequenceDropLast(a, b);
    }
  }

  lemma {:induction false} SubsequenceDropLast<T>(a: seq<T>, b: seq<T>)
    requires a != [] && IsSubsequence(a, b)
    ensures IsSubsequence(a[..|a| - 1], b)
    decreases |b|, 0
  {
    var a' := a[..|a| - 1];
    if a[|a| - 1] == b[|b| - 1] {
      assert IsSubsequence(a', b[..|b| - 1]);
      SubsequenceExtend(a', b[..|b| - 1], b[|b| - 1]);
      assert b[..|b| - 1] + [b[|b| - 1]] == b;
    } else {
      SubsequenceDropLast(a, b[..|b| - 1]);
      SubsequenceExtend(a', b[..|b| - 1], b[|b| - 1]);
      assert b[..|b| - 1] + [b[|b| - 1]] == b;
    }
  }

  // ---------------------------------------------------------------------------
  // Lexicographic order on strings (how pandas sorts an object column)

  predicate StrLess(a: string, b: string)
  {
    if a == [] then b != []
    else if b == [] then false
    else a[0] < b[0] || (a[0] == b[0] && StrLess(a[1..], b[1..]))
  }

  lemma {:induction false} StrLessIrreflexive(a: string)
    ensures !StrLess(a, a)
  {
    if a != [] { StrLessIrreflexive(a[1..]); }
  }

  lemma {:induction false} StrLessTransitive(a: string, b: string, c: string)
    requires StrLess(a, b) && StrLess(b, c)
    ensures StrLess(a, c)
  {
    if a != [] && b != [] && c != [] && a[0] == b[0] == c[0] {
      StrLessTransitive(a[1..], b[1..], c[1..]);
    }
  }

  lemma {:induction false} StrLessTotal(a: string, b: string)
    requires a != b
    ensures StrLess(a, b) || StrLess(b, a)
  {
    if a != [] && b != [] && a[0] == b[0] {
      assert a == [a[0]] + a[1..] && b == [b[0]] + b[1..];
      StrLessTotal(a[1..], b[1..]);
    }
  }
}
