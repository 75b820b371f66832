// Finite sums over real-valued functions, and a few facts of real arithmetic.
module Sums {
  type Vec = int -> real
  type Mat = (int, int) -> real

  /** The sum of f(k) over lo <= k < hi. */
  ghost function Sum(lo: int, hi: int, f: Vec): real
    decreases hi - lo
  {
    if hi <= lo then 0.0 else Sum(lo, hi - 1, f) + f(hi - 1)
  }

  lemma SumEq(lo: int, hi: int, f: Vec, g: Vec)
    requires forall k :: lo <= k < hi ==> f(k) == g(k)
    ensures Sum(lo, hi, f) == Sum(lo, hi, g)
    decreases hi - lo
  {
    if lo < hi {
      SumEq(lo, hi - 1, f, g);
    }
  }

  lemma SumZero(lo: int, hi: int, f: Vec)
    requires forall k :: lo <= k < hi ==> f(k) == 0.0
    ensures Sum(lo, hi, f) == 0.0
    decreases hi - lo
  {
    if lo < hi {
      SumZero(lo, hi - 1, f);
    }
  }

  lemma SumSplit(lo: int, mid: int, hi: int, f: Vec)
    requires lo <= mid <= hi
    ensures Sum(lo, hi, f) == Sum(lo, mid, f) + Sum(mid, hi, f)
    decreases hi - mid
  {
    if mid < hi {
      SumSplit(lo, mid, hi - 1, f);
    }
  }

  lemma SumFirst(lo: int, hi: int, f: Vec)
    requires lo < hi
    ensures Sum(lo, hi, f) == f(lo) + Sum(lo + 1, hi, f)
  {
    SumSplit(lo, lo + 1, hi, f);
    assert Sum(lo, lo + 1, f) == Sum(lo, lo, f) + f(lo);
  }

  lemma SumAdd(lo: int, hi: int, f: Vec, g: Vec, h: Vec)
    requires forall k :: lo <= k < hi ==> h(k) == f(k) + g(k)
    ensures Sum(lo, hi, h) == Sum(lo, hi, f) + Sum(lo, hi, g)
    decreases hi - lo
  {
    if lo < hi {
      SumAdd(lo, hi - 1, f, g, h);
    }
  }

  lemma SumScale(lo: int, hi: int, a: real, f: Vec, g: Vec)
    requires forall k :: lo <= k < hi ==> g(k) == a * f(k)
    ensures Sum(lo, hi, g) == a * Sum(lo, hi, f)
    decreases hi - lo
  {
    if lo < hi {
      SumScale(lo, hi - 1, a, f, g);
    }
  }

  /** Term k of h is a times that of f plus b times that of g. */
  ghost predicate CombinesAt(a: real, f: Vec, b: real, g: Vec, h: Vec, k: int) {
    h(k) == a * f(k) + b * g(k)
  }

  lemma SumLinear(lo: int, hi: int, a: real, f: Vec, b: real, g: Vec, h: Vec)
    requires forall k :: lo <= k < hi ==> CombinesAt(a, f, b, g, h, k)
    ensures Sum(lo, hi, h) == a * Sum(lo, hi, f) + b * Sum(lo, hi, g)
    decreases hi - lo
  {
    if lo < hi {
      SumLinear(lo, hi - 1, a, f, b, g, h);
      assert CombinesAt(a, f, b, g, h, hi - 1);
      Distribute(a, Sum(lo, hi - 1, f), f(hi - 1));
      Distribute(b, Sum(lo, hi - 1, g), g(hi - 1));
    }
  }

  lemma Distribute(a: real, x: real, y: real)
    ensures a * (x + y) == a * x + a * y
  {
  }

  /** Only the term at i can be non-zero. */
  lemma SumSingle(lo: int, hi: int, i: int, f: Vec)
    requires lo <= i < hi
    requires forall k :: lo <= k < hi && k != i ==> f(k) == 0.0
    ensures Sum(lo, hi, f) == f(i)
  {
    SumSplit(lo, i, hi, f);
    SumFirst(i, hi, f);
    SumZero(lo, i, f);
    SumZero(i + 1, hi, f);
  }

  lemma SumShift(lo: int, hi: int, d: int, f: Vec, g: Vec)
    requires forall k :: lo <= k < hi ==> g(k) == f(k + d)
    ensures Sum(lo, hi, g) == Sum(lo + d, hi + d, f)
    decreases hi - lo
  {
    if lo < hi {
      SumShift(lo, hi - 1, d, f, g);
    }
  }

  /** Reading the terms backwards. */
  lemma SumReverse(n: int, f: Vec, g: Vec)
    requires forall k :: 0 <= k < n ==> g(k) == f(n - 1 - k)
    ensures Sum(0, n, g) == Sum(0, n, f)
    decreases n
  {
    if 0 < n {
      SumFirst(0, n, f);
      var f1: Vec := k => f(k + 1);
      SumShift(0, n - 1, 1, f, f1);
      SumReverse(n - 1, f1, g);
    }
  }

  lemma SumNonNegative(lo: int, hi: int, f: Vec)
    requires forall k :: lo <= k < hi ==> f(k) >= 0.0
    ensures Sum(lo, hi, f) >= 0.0
    ensures forall k :: lo <= k < hi ==> Sum(lo, hi, f) >= f(k)
    decreases hi - lo
  {
    if lo < hi {
      SumNonNegative(lo, hi - 1, f);
    }
  }

  ghost function RowSums(lo: int, hi: int, F: Mat): Vec {
    i => Sum(lo, hi, j => F(i, j))
  }

  ghost function ColumnSums(lo: int, hi: int, F: Mat): Vec {
    j => Sum(lo, hi, i => F(i, j))
  }

  /** The order of two finite sums can be exchanged. */
  lemma SumSwap(l1: int, h1: int, l2: int, h2: int, F: Mat)
    ensures Sum(l1, h1, RowSums(l2, h2, F)) == Sum(l2, h2, ColumnSums(l1, h1, F))
    decreases h1 - l1
  {
    if h1 <= l1 {
      SumZero(l2, h2, ColumnSums(l1, h1, F));
    } else {
      SumSwap(l1, h1 - 1, l2, h2, F);
      SumAdd(l2, h2, ColumnSums(l1, h1 - 1, F), j => F(h1 - 1, j), ColumnSums(l1, h1, F));
    }
  }

  // ----- real arithmetic

  lemma LinearTerm(x: real, a: real, y: real, b: real, z: real, w: real, xy: real, xz: real, xw: real)
    requires w == a * y + b * z && xy == x * y && xz == x * z && xw == x * w
    ensures xw == a * xy + b * xz
  {
  }

  lemma Associate(a: real, b: real, c: real)
    ensures a * b * c == a * (b * c)
  {
  }

  lemma PositiveProduct(a: real, b: real, q: real)
    requires q == a * b
    requires a > 0.0 && b > 0.0
    ensures q > 0.0
  {
  }

  lemma Square(a: real, q: real)
    requires q == a * a
    ensures q >= 0.0
    ensures a != 0.0 ==> q > 0.0
  {
    if a > 0.0 {
      PositiveProduct(a, a, q);
    } else if a < 0.0 {
      var c := -a;
      assert q == c * c;
      PositiveProduct(c, c, q);
    }
  }
}
