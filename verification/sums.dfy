/** Left-to-right sums of integer and real sequences, the model of `Array.prototype.reduce`
    with `(sum, val) => sum + val` and initial value 0. */
module Sums {

  function Sum(s: seq<int>): (r: int)
  {
    if |s| == 0 then 0 else Sum(s[..|s| - 1]) + s[|s| - 1]
  }

  function RealSum(s: seq<real>): (r: real)
  {
    if |s| == 0 then 0.0 else RealSum(s[..|s| - 1]) + s[|s| - 1]
  }

  /** Extending a prefix by one element adds that element to the sum. */
  lemma SumPrefixStep(s: seq<int>, i: nat)
    requires i < |s|
    ensures Sum(s[..i + 1]) == Sum(s[..i]) + s[i]
  {
    assert s[..i + 1][..i] == s[..i];
  }

  lemma RealSumPrefixStep(s: seq<real>, i: nat)
    requires i < |s|
    ensures RealSum(s[..i + 1]) == RealSum(s[..i]) + s[i]
  {
    assert s[..i + 1][..i] == s[..i];
  }

  /** A sum of values in [lo, hi] lies between |s|*lo and |s|*hi. */
  lemma {:induction false} SumBounds(s: seq<int>, lo: int, hi: int)
    requires forall i :: 0 <= i < |s| ==> lo <= s[i] <= hi
    ensures |s| * lo <= Sum(s) <= |s| * hi
  {
    if |s| > 0 {
      SumBounds(s[..|s| - 1], lo, hi);
    }
  }

  lemma {:induction false} RealSumBounds(s: seq<real>, lo: real, hi: real)
    requires forall i :: 0 <= i < |s| ==> lo <= s[i] <= hi
    ensures |s| as real * lo <= RealSum(s) <= |s| as real * hi
  {
    if |s| > 0 {
      RealSumBounds(s[..|s| - 1], lo, hi);
    }
  }

  /** A sequence of n copies of v sums to n * v. */
  lemma {:induction false} SumOfConstant(data: seq<int>, v: int)
    requires forall i :: 0 <= i < |data| ==> data[i] == v
    ensures Sum(data) == |data| * v
  {
    if |data| > 0 {
      SumOfConstant(data[..|data| - 1], v);
    }
  }

  /** The sum of the integer sequence, read as reals, is the real sum of its elements. */
  lemma {:induction false} SumAsReal(s: seq<int>, t: seq<real>)
    requires |s| == |t|
    requires forall i :: 0 <= i < |s| ==> t[i] == s[i] as real
    ensures RealSum(t) == Sum(s) as real
  {
    if |s| > 0 {
      SumAsReal(s[..|s| - 1], t[..|t| - 1]);
    }
  }

  /** Dividing every element by c divides the sum by c. */
  lemma {:induction false} SumAsRealOver(s: seq<int>, t: seq<real>, c: real)
    requires c > 0.0
    requires |s| == |t|
    requires forall i :: 0 <= i < |s| ==> t[i] == s[i] as real / c
    ensures RealSum(t) == Sum(s) as real / c
  {
    if |s| > 0 {
      SumAsRealOver(s[..|s| - 1], t[..|t| - 1], c);
      assert RealSum(t) == Sum(s[..|s| - 1]) as real / c + s[|s| - 1] as real / c;
    }
  }

  // ---------------------------------------------------------------- indexed sums

  /** Entry i of s, 0 outside it. */
  function At(s: seq<int>, i: int): (r: int)
  {
    if 0 <= i < |s| then s[i] else 0
  }

  /** g(0) + g(1) + ... + g(n - 1). */
  function SumTo(g: int -> int, n: nat): (r: int)
  {
    if n == 0 then 0 else SumTo(g, n - 1) + g(n - 1)
  }

  /** A sequence sums to the indexed sum of its entries. */
  lemma {:induction false} SumIsSumTo(s: seq<int>)
    ensures Sum(s) == SumTo(i => At(s, i), |s|)
  {
    if |s| > 0 {
      var t := s[..|s| - 1];
      SumIsSumTo(t);
      SumToCongruent(i => At(t, i), i => At(s, i), |t|);
    }
  }

  /** Indexed sums of functions that agree below n are equal. */
  lemma {:induction false} SumToCongruent(g: int -> int, h: int -> int, n: nat)
    requires forall i :: 0 <= i < n ==> g(i) == h(i)
    ensures SumTo(g, n) == SumTo(h, n)
  {
    if n > 0 {
      SumToCongruent(g, h, n - 1);
    }
  }

  lemma {:induction false} SumToZeros(g: int -> int, n: nat)
    requires forall i :: 0 <= i < n ==> g(i) == 0
    ensures SumTo(g, n) == 0
  {
    if n > 0 {
      SumToZeros(g, n - 1);
    }
  }

  lemma {:induction false} SumToAdd(g: int -> int, h: int -> int, n: nat)
    ensures SumTo(i => g(i) + h(i), n) == SumTo(g, n) + SumTo(h, n)
  {
    if n > 0 {
      SumToAdd(g, h, n - 1);
    }
  }

  /** A sum over a + b indices is the sum over the first a plus the sum over the next b. */
  lemma {:induction false} SumToAppend(g: int -> int, a: nat, b: nat)
    ensures SumTo(g, a + b) == SumTo(g, a) + SumTo(i => g(a + i), b)
  {
    if b > 0 {
      SumToAppend(g, a, b - 1);
    }
  }

  /** A sum over m * n indices, read as m consecutive runs of n. */
  lemma {:induction false} SumToSplit(g: int -> int, m: nat, n: nat)
    ensures SumTo(g, m * n) == SumTo(i => SumTo(j => g(n * i + j), n), m)
  {
    if m > 0 {
      SumToSplit(g, m - 1, n);
      assert m * n == (m - 1) * n + n;
      SumToAppend(g, (m - 1) * n, n);
      SumToCongruent(j => g((m - 1) * n + j), j => g(n * (m - 1) + j), n);
    }
  }

  /** The last of m row totals of a table split off. */
  lemma SumToLastRow(f: (int, int) -> int, m: nat, n: nat)
    requires m > 0
    ensures SumTo(i => SumTo(j => f(i, j), n), m)
            == SumTo(i => SumTo(j => f(i, j), n), m - 1) + SumTo(j => f(m - 1, j), n)
  {
    var last := j => f(m - 1, j);
    SumToCongruent(j => f(m - 1, j), last, n);
  }

  /** The last row split off every column total of a table. */
  lemma SumToLastColumnEntries(f: (int, int) -> int, m: nat, n: nat)
    requires m > 0
    ensures SumTo(j => SumTo(i => f(i, j), m), n)
            == SumTo(j => SumTo(i => f(i, j), m - 1), n) + SumTo(j => f(m - 1, j), n)
  {
    var cols := j => SumTo(i => f(i, j), m);
    var colsBefore := j => SumTo(i => f(i, j), m - 1);
    var last := j => f(m - 1, j);
    SumToCongruent(cols, j => colsBefore(j) + last(j), n);
    SumToAdd(colsBefore, last, n);
  }

  /** The order of a double sum does not matter. */
  lemma {:induction false} SumToSwap(f: (int, int) -> int, m: nat, n: nat)
    ensures SumTo(i => SumTo(j => f(i, j), n), m) == SumTo(j => SumTo(i => f(i, j), m), n)
  {
    if m > 0 {
      SumToSwap(f, m - 1, n);
      SumToLastRow(f, m, n);
      SumToLastColumnEntries(f, m, n);
    } else {
      SumToZeros(j => SumTo(i => f(i, j), m), n);
    }
  }

  /** A sum over m * n indices is the sum of m row totals, when h(i) is the total of row i. */
  lemma SumToRows(g: int -> int, h: int -> int, m: nat, n: nat)
    requires forall i :: 0 <= i < m ==> h(i) == SumTo(j => g(n * i + j), n)
    ensures SumTo(g, m * n) == SumTo(h, m)
  {
    SumToSplit(g, m, n);
    SumToCongruent(i => SumTo(j => g(n * i + j), n), h, m);
  }

  /** `SumToRows` for the entries of a sequence. */
  lemma SumToRowsOf(s: seq<int>, rows: int -> int, m: nat, n: nat)
    requires forall i :: 0 <= i < m ==> rows(i) == SumTo(j => At(s, n * i + j), n)
    ensures SumTo(k => At(s, k), m * n) == SumTo(rows, m)
  {
    var entries := k => At(s, k);
    forall i | 0 <= i < m
      ensures rows(i) == SumTo(j => entries(n * i + j), n)
    {
      var g := j => At(s, n * i + j);
      var h := j => entries(n * i + j);
      forall j | 0 <= j < n
        ensures g(j) == h(j)
      {
      }
      SumToCongruent(g, h, n);
    }
    SumToRows(entries, rows, m, n);
  }

  /** Summing row totals or column totals of the same m x n table gives the same result. */
  lemma SumToRowsColumns(f: (int, int) -> int, rows: int -> int, cols: int -> int, m: nat, n: nat)
    requires forall i :: 0 <= i < m ==> rows(i) == SumTo(j => f(i, j), n)
    requires forall j :: 0 <= j < n ==> cols(j) == SumTo(i => f(i, j), m)
    ensures SumTo(rows, m) == SumTo(cols, n)
  {
    SumToSwap(f, m, n);
    SumToCongruent(i => SumTo(j => f(i, j), n), rows, m);
    SumToCongruent(j => SumTo(i => f(i, j), m), cols, n);
  }

  // Real-division facts the solver needs spelled out.

  lemma DivSelf(n: real)
    requires n > 0.0
    ensures n / n == 1.0
  {
  }

  lemma DivMul(k: real, n: real)
    requires n > 0.0
    ensures (k * n) / n == k
  {
  }

  lemma DivMono(a: real, b: real, n: real)
    requires a <= b && n > 0.0
    ensures a / n <= b / n
  {
    assert b / n - a / n == (b - a) / n;
  }

  /** `sqrt` behaves as `Math.sqrt` on non-negative reals (the floating-point rounding of the
      real square root is not modelled). */
  ghost predicate IsSqrt(sqrt: real -> real)
  {
    forall x :: 0.0 <= x ==> 0.0 <= sqrt(x) && sqrt(x) * sqrt(x) == x
  }

  /** Comparing a square root with a non-negative bound is comparing the square with the
      squared bound. */
  lemma SqrtGreater(sqrt: real -> real, m: real, t: real)
    requires IsSqrt(sqrt) && 0.0 <= m && 0.0 <= t
    ensures sqrt(m) > t <==> m > t * t
  {
    var s := sqrt(m);
    assert 0.0 <= s && s * s == m;
    if s > t {
      MulStrict(s, t);
    } else {
      MulMonoReal(s, t);
    }
  }

  lemma MulStrict(s: real, t: real)
    requires 0.0 <= t < s
    ensures t * t < s * s
  {
    MulPos(s - t, s + t);
    assert s * s - t * t == (s - t) * (s + t);
  }

  lemma MulPos(a: real, b: real)
    requires a > 0.0 && b > 0.0
    ensures a * b > 0.0
  {
  }

  /** Real product. Squares are written through it so that the solver keeps `Times(x, x)` as
      one term instead of rewriting comparisons on `x * x`. */
  function Times(a: real, b: real): (r: real)
  {
    a * b
  }

  lemma TimesPos(a: real, b: real)
    requires (0.0 < a && 0.0 < b) || (a < 0.0 && b < 0.0)
    ensures 0.0 < Times(a, b)
  {
    if a < 0.0 {
      assert a * b == (-a) * (-b);
    }
  }

  lemma SquareNonneg(x: real)
    ensures 0.0 <= Times(x, x)
    ensures x != 0.0 ==> 0.0 < Times(x, x)
  {
    if x != 0.0 {
      TimesPos(x, x);
    }
  }

  /** A count below the total is a fraction in [0, 1). */
  lemma FractionBelowOne(c: real, n: real)
    requires 0.0 <= c < n
    ensures 0.0 <= c / n < 1.0
  {
    assert c / n < n / n;
  }

  lemma MulMonoReal(s: real, t: real)
    requires 0.0 <= s <= t
    ensures s * s <= t * t
  {
    assert t * t - s * s == (t - s) * (t + s);
    assert (t - s) * (t + s) >= 0.0;
  }

  // Integer products the solver needs spelled out.

  lemma MulSucc(a: int, c: int)
    ensures (a + 1) * c == a * c + c
  {
  }

  /** A product of a smaller first factor and a smaller second factor is smaller. */
  lemma MulLess(a: int, b: int, w: int, h: int)
    requires 0 <= a < w && 0 <= b < h
    ensures a * b < w * h
  {
    assert a * b <= a * h;
    assert a * h < w * h;
  }
}
