/** Order statistics and spread of a list of latencies. */
module Samples {
  import opened Prelude

  function Sum(v: seq<u32>): nat {
    if v == [] then 0 else Sum(v[..|v| - 1]) + v[|v| - 1]
  }

  function Product(x: real, y: real): real {
    x * y
  }

  function Square(x: real): real {
    Product(x, x)
  }

  function SumOfSquares(v: seq<u32>): real {
    if v == [] then 0.0 else SumOfSquares(v[..|v| - 1]) + Square(v[|v| - 1] as real)
  }

  /** Sum of squared distances from `m`. */
  function Deviation(v: seq<u32>, m: real): real {
    if v == [] then 0.0 else Deviation(v[..|v| - 1], m) + Square(v[|v| - 1] as real - m)
  }

  predicate AtMost(v: seq<u32>, top: u32) {
    forall i | 0 <= i < |v| :: v[i] <= top
  }

  predicate IsSorted(v: seq<u32>) {
    forall i, j | 0 <= i < j < |v| :: v[i] <= v[j]
  }

  function Insert(v: seq<u32>, x: u32): (r: seq<u32>)
    ensures multiset(r) == multiset(v) + multiset{x}
  {
    if v == [] || x <= v[0] then [x] + v
    else
      assert v == [v[0]] + v[1..];
      [v[0]] + Insert(v[1..], x)
  }

  lemma {:induction false} InsertKeepsSorted(v: seq<u32>, x: u32)
    requires IsSorted(v)
    ensures IsSorted(Insert(v, x))
  {
    if v != [] && x > v[0] {
      InsertKeepsSorted(v[1..], x);
      InsertAbove(v[1..], x, v[0]);
    }
  }

  lemma {:induction false} InsertAbove(v: seq<u32>, x: u32, low: u32)
    requires low <= x && forall i | 0 <= i < |v| :: low <= v[i]
    ensures forall i | 0 <= i < |Insert(v, x)| :: low <= Insert(v, x)[i]
  {
    if v != [] && x > v[0] {
      InsertAbove(v[1..], x, low);
    }
  }

  /** The list `sort_unstable` produces: equal integers are indistinguishable, so it is unique. */
  function Sort(v: seq<u32>): (r: seq<u32>)
    ensures multiset(r) == multiset(v) && |r| == |v|
  {
    if v == [] then []
    else
      assert v == v[..|v| - 1] + [v[|v| - 1]];
      var r := Insert(Sort(v[..|v| - 1]), v[|v| - 1]);
      assert |multiset(r)| == |multiset(v)|;
      r
  }

  lemma {:induction false} SortSorts(v: seq<u32>)
    ensures IsSorted(Sort(v))
  {
    if v != [] {
      SortSorts(v[..|v| - 1]);
      InsertKeepsSorted(Sort(v[..|v| - 1]), v[|v| - 1]);
    }
  }

  function CountAtMost(v: seq<u32>, x: u32): nat {
    if v == [] then 0 else CountAtMost(v[..|v| - 1], x) + if v[|v| - 1] <= x then 1 else 0
  }

  function CountAtLeast(v: seq<u32>, x: u32): nat {
    if v == [] then 0 else CountAtLeast(v[..|v| - 1], x) + if v[|v| - 1] >= x then 1 else 0
  }

  // ------------------------------------------------------------------ permutations

  /** Totals of a list, which sorting must not change. */
  datatype Totals = Totals(sum: nat, squares: real, atMost: nat, atLeast: nat)

  function TotalsOf(v: seq<u32>, x: u32): Totals {
    Totals(Sum(v), SumOfSquares(v), CountAtMost(v, x), CountAtLeast(v, x))
  }

  function Add(t: Totals, y: u32, x: u32): Totals {
    Totals(t.sum + y, t.squares + Square(y as real),
           t.atMost + (if y <= x then 1 else 0), t.atLeast + (if y >= x then 1 else 0))
  }

  lemma {:induction false} TotalsOfCons(y: u32, v: seq<u32>, x: u32)
    ensures TotalsOf([y] + v, x) == Add(TotalsOf(v, x), y, x)
  {
    if v == [] {
      assert [y] + v == [y];
      assert [y][..0] == [];
    } else {
      var n := |v| - 1;
      TotalsOfCons(y, v[..n], x);
      assert ([y] + v)[..|v|] == [y] + v[..n];
    }
  }

  lemma {:induction false} TotalsOfInsert(v: seq<u32>, y: u32, x: u32)
    requires IsSorted(v)
    ensures TotalsOf(Insert(v, y), x) == Add(TotalsOf(v, x), y, x)
  {
    if v == [] || y <= v[0] {
      TotalsOfCons(y, v, x);
      assert [y] + [] == [y];
    } else {
      TotalsOfInsert(v[1..], y, x);
      TotalsOfCons(v[0], v[1..], x);
      TotalsOfCons(v[0], Insert(v[1..], y), x);
      assert v == [v[0]] + v[1..];
    }
  }

  lemma {:induction false} TotalsOfSort(v: seq<u32>, x: u32)
    ensures TotalsOf(Sort(v), x) == TotalsOf(v, x)
  {
    if v != [] {
      var n := |v| - 1;
      SortSorts(v[..n]);
      TotalsOfSort(v[..n], x);
      TotalsOfInsert(Sort(v[..n]), v[n], x);
    }
  }

  lemma {:induction false} CountSortedPrefix(v: seq<u32>, k: nat, x: u32)
    requires k <= |v| && forall i | 0 <= i < k :: v[i] <= x
    ensures CountAtMost(v, x) >= k
  {
    if v != [] {
      CountSortedPrefix(v[..|v| - 1], Min(k, |v| - 1), x);
    }
  }

  lemma {:induction false} CountSortedSuffix(v: seq<u32>, k: nat, x: u32)
    requires k <= |v| && forall i | k <= i < |v| :: v[i] >= x
    ensures CountAtLeast(v, x) >= |v| - k
  {
    if k < |v| {
      CountSortedSuffix(v[..|v| - 1], k, x);
    }
  }

  lemma SortAtMost(v: seq<u32>, top: u32)
    requires AtMost(v, top)
    ensures AtMost(Sort(v), top)
  {
    forall i | 0 <= i < |v|
      ensures Sort(v)[i] <= top
    {
      assert Sort(v)[i] in multiset(Sort(v));
      assert Sort(v)[i] in v;
    }
  }

  // ------------------------------------------------------------------ median

  /** Unsigned 32-bit addition as compiled without overflow checks. */
  function WrappingAdd(a: u32, b: u32): u32 {
    (a + b) % (U32_MAX + 1)
  }

  function Median(sorted: seq<u32>): u32
    requires sorted != []
  {
    var mid := |sorted| / 2;
    if |sorted| % 2 == 0 then WrappingAdd(sorted[mid], sorted[mid - 1]) / 2 else sorted[mid]
  }

  /** Whether the two middle values can be added in 32 bits. */
  predicate MiddleFits(sorted: seq<u32>)
    requires sorted != []
  {
    |sorted| % 2 == 0 ==> sorted[|sorted| / 2] + sorted[|sorted| / 2 - 1] <= U32_MAX
  }

  /** `x` lies between the two middle order statistics, which are one if the length is odd. */
  predicate BetweenMiddles(sorted: seq<u32>, x: u32)
    requires sorted != []
  {
    sorted[(|sorted| - 1) / 2] <= x <= sorted[|sorted| / 2]
  }

  /** At least half of the values are at most `x`, and at least half are at least `x`. */
  predicate SplitsInHalf(v: seq<u32>, x: u32) {
    2 * CountAtMost(v, x) >= |v| && 2 * CountAtLeast(v, x) >= |v|
  }

  /** The computed median lies between the two middle order statistics exactly when their sum fits in
      32 bits; it never exceeds the largest value either way. */
  lemma MedianBetweenMiddles(v: seq<u32>)
    requires v != [] && IsSorted(v)
    ensures BetweenMiddles(v, Median(v)) <==> MiddleFits(v)
    ensures Median(v) <= v[|v| - 1]
  {
    var mid := |v| / 2;
    if |v| % 2 == 0 {
      assert (|v| - 1) / 2 == mid - 1;
      assert v[mid - 1] <= v[mid] <= v[|v| - 1];
    } else {
      assert (|v| - 1) / 2 == mid;
    }
  }

  /** The median of an odd number of values is the middle one; of an even number, half the sum of the two middle ones,
      rounded down, or half of what is left of the sum in 32 bits. */
  lemma MedianExact(v: seq<u32>)
    requires v != []
    ensures |v| % 2 == 1 ==> Median(v) == v[|v| / 2]
    ensures |v| % 2 == 0 ==>
      var sum, twice := v[|v| / 2 - 1] as int + v[|v| / 2] as int, 2 * (Median(v) as int);
      twice <= (if sum <= 0xFFFF_FFFF then sum else sum - 0x1_0000_0000) <= twice + 1
  {
  }

  lemma SortedMiddleSplits(v: seq<u32>, m: u32)
    requires v != [] && IsSorted(v) && BetweenMiddles(v, m)
    ensures SplitsInHalf(v, m)
  {
    var low := (|v| - 1) / 2;
    CountSortedPrefix(v, low + 1, m);
    CountSortedSuffix(v, |v| / 2, m);
  }

  /** Without wrap-around the median of the sorted list halves the list it came from. */
  lemma MedianSplitsInHalf(v: seq<u32>)
    requires v != [] && MiddleFits(Sort(v))
    ensures SplitsInHalf(v, Median(Sort(v)))
  {
    SortSorts(v);
    MedianBetweenMiddles(Sort(v));
    SortedMiddleSplits(Sort(v), Median(Sort(v)));
    TotalsOfSort(v, Median(Sort(v)));
  }

  // ------------------------------------------------------------------ variance

  function WrappingSum(v: seq<u32>): u32 {
    if v == [] then 0 else WrappingAdd(WrappingSum(v[..|v| - 1]), v[|v| - 1])
  }

  function Mean(v: seq<u32>): real
    requires v != []
  {
    Sum(v) as real / |v| as real
  }

  /** Corrected sample variance. */
  function Variance(v: seq<u32>): real
    requires |v| > 1
  {
    Deviation(v, Mean(v)) / (|v| - 1) as real
  }

  /** What the code computes from its 32-bit total. */
  function ComputedMean(v: seq<u32>): real
    requires v != []
  {
    WrappingSum(v) as real / |v| as real
  }

  function ComputedVariance(v: seq<u32>): real
    requires |v| > 1
  {
    Deviation(v, ComputedMean(v)) / (|v| - 1) as real
  }

  lemma WrapOnce(total: nat, x: u32)
    ensures WrappingAdd(total % (U32_MAX + 1), x) == (total + x) % (U32_MAX + 1)
  {
    var q, r := total / 0x1_0000_0000, total % 0x1_0000_0000;
    if r + x < 0x1_0000_0000 {
      RemainderIs(total + x, q, r + x);
    } else {
      RemainderIs(total + x, q + 1, r + x - 0x1_0000_0000);
    }
  }

  lemma RemainderIs(a: nat, q: nat, r: nat)
    requires a == q * 0x1_0000_0000 + r && r < 0x1_0000_0000
    ensures a % 0x1_0000_0000 == r
  {
  }

  lemma {:induction false} WrappingSumIs(v: seq<u32>)
    ensures WrappingSum(v) == Sum(v) % (U32_MAX + 1)
  {
    hide WrappingAdd;
    if v != [] {
      WrappingSumIs(v[..|v| - 1]);
      WrapOnce(Sum(v[..|v| - 1]), v[|v| - 1]);
    }
  }

  /** `n` values with sum `s` and sum of squares `q` have squared deviation `d` from `m`. */
  predicate Expands(d: real, q: real, s: real, n: real, m: real) {
    d == q - 2.0 * Product(m, s) + Product(n, Square(m))
  }

  lemma ExpandStep(d: real, q: real, s: real, n: real, m: real, x: real)
    requires Expands(d, q, s, n, m)
    ensures Expands(d + Square(x - m), q + Square(x), s + x, n + 1.0, m)
  {
  }

  lemma {:induction false} DeviationExpands(v: seq<u32>, m: real)
    ensures Expands(Deviation(v, m), SumOfSquares(v), Sum(v) as real, |v| as real, m)
  {
    if v != [] {
      hide Expands, Square, Product;
      var n := |v| - 1;
      DeviationExpands(v[..n], m);
      ExpandStep(Deviation(v[..n], m), SumOfSquares(v[..n]), Sum(v[..n]) as real, n as real, m, v[n] as real);
      assert Sum(v[..n]) as real + v[n] as real == Sum(v) as real;
      assert n as real + 1.0 == |v| as real;
    }
  }

  lemma ProductPositive(x: real, y: real)
    requires x > 0.0 && y > 0.0
    ensures Product(x, y) > 0.0
  {
  }

  lemma SquareNonNegative(x: real)
    ensures Square(x) >= 0.0
    ensures x != 0.0 ==> Square(x) > 0.0
  {
    if x > 0.0 {
      ProductPositive(x, x);
    } else if x < 0.0 {
      ProductPositive(-x, -x);
      assert Square(-x) == Square(x);
    }
  }

  lemma {:induction false} DeviationNonNegative(v: seq<u32>, m: real)
    ensures Deviation(v, m) >= 0.0
  {
    if v != [] {
      DeviationNonNegative(v[..|v| - 1], m);
      SquareNonNegative(v[|v| - 1] as real - m);
    }
  }

  lemma SquareStep(q: real, s: real, x: real, t: real)
    requires 0.0 <= x <= t && q <= Product(t, s)
    ensures q + Square(x) <= Product(t, s + x)
  {
    assert Product(x, x) <= Product(t, x);
  }

  lemma {:induction false} SquaresAtMost(v: seq<u32>, top: u32)
    requires AtMost(v, top)
    ensures SumOfSquares(v) <= Product(top as real, Sum(v) as real)
  {
    if v != [] {
      hide Square, Product;
      var n := |v| - 1;
      SquaresAtMost(v[..n], top);
      SquareStep(SumOfSquares(v[..n]), Sum(v[..n]) as real, v[n] as real, top as real);
      assert Sum(v[..n]) as real + v[n] as real == Sum(v) as real;
    } else {
      assert Product(top as real, 0.0) == 0.0;
    }
  }

  lemma MeanTimes(total: real, n: real)
    requires n > 0.0
    ensures Product(n, total / n) == total
  {
  }

  lemma MeanCentres(v: seq<u32>)
    requires v != []
    ensures Product(|v| as real, Mean(v)) == Sum(v) as real
  {
    hide Product, Sum;
    MeanTimes(Sum(v) as real, |v| as real);
  }

  lemma CentreAlgebra(dm: real, dc: real, q: real, s: real, n: real, c: real, m: real)
    requires Product(n, c) == s && Expands(dm, q, s, n, m) && Expands(dc, q, s, n, c)
    ensures dm == dc + Product(n, Square(m - c))
  {
  }

  /** Moving the centre away from the mean by `d` adds exactly `n * d^2`. */
  lemma DeviationFromMean(v: seq<u32>, m: real)
    requires v != []
    ensures Deviation(v, m) == Deviation(v, Mean(v)) + Product(|v| as real, Square(m - Mean(v)))
  {
    hide *;
    MeanCentres(v);
    DeviationExpands(v, m);
    DeviationExpands(v, Mean(v));
    CentreAlgebra(Deviation(v, m), Deviation(v, Mean(v)), SumOfSquares(v), Sum(v) as real, |v| as real, Mean(v), m);
  }

  /** Completing the square. */
  lemma QuadraticBound(d: real, q: real, s: real, n: real, c: real, t: real)
    requires n >= 0.0 && Product(n, c) == s && q <= Product(t, s) && Expands(d, q, s, n, c)
    ensures d <= Product(n, Square(t)) / 4.0
  {
    SquareNonNegative(t / 2.0 - c);
    ScaleNonNegative(n, Square(t / 2.0 - c));
    assert Product(n, Square(t / 2.0 - c)) ==
      Product(n, Square(t)) / 4.0 - Product(t, Product(n, c)) + Product(n, Square(c));
    assert Product(c, s) == Product(n, Square(c));
  }

  lemma ScaleNonNegative(n: real, x: real)
    requires n >= 0.0 && x >= 0.0
    ensures Product(n, x) >= 0.0
  {
  }

  /** Squared deviation of values in `[0, top]` from their mean is at most `n * top^2 / 4`. */
  lemma DeviationBounded(v: seq<u32>, top: u32)
    requires v != [] && AtMost(v, top)
    ensures 0.0 <= Deviation(v, Mean(v)) <= Product(|v| as real, Square(top as real)) / 4.0
  {
    hide *;
    DeviationNonNegative(v, Mean(v));
    DeviationExpands(v, Mean(v));
    SquaresAtMost(v, top);
    MeanCentres(v);
    QuadraticBound(Deviation(v, Mean(v)), SumOfSquares(v), Sum(v) as real, |v| as real, Mean(v), top as real);
  }

  lemma DivideBound(d: real, n: real, q: real)
    requires n > 0.0 && 0.0 <= d <= Product(n, q)
    ensures 0.0 <= d / n <= q
  {
  }

  lemma HalfBound(d: real, n: real, q: real)
    requires n >= 2.0 && q >= 0.0 && 0.0 <= d <= Product(n, q) / 4.0
    ensures d <= Product(n - 1.0, q / 2.0)
  {
    ScaleNonNegative(n - 2.0, q);
  }

  /** The bound behind the normalisation constant: for two or more values in `[0, top]` the corrected
      sample variance is at most `top^2 / 2`. */
  lemma VarianceBounded(v: seq<u32>, top: u32)
    requires |v| > 1 && AtMost(v, top)
    ensures 0.0 <= Variance(v) <= Square(top as real) / 2.0
  {
    hide Deviation, Mean, Square, Product;
    DeviationBounded(v, top);
    SquareNonNegative(top as real);
    HalfBound(Deviation(v, Mean(v)), |v| as real, Square(top as real));
    DivideBound(Deviation(v, Mean(v)), (|v| - 1) as real, Square(top as real) / 2.0);
  }

  lemma SameQuotient(a: real, b: real, n: real)
    requires n > 0.0
    ensures a / n == b / n <==> a == b
  {
    MeanTimes(a, n);
    MeanTimes(b, n);
  }

  /** The computed mean is the mean exactly when the latencies add up in 32 bits. */
  lemma ComputedMeanExact(v: seq<u32>)
    requires v != []
    ensures ComputedMean(v) == Mean(v) <==> Sum(v) <= U32_MAX
  {
    WrappingSumIs(v);
    SameQuotient(WrappingSum(v) as real, Sum(v) as real, |v| as real);
  }

  /** The computed variance is the sample variance exactly when the latencies add up in 32 bits. */
  lemma ComputedVarianceExact(v: seq<u32>)
    requires |v| > 1
    ensures ComputedVariance(v) == Variance(v) <==> Sum(v) <= U32_MAX
  {
    var n, c, m := |v| as real, Mean(v), ComputedMean(v);
    ComputedMeanExact(v);
    hide Deviation, Mean, ComputedMean, Product, Square;
    DeviationFromMean(v, m);
    SameQuotient(Deviation(v, m), Deviation(v, c), (|v| - 1) as real);
    SquareNonNegative(m - c);
    if m != c {
      ProductPositive(n, Square(m - c));
    }
  }

  lemma {:induction false} SumAtMost(v: seq<u32>, top: u32)
    requires AtMost(v, top)
    ensures Sum(v) <= |v| * top
  {
    if v != [] {
      SumAtMost(v[..|v| - 1], top);
      assert (|v| - 1) * top + top == |v| * top;
    }
  }

  /** `n` values in `[0, top]` that add up to `total`, as few of them as possible strictly between. */
  function Greedy(n: nat, top: u32, total: nat): (v: seq<u32>)
    ensures |v| == n && AtMost(v, top)
  {
    if n == 0 then []
    else
      var x := Min(top, total);
      Greedy(n - 1, top, total - x) + [x]
  }

  lemma OneLess(n: nat, top: nat)
    requires n > 0
    ensures 0 <= (n - 1) * top == n * top - top
  {
  }

  lemma {:induction false} GreedySum(n: nat, top: u32, total: nat)
    requires total <= n * top
    ensures Sum(Greedy(n, top, total)) == total
  {
    if n > 0 {
      var x := Min(top, total);
      OneLess(n, top);
      GreedySum(n - 1, top, total - x);
      assert Greedy(n, top, total)[..n - 1] == Greedy(n - 1, top, total - x);
    }
  }

  lemma {:induction false} SquaresNonNegative(v: seq<u32>)
    ensures SumOfSquares(v) >= 0.0
  {
    if v != [] {
      SquaresNonNegative(v[..|v| - 1]);
      SquareNonNegative(v[|v| - 1] as real);
    }
  }

  /** One value short of `top` costs at most a quarter of `top^2`. */
  lemma ShortSquare(x: real, t: real)
    ensures Square(x) >= Product(t, x) - Square(t) / 4.0
  {
    SquareNonNegative(x - t / 2.0);
    assert Square(x - t / 2.0) == Square(x) - Product(t, x) + Square(t) / 4.0;
  }

  lemma TakeOne(t: real, total: real)
    ensures Product(t, total - t) + Square(t) == Product(t, total)
  {
  }

  lemma SquareOfZero()
    ensures Square(0.0) == 0.0
  {
  }

  lemma GreedyNone(top: u32, total: nat)
    requires total == 0
    ensures SumOfSquares(Greedy(0, top, total)) >= Product(top as real, total as real) - Square(top as real) / 4.0
  {
    hide Square, Product;
    ShortSquare(0.0, top as real);
    SquareOfZero();
  }

  lemma GreedyStep(n: nat, top: u32, total: nat)
    requires n > 0
    ensures var x, rest := Min(top, total), Greedy(n - 1, top, total - Min(top, total));
      SumOfSquares(Greedy(n, top, total)) == SumOfSquares(rest) + Square(x as real)
  {
    hide Square;
    var x := Min(top, total);
    assert Greedy(n, top, total)[..n - 1] == Greedy(n - 1, top, total - x);
  }

  lemma TakeWhole(total: nat, top: u32)
    requires total >= top
    ensures (total - top) as real == total as real - top as real
  {
  }

  lemma SquaresAdd(q: real, t: real, total: real)
    requires q >= Product(t, total - t) - Square(t) / 4.0
    ensures q + Square(t) >= Product(t, total) - Square(t) / 4.0
  {
    TakeOne(t, total);
  }

  lemma {:induction false} GreedySquares(n: nat, top: u32, total: nat)
    requires total <= n * top
    ensures SumOfSquares(Greedy(n, top, total)) >= Product(top as real, total as real) - Square(top as real) / 4.0
  {
    hide Square, Product, Greedy, SumOfSquares;
    if n == 0 {
      GreedyNone(top, total);
    } else {
      OneLess(n, top);
      GreedyStep(n, top, total);
      if total >= top {
        GreedySquares(n - 1, top, total - top);
        TakeWhole(total, top);
        SquaresAdd(SumOfSquares(Greedy(n - 1, top, total - top)), top as real, total as real);
      } else {
        SquaresNonNegative(Greedy(n - 1, top, 0));
        ShortSquare(total as real, top as real);
      }
    }
  }

  lemma WitnessArithmetic(q: real, n: real, t: real, total: real)
    requires n > 1.0 && t > 0.0 && 2.0 * total > Product(n, t) && q >= Product(t, total) - Square(t) / 4.0
    ensures q / (n - 1.0) > Square(t) / 2.0
  {
    ProductPositive(t, 2.0 * total - Product(n, t));
    ProductPositive(t, t);
    assert Product(t, 2.0 * total - Product(n, t)) == 2.0 * Product(t, total) - Product(n, Square(t));
    assert Product(n - 1.0, Square(t)) == Product(n, Square(t)) - Square(t);
    assert q > Product(n - 1.0, Square(t)) / 2.0;
    MeanTimes(q, n - 1.0);
    if q / (n - 1.0) <= Square(t) / 2.0 {
      ScaleNonNegative(n - 1.0, Square(t) / 2.0 - q / (n - 1.0));
      assert false;
    }
  }

  /** When `n` values of `top` do not add up in 32 bits, some `n` values in `[0, top]` add up to a multiple of
      2^32 that is more than half of `n * top`: they get mean 0 and too large a spread. */
  lemma OverflowWitness(n: nat, top: u32) returns (v: seq<u32>)
    requires n > 1 && n * top > U32_MAX
    ensures |v| == n && AtMost(v, top) && ComputedVariance(v) > Square(top as real) / 2.0
  {
    hide *;
    var bound := n * top;
    assert top > 0;
    var total := LargestMultiple(bound);
    v := Greedy(n, top, total);
    GreedySum(n, top, total);
    GreedySquares(n, top, total);
    SpreadAroundZero(v);
    ProductOfCasts(n, top);
    WitnessArithmetic(SumOfSquares(v), n as real, top as real, total as real);
  }

  lemma ProductOfCasts(n: nat, top: nat)
    ensures Product(n as real, top as real) == (n * top) as real
  {
  }

  lemma LargestMultiple(bound: nat) returns (total: nat)
    requires bound > U32_MAX
    ensures total % (U32_MAX + 1) == 0 && total <= bound < 2 * total
  {
    total := bound - bound % (U32_MAX + 1);
  }

  /** When the 32-bit total is 0, so is the computed mean. */
  lemma SpreadAroundZero(v: seq<u32>)
    requires |v| > 1 && Sum(v) % (U32_MAX + 1) == 0
    ensures ComputedVariance(v) == SumOfSquares(v) / (|v| - 1) as real
  {
    WrappingSumIs(v);
    assert ComputedMean(v) == 0.0;
    hide Deviation, SumOfSquares, Sum;
    DeviationExpands(v, 0.0);
  }

  /** The computed spread of `n` values in `[0, top]` keeps the bound of the sample variance exactly when `n`
      values of `top` add up in 32 bits. */
  lemma ComputedVarianceBoundedIff(n: nat, top: u32)
    requires n > 1
    ensures (forall v: seq<u32> | |v| == n && AtMost(v, top) :: ComputedVariance(v) <= Square(top as real) / 2.0)
       <==> n * top <= U32_MAX
  {
    hide ComputedVariance, Square, Sum, AtMost;
    if n * top <= U32_MAX {
      forall v: seq<u32> | |v| == n && AtMost(v, top)
        ensures ComputedVariance(v) <= Square(top as real) / 2.0
      {
        SumAtMost(v, top);
        ComputedVarianceExact(v);
        VarianceBounded(v, top);
      }
    } else {
      var v := OverflowWitness(n, top);
    }
  }

  lemma SameExpansion(d: real, e: real, q: real, s: real, n: real, m: real)
    requires Expands(d, q, s, n, m) && Expands(e, q, s, n, m)
    ensures d == e
  {
  }

  /** Sorting changes neither the totals nor the spread, sampled or computed. */
  lemma SortKeepsSpread(v: seq<u32>)
    requires |v| > 1
    ensures Sum(Sort(v)) == Sum(v)
    ensures Variance(Sort(v)) == Variance(v)
    ensures ComputedMean(Sort(v)) == ComputedMean(v) && ComputedVariance(Sort(v)) == ComputedVariance(v)
  {
    TotalsOfSort(v, 0);
    WrappingSumIs(v);
    WrappingSumIs(Sort(v));
    assert Mean(Sort(v)) == Mean(v);
    assert ComputedMean(Sort(v)) == ComputedMean(v);
    hide Deviation, Mean, ComputedMean, Expands, Sum, SumOfSquares, Sort;
    SortKeepsDeviation(v, Mean(v));
    SortKeepsDeviation(v, ComputedMean(v));
  }

  lemma SortKeepsDeviation(v: seq<u32>, m: real)
    ensures Deviation(Sort(v), m) == Deviation(v, m)
  {
    TotalsOfSort(v, 0);
    hide Deviation, Expands, Sum, SumOfSquares, Sort;
    DeviationExpands(v, m);
    DeviationExpands(Sort(v), m);
    SameExpansion(Deviation(v, m), Deviation(Sort(v), m), SumOfSquares(v), Sum(v) as real, |v| as real, m);
  }

  /** Two latencies of `u32::MAX`: both 32-bit sums wrap, and both results leave their range. */
  lemma TwoLargest()
    ensures var v := [U32_MAX, U32_MAX];
      && Sort(v) == v && Median(v) == U32_MAX / 2
      && ComputedVariance(v) > Square(U32_MAX as real) / 2.0
  {
    var v: seq<u32> := [U32_MAX, U32_MAX];
    assert v[..1] == [U32_MAX];
    assert [U32_MAX][..0] == [];
    assert Sort([U32_MAX]) == [U32_MAX];
    assert WrappingSum([U32_MAX]) == U32_MAX;
    assert WrappingSum(v) == 0xFFFF_FFFE;
    assert ComputedMean(v) == 2147483647.0;
    var d := Square(2147483648.0);
    assert Deviation([U32_MAX], 2147483647.0) == d;
    assert Deviation(v, 2147483647.0) == 2.0 * d;
  }
}
