/** Rolling volatility and the volatility-scaled target (backend/app/core/risk.py).
    Floats are exact reals, and the square root is left off: `Variance` is sigma squared. */
module Risk {
  import opened Arithmetic
  import opened Sizing

  function Positive(stream: seq<real>): seq<real> {
    if stream == [] then []
    else Positive(stream[..|stream| - 1]) + (if stream[|stream| - 1] > 0.0 then [stream[|stream| - 1]] else [])
  }

  function Last(s: seq<real>, n: nat): seq<real> {
    if |s| <= n then s else s[|s| - n..]
  }

  lemma LastAppend(s: seq<real>, x: real, n: nat)
    requires n > 0
    ensures Last(Last(s, n) + Positive([x]), n) == Last(s + Positive([x]), n)
  {
  }

  lemma PositiveAppend(s: seq<real>, x: real)
    ensures Positive(s + [x]) == Positive(s) + Positive([x])
  {
  }

  /** Simple returns between neighbours, skipping a non-positive base. */
  function Returns(p: seq<real>): seq<real> {
    if |p| < 2 then []
    else
      var prev, cur := p[|p| - 2], p[|p| - 1];
      Returns(p[..|p| - 1]) + (if prev > 0.0 then [cur / prev - 1.0] else [])
  }

  class RollingVolatility {
    const window: nat
    var prices: seq<real>

    predicate Valid()
      reads this
    {
      window >= 2 && |prices| <= window + 1
    }

    /** A window under two is refused on construction. */
    constructor (window: nat)
      requires window >= 2
      ensures Valid() && prices == [] && this.window == window
    {
      this.window, prices := window, [];
    }

    method Update(price: real)
      requires Valid()
      modifies this
      ensures Valid() && prices == Last(old(prices) + Positive([price]), window + 1)
    {
      assert Positive([price]) == if price > 0.0 then [price] else [];
      if price > 0.0 {
        prices := prices + [price];
        if |prices| > window + 1 { prices := prices[1..]; }
      }
    }

    /** After any stream, the buffer is the last `window + 1` positive prices. */
    method Extend(stream: seq<real>)
      requires Valid()
      modifies this
      ensures Valid() && prices == Last(old(prices) + Positive(stream), window + 1)
    {
      ghost var was := prices;
      for i := 0 to |stream|
        invariant Valid() && prices == Last(was + Positive(stream[..i]), window + 1)
      {
        assert stream[..i + 1] == stream[..i] + [stream[i]];
        PositiveAppend(stream[..i], stream[i]);
        LastAppend(was + Positive(stream[..i]), stream[i], window + 1);
        assert was + Positive(stream[..i + 1]) == was + Positive(stream[..i]) + Positive([stream[i]]);
        Update(stream[i]);
      }
      assert stream[..|stream|] == stream;
    }

    function SigmaSquared(): real
      reads this
    {
      Variance(Returns(prices))
    }
  }

  // ---- Variance ------------------------------------------------------------------------------

  function Sum(r: seq<real>): real {
    if r == [] then 0.0 else Sum(r[..|r| - 1]) + r[|r| - 1]
  }

  function Times(x: real, y: real): real { x * y }

  function SquaresAbout(r: seq<real>, m: real): real {
    if r == [] then 0.0
    else SquaresAbout(r[..|r| - 1], m) + Times(r[|r| - 1] - m, r[|r| - 1] - m)
  }

  function Mean(r: seq<real>): real
    requires r != []
  {
    Sum(r) / |r| as real
  }

  /** Sample variance; fewer than two returns measure nothing. */
  function Variance(r: seq<real>): real {
    if |r| < 2 then 0.0 else SquaresAbout(r, Mean(r)) / (|r| - 1) as real
  }

  lemma SameSign(x: real, y: real)
    requires x != 0.0 && y != 0.0 && (x > 0.0 <==> y > 0.0)
    ensures Times(x, y) > 0.0
  {
  }

  lemma {:induction false} SquaresVanish(r: seq<real>, m: real)
    ensures SquaresAbout(r, m) >= 0.0
    ensures SquaresAbout(r, m) == 0.0 <==> forall i :: 0 <= i < |r| ==> r[i] == m
  {
    if r != [] {
      var s := r[..|r| - 1];
      SquaresVanish(s, m);
      var d := r[|r| - 1] - m;
      if d != 0.0 { SameSign(d, d); }
      assert forall i :: 0 <= i < |s| ==> s[i] == r[i];
    }
  }

  lemma {:induction false} SumOfEqual(r: seq<real>, x: real)
    requires forall i :: 0 <= i < |r| ==> r[i] == x
    ensures Sum(r) == |r| as real * x
  {
    if r != [] {
      SumOfEqual(r[..|r| - 1], x);
    }
  }

  /** Variance is never negative, and vanishes exactly when nothing was measured or nothing moved. */
  lemma {:induction false} VarianceVanishes(r: seq<real>)
    ensures Variance(r) >= 0.0
    ensures Variance(r) == 0.0 <==> |r| < 2 || forall i, j :: 0 <= i < |r| && 0 <= j < |r| ==> r[i] == r[j]
  {
    if |r| >= 2 {
      var m, n := Mean(r), (|r| - 1) as real;
      SquaresVanish(r, m);
      assert n > 0.0;
      DivVanishes(SquaresAbout(r, m), n);
      if forall i, j :: 0 <= i < |r| && 0 <= j < |r| ==> r[i] == r[j] {
        SumOfEqual(r, r[0]);
        assert m == r[0];
      }
    }
  }

  lemma DivVanishes(a: real, n: real)
    requires a >= 0.0 && n > 0.0
    ensures a / n >= 0.0 && (a / n == 0.0 <==> a == 0.0)
  {
  }

  /** Squared differences over all pairs of returns. */
  function PairSquares(r: seq<real>): real {
    if r == [] then 0.0
    else PairSquares(r[..|r| - 1]) + SquaresAbout(r[..|r| - 1], r[|r| - 1])
  }

  function Squares(r: seq<real>): real {
    if r == [] then 0.0 else Squares(r[..|r| - 1]) + Times(r[|r| - 1], r[|r| - 1])
  }

  lemma Square(x: real, m: real)
    ensures Times(x - m, x - m) == Times(x, x) - 2.0 * Times(m, x) + Times(m, m)
  {
  }

  lemma Distribute(m: real, a: real, b: real)
    ensures Times(m, a + b) == Times(m, a) + Times(m, b)
  {
  }

  lemma {:induction false} SquaresExpand(r: seq<real>, m: real)
    ensures SquaresAbout(r, m) == Squares(r) - 2.0 * Times(m, Sum(r)) + Times(|r| as real, Times(m, m))
  {
    if r != [] {
      var s, x := r[..|r| - 1], r[|r| - 1];
      SquaresExpand(s, m);
      Square(x, m);
      Distribute(m, Sum(s), x);
      NextTimes(|s|, Times(m, m));
    }
  }

  lemma NextTimes(n: int, y: real)
    ensures Times((n + 1) as real, y) == Times(n as real, y) + y
  {
    var x := n as real;
    assert (n + 1) as real == x + 1.0;
  }

  lemma {:induction false} PairsExpand(r: seq<real>)
    ensures PairSquares(r) == Times(|r| as real, Squares(r)) - Times(Sum(r), Sum(r))
  {
    if r != [] {
      var s, x := r[..|r| - 1], r[|r| - 1];
      PairsExpand(s);
      SquaresExpand(s, x);
      PairStep(|s|, Squares(s), Sum(s), x);
    }
  }

  lemma PairStep(n: int, q: real, s: real, x: real)
    ensures Times(n as real, q) - Times(s, s) + (q - 2.0 * Times(x, s) + Times(n as real, Times(x, x)))
         == Times((n + 1) as real, q + Times(x, x)) - Times(s + x, s + x)
  {
    NextTimes(n, q + Times(x, x));
    Distribute(n as real, q, Times(x, x));
    Square(s, -x);
  }

  lemma MeanSquares(n: real, q: real, s: real, m: real)
    requires Times(n, m) == s
    ensures Times(n, q - 2.0 * Times(m, s) + Times(n, Times(m, m))) == Times(n, q) - Times(s, s)
  {
    var nm := Times(n, m);
    assert Times(n, Times(m, s)) == Times(nm, s);
    assert Times(n, Times(n, Times(m, m))) == Times(nm, nm);
    Distribute(n, q, -2.0 * Times(m, s) + Times(n, Times(m, m)));
    Distribute(n, -2.0 * Times(m, s), Times(n, Times(m, m)));
    assert Times(n, -2.0 * Times(m, s)) == -2.0 * Times(n, Times(m, s));
  }

  /** Sample variance without a mean: `n` times `n - 1` of it are the squared differences over all pairs. */
  lemma {:induction false} VarianceIsPairwise(r: seq<real>)
    requires |r| >= 2
    ensures Times(|r| as real, Times((|r| - 1) as real, Variance(r))) == PairSquares(r)
  {
    var n, m := |r| as real, Mean(r);
    MeanTimes(Sum(r), n);
    SquaresExpand(r, m);
    MeanSquares(n, Squares(r), Sum(r), m);
    PairsExpand(r);
    MeanTimes(SquaresAbout(r, m), (|r| - 1) as real);
  }

  lemma MeanTimes(s: real, n: real)
    requires n > 0.0
    ensures Times(n, s / n) == s
  {
  }

  /** Over positive prices the returns are each price over the one before, less one. */
  lemma {:induction false} ReturnsAre(p: seq<real>)
    requires p != [] && forall i :: 0 <= i < |p| ==> p[i] > 0.0
    ensures |Returns(p)| == |p| - 1
    ensures forall i :: 0 <= i < |p| - 1 ==> Returns(p)[i] == p[i + 1] / p[i] - 1.0
  {
    if |p| >= 2 {
      var q := p[..|p| - 1];
      assert forall i :: 0 <= i < |q| ==> q[i] == p[i];
      ReturnsAre(q);
    }
  }

  /** What is kept of a stream is its positive prices, every one of them. */
  lemma {:induction false} PositiveKeeps(stream: seq<real>, x: real)
    ensures multiset(Positive(stream))[x] == if x > 0.0 then multiset(stream)[x] else 0
  {
    if stream != [] {
      PositiveKeeps(stream[..|stream| - 1], x);
      assert stream == stream[..|stream| - 1] + [stream[|stream| - 1]];
    }
  }

  function Scaled(p: seq<real>, c: real): (q: seq<real>)
    ensures |q| == |p| && forall i :: 0 <= i < |p| ==> q[i] == Times(c, p[i])
  {
    if p == [] then [] else Scaled(p[..|p| - 1], c) + [Times(c, p[|p| - 1])]
  }

  lemma ScaledPrefix(p: seq<real>, c: real)
    requires p != []
    ensures Scaled(p, c)[..|p| - 1] == Scaled(p[..|p| - 1], c)
  {
  }

  /** One return, whatever the unit. */
  lemma SameReturn(prev: real, cur: real, c: real, scaledPrev: real, scaledCur: real)
    requires c > 0.0 && scaledPrev == Times(c, prev) && scaledCur == Times(c, cur)
    ensures prev > 0.0 <==> scaledPrev > 0.0
    ensures prev > 0.0 ==> scaledCur / scaledPrev - 1.0 == cur / prev - 1.0
  {
    if prev > 0.0 {
      ScaleRatio(cur, prev, c);
    } else if prev < 0.0 {
      SameSign(c, -prev);
    }
  }

  /** Quoting every price in another unit changes no return, hence no variance. */
  lemma {:induction false} UnitsDoNotMatter(p: seq<real>, c: real)
    requires c > 0.0
    ensures Returns(Scaled(p, c)) == Returns(p)
  {
    if |p| >= 2 {
      var q := Scaled(p, c);
      ScaledPrefix(p, c);
      UnitsDoNotMatter(p[..|p| - 1], c);
      SameReturn(p[|p| - 2], p[|p| - 1], c, q[|q| - 2], q[|q| - 1]);
    }
  }

  lemma ScaleRatio(a: real, b: real, c: real)
    requires b > 0.0 && c > 0.0
    ensures c * b > 0.0 && (c * a) / (c * b) == a / b
  {
  }

  // ---- The target ----------------------------------------------------------------------------

  /** The target in bps; the code raises when the band is inverted. */
  function HfTargetBps(sigma: real, baseBps: int, maxBps: int, k: int): Option<int> {
    if maxBps < baseBps then None
    else Some(Max(baseBps, Min(baseBps + Max(Trunc(k as real * sigma), 0), maxBps)))
  }

  /** The target exactly: the base and the whole basis points in `k` times sigma, up to the ceiling. */
  lemma TargetIs(sigma: real, baseBps: int, maxBps: int, k: int, extra: int)
    requires baseBps <= maxBps && k as real * sigma >= 0.0
    requires extra as real <= k as real * sigma < extra as real + 1.0
    ensures HfTargetBps(sigma, baseBps, maxBps, k) == Some(if baseBps + extra <= maxBps then baseBps + extra else maxBps)
  {
    TruncIs(k as real * sigma, extra);
  }

  lemma TruncIs(x: real, n: int)
    requires 0.0 <= x && n as real <= x < n as real + 1.0
    ensures Trunc(x) == n >= 0
  {
  }

  /** Inverted bands have no target; a negative product adds nothing. */
  lemma TargetEdges(sigma: real, baseBps: int, maxBps: int, k: int)
    ensures HfTargetBps(sigma, baseBps, maxBps, k).None? <==> maxBps < baseBps
    ensures baseBps <= maxBps && k as real * sigma <= 0.0 ==> HfTargetBps(sigma, baseBps, maxBps, k) == Some(baseBps)
  {
  }

  /** The target stays in the signed band and never falls as volatility rises. */
  lemma TargetInBandAndMonotone(low: real, high: real, baseBps: int, maxBps: int, k: int)
    requires baseBps <= maxBps && k >= 0 && low <= high
    ensures baseBps <= HfTargetBps(low, baseBps, maxBps, k).value
                    <= HfTargetBps(high, baseBps, maxBps, k).value <= maxBps
  {
    assert k as real * low <= k as real * high;
    TruncMonotone(k as real * low, k as real * high);
  }

  /** For a covered position more volatility never means a smaller repayment, also where it moves an
      unreachable target into reach. */
  lemma RepayMonotoneInVolatility(p: Position, low: real, high: real, baseBps: int, maxBps: int, k: int,
                                  priceBase: int, decimals: nat, costBps: int, overshootBps: int)
    requires Plausible(p) && costBps >= 0 && overshootBps >= 0 && Covered(p, costBps)
    requires 0 <= baseBps <= maxBps && k >= 0 && low <= high
    ensures SizeRepay(p, HfTargetBps(low, baseBps, maxBps, k).value, priceBase, decimals, costBps, overshootBps).repayAmount
         <= SizeRepay(p, HfTargetBps(high, baseBps, maxBps, k).value, priceBase, decimals, costBps, overshootBps).repayAmount
  {
    TargetInBandAndMonotone(low, high, baseBps, maxBps, k);
    RepayMonotone(p, HfTargetBps(low, baseBps, maxBps, k).value, HfTargetBps(high, baseBps, maxBps, k).value,
                  priceBase, decimals, costBps, overshootBps);
  }
}
