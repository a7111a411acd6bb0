/*
 * The indicator engine of the stock dashboard: an exponential moving average
 * seeded with the first price, and a MACD line that is the spread between a
 * fast (8-period) and a slow (20-period) average. Prices are real numbers;
 * floating-point rounding is not modelled.
 */
module Indicators {

  /** Period of the fast average in the MACD line. */
  const FastPeriod: nat := 8

  /** Period of the slow average in the MACD line. */
  const SlowPeriod: nat := 20

  /** The smoothing factor 2 / (period + 1). */
  function Multiplier(period: nat): (m: real)
    ensures 0.0 < m <= 2.0
    ensures period >= 1 ==> m <= 1.0
    ensures period == 1 <==> m == 1.0
  {
    2.0 / (period as real + 1.0)
  }

  /** One step of the recurrence: move from the previous average towards the new price by the fraction m. */
  function Smooth(prev: real, price: real, m: real): real
  {
    (price - prev) * m + prev
  }

  /** x lies on the closed segment between a and b. */
  predicate Between(a: real, b: real, x: real)
  {
    (a <= x <= b) || (b <= x <= a)
  }

  predicate NonDecreasing(s: seq<real>)
  {
    forall i, j :: 0 <= i <= j < |s| ==> s[i] <= s[j]
  }

  lemma MulNonNeg(a: real, b: real)
    requires a >= 0.0 && b >= 0.0
    ensures a * b >= 0.0
  {
  }

  /** With a fraction in [0, 1], one step is a convex combination of the previous average and the price. */
  lemma SmoothBetween(prev: real, price: real, m: real)
    requires 0.0 <= m <= 1.0
    ensures Between(prev, price, Smooth(prev, price, m))
  {
    if prev <= price {
      MulNonNeg(m, price - prev);
      MulNonNeg(1.0 - m, price - prev);
      assert Smooth(prev, price, m) - prev == m * (price - prev);
      assert price - Smooth(prev, price, m) == (1.0 - m) * (price - prev);
    } else {
      MulNonNeg(m, prev - price);
      MulNonNeg(1.0 - m, prev - price);
      assert prev - Smooth(prev, price, m) == m * (prev - price);
      assert Smooth(prev, price, m) - price == (1.0 - m) * (prev - price);
    }
  }

  lemma DivAntitone(x: real, y: real)
    requires 0.0 < x <= y
    ensures 2.0 / y <= 2.0 / x
  {
  }

  /** A longer period gives a smaller multiplier. */
  lemma MultiplierAntitone(p: nat, q: nat)
    requires p <= q
    ensures Multiplier(q) <= Multiplier(p)
  {
    DivAntitone(p as real + 1.0, q as real + 1.0);
  }

  /**
   * The exponential moving average of a non-empty price series: the first
   * element is the first price, and every later element applies Smooth to
   * the element before it and the price at the same index.
   */
  function Ema(prices: seq<real>, period: nat): (ema: seq<real>)
    requires |prices| > 0
    ensures |ema| == |prices|
    ensures ema[0] == prices[0]
    decreases |prices|
  {
    if |prices| == 1 then [prices[0]]
    else
      var prev := Ema(prices[..|prices| - 1], period);
      prev + [Smooth(prev[|prev| - 1], prices[|prices| - 1], Multiplier(period))]
  }

  /** Builds the average by appending one value per price, reading the value appended last. */
  method CalculateEma(prices: seq<real>, period: nat) returns (ema: seq<real>)
    requires |prices| > 0
    ensures ema == Ema(prices, period)
  {
    var multiplier := Multiplier(period);
    ema := [prices[0]];
    var i := 1;
    while i < |prices|
      invariant 1 <= i <= |prices|
      invariant ema == Ema(prices[..i], period)
    {
      var price := prices[i];
      var emaValue := (price - ema[|ema| - 1]) * multiplier + ema[|ema| - 1];
      var upto := prices[..i + 1];
      assert upto[..|upto| - 1] == prices[..i];
      assert upto[|upto| - 1] == price;
      assert emaValue == Smooth(ema[|ema| - 1], price, multiplier);
      ema := ema + [emaValue];
      i := i + 1;
    }
    assert prices[..i] == prices;
  }

  /** The average of a prefix is the prefix of the average. */
  lemma {:induction false} EmaPrefix(prices: seq<real>, period: nat, k: nat)
    requires 1 <= k <= |prices|
    ensures Ema(prices[..k], period) == Ema(prices, period)[..k]
    decreases |prices|
  {
    if k == |prices| {
      assert prices[..k] == prices;
    } else {
      var init := prices[..|prices| - 1];
      EmaPrefix(init, period, k);
      assert init[..k] == prices[..k];
    }
  }

  /** Every element after the seed follows the recurrence (price - previous) * multiplier + previous. */
  lemma EmaRecurrence(prices: seq<real>, period: nat, i: nat)
    requires 0 < i < |prices|
    ensures Ema(prices, period)[i] == Smooth(Ema(prices, period)[i - 1], prices[i], Multiplier(period))
  {
    var ema := Ema(prices, period);
    var upto := prices[..i + 1];
    EmaPrefix(prices, period, i + 1);
    EmaPrefix(prices, period, i);
    assert upto[..i] == prices[..i];
    assert Ema(upto, period)[i] == ema[i];
  }

  /** For a period of at least 1, each element lies between the element before it and the current price. */
  lemma EmaStepBetween(prices: seq<real>, period: nat, i: nat)
    requires period >= 1
    requires 0 < i < |prices|
    ensures Between(Ema(prices, period)[i - 1], prices[i], Ema(prices, period)[i])
  {
    EmaRecurrence(prices, period, i);
    SmoothBetween(Ema(prices, period)[i - 1], prices[i], Multiplier(period));
  }

  /** For a period of at least 1, the average never leaves a range that holds every price. */
  lemma {:induction false} EmaWithin(prices: seq<real>, period: nat, lo: real, hi: real)
    requires period >= 1
    requires |prices| > 0
    requires forall i :: 0 <= i < |prices| ==> lo <= prices[i] <= hi
    ensures forall i :: 0 <= i < |prices| ==> lo <= Ema(prices, period)[i] <= hi
    decreases |prices|
  {
    if |prices| > 1 {
      var init := prices[..|prices| - 1];
      var prev := Ema(init, period);
      EmaWithin(init, period, lo, hi);
      SmoothBetween(prev[|prev| - 1], prices[|prices| - 1], Multiplier(period));
    }
  }

  /** A constant price series has a constant average equal to that price, for every period. */
  lemma {:induction false} EmaConstant(prices: seq<real>, period: nat, c: real)
    requires |prices| > 0
    requires forall i :: 0 <= i < |prices| ==> prices[i] == c
    ensures forall i :: 0 <= i < |prices| ==> Ema(prices, period)[i] == c
    decreases |prices|
  {
    if |prices| > 1 {
      EmaConstant(prices[..|prices| - 1], period, c);
    }
  }

  /** With period 1 the multiplier is 1 and the average is the price series itself. */
  lemma {:induction false} EmaPeriodOne(prices: seq<real>)
    requires |prices| > 0
    ensures Ema(prices, 1) == prices
    decreases |prices|
  {
    if |prices| > 1 {
      var init := prices[..|prices| - 1];
      EmaPeriodOne(init);
      assert Multiplier(1) == 1.0;
      assert Smooth(init[|init| - 1], prices[|prices| - 1], 1.0) == prices[|prices| - 1];
      assert init + [prices[|prices| - 1]] == prices;
    }
  }

  /** Prices 100, 102, 101, 105, 107 with period 3 (multiplier 1/2) give 100, 101, 101, 103, 105. */
  lemma EmaExample()
    ensures Ema([100.0, 102.0, 101.0, 105.0, 107.0], 3) == [100.0, 101.0, 101.0, 103.0, 105.0]
  {
    var p := [100.0, 102.0, 101.0, 105.0, 107.0];
    assert Multiplier(3) == 0.5;
    assert p[..2][..1] == p[..1] == [100.0];
    assert Ema(p[..2], 3) == [100.0, 101.0];
    assert p[..3][..2] == p[..2];
    assert Ema(p[..3], 3) == [100.0, 101.0, 101.0];
    assert p[..4][..3] == p[..3];
    assert Ema(p[..4], 3) == [100.0, 101.0, 101.0, 103.0];
    assert p[..|p| - 1] == p[..4];
  }

  /** When prices never fall, the average never exceeds the current price (it lags behind). */
  lemma {:induction false} RisingEmaLags(prices: seq<real>, period: nat)
    requires period >= 1
    requires |prices| > 0
    requires NonDecreasing(prices)
    ensures forall i :: 0 <= i < |prices| ==> Ema(prices, period)[i] <= prices[i]
    decreases |prices|
  {
    if |prices| > 1 {
      var n := |prices|;
      var init := prices[..n - 1];
      RisingEmaLags(init, period);
      var prev := Ema(init, period);
      assert prev[n - 2] <= prices[n - 2] <= prices[n - 1];
      SmoothBetween(prev[n - 2], prices[n - 1], Multiplier(period));
    }
  }

  /** With a fraction at most 1, a higher previous average gives a higher next one. */
  lemma SmoothMonotonePrev(a: real, b: real, price: real, m: real)
    requires a <= b && m <= 1.0
    ensures Smooth(a, price, m) <= Smooth(b, price, m)
  {
    MulNonNeg(1.0 - m, b - a);
    assert Smooth(b, price, m) - Smooth(a, price, m) == (1.0 - m) * (b - a);
  }

  /** Below the price, a larger fraction moves further towards it. */
  lemma SmoothMonotoneFraction(prev: real, price: real, m1: real, m2: real)
    requires prev <= price && m1 <= m2
    ensures Smooth(prev, price, m1) <= Smooth(prev, price, m2)
  {
    MulNonNeg(m2 - m1, price - prev);
    assert Smooth(prev, price, m2) - Smooth(prev, price, m1) == (m2 - m1) * (price - prev);
  }

  /**
   * When prices never fall, the average with the shorter period stays at or
   * above the average with the longer period.
   */
  lemma {:induction false} RisingFastAboveSlow(prices: seq<real>, fast: nat, slow: nat)
    requires 1 <= fast <= slow
    requires |prices| > 0
    requires NonDecreasing(prices)
    ensures forall i :: 0 <= i < |prices| ==> Ema(prices, fast)[i] >= Ema(prices, slow)[i]
    decreases |prices|
  {
    if |prices| > 1 {
      var n := |prices|;
      var init := prices[..n - 1];
      RisingFastAboveSlow(init, fast, slow);
      RisingEmaLags(init, slow);
      var f, s := Ema(init, fast)[n - 2], Ema(init, slow)[n - 2];
      var p := prices[n - 1];
      MultiplierAntitone(fast, slow);
      assert s <= prices[n - 2] <= p;
      SmoothMonotonePrev(s, f, p, Multiplier(fast));
      SmoothMonotoneFraction(s, p, Multiplier(slow), Multiplier(fast));
    }
  }

  /** The MACD line with the fast and slow averages it is computed from. */
  datatype MacdSeries = MacdSeries(line: seq<real>, fast: seq<real>, slow: seq<real>)

  /** The MACD line is the index-wise difference of the 8-period and 20-period averages; no signal line. */
  function CalculateMacd(prices: seq<real>): (r: MacdSeries)
    requires |prices| > 0
    ensures r.fast == Ema(prices, FastPeriod) && r.slow == Ema(prices, SlowPeriod)
    ensures |r.line| == |prices|
    ensures forall i :: 0 <= i < |prices| ==> r.line[i] == r.fast[i] - r.slow[i]
  {
    var fast := Ema(prices, FastPeriod);
    var slow := Ema(prices, SlowPeriod);
    MacdSeries(seq(|fast|, i requires 0 <= i < |fast| => fast[i] - slow[i]), fast, slow)
  }

  /** Both averages share the seed, so the MACD line starts at zero. */
  lemma MacdStartsAtZero(prices: seq<real>)
    requires |prices| > 0
    ensures CalculateMacd(prices).line[0] == 0.0
  {
    var r := CalculateMacd(prices);
    assert r.fast[0] == prices[0] == r.slow[0];
  }

  /** A constant price series has a MACD line that is zero everywhere. */
  lemma MacdConstantIsZero(prices: seq<real>, c: real)
    requires |prices| > 0
    requires forall i :: 0 <= i < |prices| ==> prices[i] == c
    ensures forall i :: 0 <= i < |prices| ==> CalculateMacd(prices).line[i] == 0.0
  {
    EmaConstant(prices, FastPeriod, c);
    EmaConstant(prices, SlowPeriod, c);
  }

  /** When prices never fall, the MACD line is never negative. */
  lemma MacdRisingNonNegative(prices: seq<real>)
    requires |prices| > 0
    requires NonDecreasing(prices)
    ensures forall i :: 0 <= i < |prices| ==> CalculateMacd(prices).line[i] >= 0.0
  {
    RisingFastAboveSlow(prices, FastPeriod, SlowPeriod);
  }
}
