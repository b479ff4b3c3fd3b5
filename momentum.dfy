/**
 * The momentum indicator of the momentum-analysis page: an RSI-like value
 * computed from the rolling means of price gains and losses.
 *
 * `prices.diff()` is NaN at index 0; `delta.where(delta > 0, 0)` turns that
 * NaN and every non-positive change into 0, so the gain and loss series are
 * finite and non-negative throughout.  `rolling(window).mean()` is NaN for
 * the first `window - 1` entries and the plain mean of the last `window`
 * values afterwards.  The final expression is evaluated in the IEEE sense
 * modelled by ExtReal.
 */
module Momentum {
  import opened ExtReal
  import opened Series

  /** `prices.diff()`: NaN first, then the change since the previous price. */
  function Delta(prices: seq<real>, i: nat): Ext
    requires i < |prices|
  {
    if i == 0 then NaN else Num(prices[i] - prices[i - 1])
  }

  /** `delta.where(delta > 0, 0)` at index i. */
  function Gain(prices: seq<real>, i: nat): (g: real)
    requires i < |prices|
    ensures g >= 0.0
    ensures g > 0.0 <==> i > 0 && prices[i] > prices[i - 1]
  {
    var d := Delta(prices, i);
    if d.Num? && d.v > 0.0 then d.v else 0.0
  }

  /** `-delta.where(delta < 0, 0)` at index i. */
  function Loss(prices: seq<real>, i: nat): (l: real)
    requires i < |prices|
    ensures l >= 0.0
    ensures l > 0.0 <==> i > 0 && prices[i] < prices[i - 1]
  {
    var d := Delta(prices, i);
    if d.Num? && d.v < 0.0 then -d.v else 0.0
  }

  function Gains(prices: seq<real>): (gs: seq<real>)
    ensures |gs| == |prices|
  {
    seq(|prices|, i requires 0 <= i < |prices| => Gain(prices, i))
  }

  function Losses(prices: seq<real>): (ls: seq<real>)
    ensures |ls| == |prices|
  {
    seq(|prices|, i requires 0 <= i < |prices| => Loss(prices, i))
  }

  /** `rolling(window=w).mean()`: NaN until a full window is available. */
  function RollingMean(xs: seq<real>, w: nat): (m: seq<Ext>)
    requires w >= 1
    ensures |m| == |xs|
  {
    seq(|xs|, i requires 0 <= i < |xs| =>
      if i < w - 1 then NaN else Num(Sum(xs[i - w + 1..i + 1]) / w as real))
  }

  /** `100 - (100 / (1 + rs))` with `rs = gain / loss`, all in IEEE arithmetic. */
  function Indicator(gain: Ext, loss: Ext): Ext {
    Sub(Num(100.0), Div(Num(100.0), Add(Num(1.0), Div(gain, loss))))
  }

  /** `calculate_momentum(prices, window)`. */
  function CalculateMomentum(prices: seq<real>, window: nat): (m: seq<Ext>)
    requires window >= 1
    ensures |m| == |prices|
  {
    var g := RollingMean(Gains(prices), window);
    var l := RollingMean(Losses(prices), window);
    seq(|prices|, i requires 0 <= i < |prices| => Indicator(g[i], l[i]))
  }

  // ---------------------------------------------------------------------
  // Properties
  // ---------------------------------------------------------------------

  /** `100 - 100 / (1 + g / l)` simplifies to `100·g / (g + l)` for a positive l. */
  lemma RatioForm(g: real, l: real)
    requires g >= 0.0 && l > 0.0
    ensures 100.0 - 100.0 / (1.0 + g / l) == 100.0 * g / (g + l)
  {
    var a := g / l;
    assert a * l == g;
    var b := 1.0 + a;
    assert b * l == l + g;
    assert b > 0.0;
    var c := 100.0 / b;
    assert c * b == 100.0;
    var r := 100.0 - c;
    assert c * (g + l) == 100.0 * l by {
      assert c * (g + l) == c * (b * l);
      assert c * (b * l) == (c * b) * l;
    }
    var s := g + l;
    assert r * s == 100.0 * g;
    assert r == 100.0 * g / s;
  }

  /** The indicator m of a finite, non-negative gain g and loss l, case by case. */
  lemma IndicatorOf(g: real, l: real, m: Ext)
    requires g >= 0.0 && l >= 0.0 && m == Indicator(Num(g), Num(l))
    ensures && (l > 0.0 ==> g + l > 0.0 && m == Num(100.0 * g / (g + l)))
      && (l > 0.0 && g == 0.0 ==> m == Num(0.0))
      && (l == 0.0 && g > 0.0 ==> m == Num(100.0))
      && (l == 0.0 && g == 0.0 ==> m == NaN)
  {
    if l > 0.0 {
      RatioForm(g, l);
      assert 1.0 + g / l > 0.0;
    }
  }

  /** The indicator of a finite, non-negative gain and loss is NaN or lies in [0, 100]. */
  lemma IndicatorBounded(g: real, l: real)
    requires g >= 0.0 && l >= 0.0
    ensures Indicator(Num(g), Num(l)).NaN? <==> g == 0.0 && l == 0.0
    ensures Indicator(Num(g), Num(l)).Num? <==> g > 0.0 || l > 0.0
    ensures Indicator(Num(g), Num(l)).Num? ==>
      0.0 <= Indicator(Num(g), Num(l)).v <= 100.0
  {
    IndicatorOf(g, l, Indicator(Num(g), Num(l)));
    if l > 0.0 {
      assert 100.0 * g / (g + l) <= 100.0 by {
        assert 100.0 * g <= 100.0 * (g + l);
      }
    }
  }

  /** The gain and loss means of the window that ends at index i. */
  function WindowGain(prices: seq<real>, window: nat, i: nat): real
    requires window >= 1 && window - 1 <= i < |prices|
  {
    Sum(Gains(prices)[i - window + 1..i + 1]) / window as real
  }

  function WindowLoss(prices: seq<real>, window: nat, i: nat): real
    requires window >= 1 && window - 1 <= i < |prices|
  {
    Sum(Losses(prices)[i - window + 1..i + 1]) / window as real
  }

  lemma WindowMeansNonNegative(prices: seq<real>, window: nat, i: nat)
    requires window >= 1 && window - 1 <= i < |prices|
    ensures WindowGain(prices, window, i) >= 0.0
    ensures WindowLoss(prices, window, i) >= 0.0
  {
    SumNonNegative(Gains(prices)[i - window + 1..i + 1]);
    SumNonNegative(Losses(prices)[i - window + 1..i + 1]);
  }

  /** Entry i of the momentum series, in terms of the window means. */
  lemma MomentumAt(prices: seq<real>, window: nat, i: nat)
    requires window >= 1 && window - 1 <= i < |prices|
    ensures CalculateMomentum(prices, window)[i]
      == Indicator(Num(WindowGain(prices, window, i)), Num(WindowLoss(prices, window, i)))
  {
    var g := RollingMean(Gains(prices), window);
    var l := RollingMean(Losses(prices), window);
    assert g[i] == Num(WindowGain(prices, window, i));
    assert l[i] == Num(WindowLoss(prices, window, i));
  }

  /** Before a full window the momentum is undefined. */
  lemma UndefinedBeforeWindow(prices: seq<real>, window: nat, i: nat)
    requires window >= 1 && i < |prices| && i < window - 1
    ensures CalculateMomentum(prices, window)[i] == NaN
  {
  }

  /**
   * From the first full window on, when the window holds some loss, the
   * momentum is 100·g/(g+l) for the window's mean gain g and mean loss l.
   */
  lemma MomentumValue(prices: seq<real>, window: nat, i: nat)
    requires window >= 1 && window - 1 <= i < |prices|
    requires WindowLoss(prices, window, i) > 0.0
    ensures WindowGain(prices, window, i) + WindowLoss(prices, window, i) > 0.0
    ensures CalculateMomentum(prices, window)[i] == Num(100.0 * WindowGain(prices, window, i)
      / (WindowGain(prices, window, i) + WindowLoss(prices, window, i)))
    ensures WindowGain(prices, window, i) == 0.0 ==> CalculateMomentum(prices, window)[i] == Num(0.0)
  {
    WindowMeansNonNegative(prices, window, i);
    MomentumAt(prices, window, i);
    IndicatorOf(WindowGain(prices, window, i), WindowLoss(prices, window, i), CalculateMomentum(prices, window)[i]);
  }

  /**
   * A window without losses gives 100 when it holds some gain, and NaN when
   * the price did not move at all.
   */
  lemma MomentumNoLoss(prices: seq<real>, window: nat, i: nat)
    requires window >= 1 && window - 1 <= i < |prices|
    requires WindowLoss(prices, window, i) == 0.0
    ensures WindowGain(prices, window, i) > 0.0 ==> CalculateMomentum(prices, window)[i] == Num(100.0)
    ensures WindowGain(prices, window, i) == 0.0 ==> CalculateMomentum(prices, window)[i] == NaN
  {
    WindowMeansNonNegative(prices, window, i);
    MomentumAt(prices, window, i);
    IndicatorOf(WindowGain(prices, window, i), WindowLoss(prices, window, i), CalculateMomentum(prices, window)[i]);
  }

  /** Every momentum value is NaN or a number between 0 and 100; it is never infinite. */
  lemma MomentumBounded(prices: seq<real>, window: nat, i: nat)
    requires window >= 1 && i < |prices|
    ensures var m := CalculateMomentum(prices, window)[i];
      m.NaN? || (m.Num? && 0.0 <= m.v <= 100.0)
  {
    if i >= window - 1 {
      WindowMeansNonNegative(prices, window, i);
      MomentumAt(prices, window, i);
      IndicatorBounded(WindowGain(prices, window, i), WindowLoss(prices, window, i));
    }
  }

  /** Some price in lo..hi-1 differs from the one before it. */
  predicate Moves(prices: seq<real>, lo: nat, hi: nat)
    requires hi <= |prices|
  {
    exists j :: lo <= j < hi && j > 0 && prices[j] != prices[j - 1]
  }

  /** Entry k of the gain and loss stretches lo..hi-1 is the gain and loss at index lo + k. */
  lemma StretchAt(prices: seq<real>, lo: nat, hi: nat, k: nat)
    requires lo <= hi <= |prices| && k < hi - lo
    ensures Gains(prices)[lo..hi][k] == Gain(prices, lo + k)
    ensures Losses(prices)[lo..hi][k] == Loss(prices, lo + k)
  {
  }

  /** Gains and losses are both zero on lo..hi-1 exactly when the price stays flat there. */
  lemma FlatStretch(prices: seq<real>, lo: nat, hi: nat)
    requires lo <= hi <= |prices|
    ensures (forall k :: 0 <= k < hi - lo ==>
        Gains(prices)[lo..hi][k] == 0.0 && Losses(prices)[lo..hi][k] == 0.0)
      <==> !Moves(prices, lo, hi)
  {
    if Moves(prices, lo, hi) {
      var j :| lo <= j < hi && j > 0 && prices[j] != prices[j - 1];
      StretchAt(prices, lo, hi, j - lo);
    } else {
      forall k | 0 <= k < hi - lo
        ensures Gains(prices)[lo..hi][k] == 0.0 && Losses(prices)[lo..hi][k] == 0.0
      {
        StretchAt(prices, lo, hi, k);
      }
    }
  }

  /** Total gain and total loss on lo..hi-1 are both zero exactly when the price stays flat there. */
  lemma FlatSums(prices: seq<real>, lo: nat, hi: nat)
    requires lo <= hi <= |prices|
    ensures Sum(Gains(prices)[lo..hi]) == 0.0 && Sum(Losses(prices)[lo..hi]) == 0.0
      <==> !Moves(prices, lo, hi)
  {
    var gs := Gains(prices)[lo..hi];
    var ls := Losses(prices)[lo..hi];
    forall k | 0 <= k < hi - lo
      ensures gs[k] >= 0.0 && ls[k] >= 0.0
    {
      StretchAt(prices, lo, hi, k);
    }
    SumZero(gs);
    SumZero(ls);
    FlatStretch(prices, lo, hi);
  }

  /** A window's mean gain and mean loss are both zero exactly when the price stays flat in it. */
  lemma WindowFlat(prices: seq<real>, window: nat, i: nat)
    requires window >= 1 && window - 1 <= i < |prices|
    ensures WindowGain(prices, window, i) == 0.0 && WindowLoss(prices, window, i) == 0.0
      <==> !Moves(prices, i - window + 1, i + 1)
  {
    FlatSums(prices, i - window + 1, i + 1);
    MeanZero(Sum(Gains(prices)[i - window + 1..i + 1]), window);
    MeanZero(Sum(Losses(prices)[i - window + 1..i + 1]), window);
  }

  lemma MeanZero(total: real, n: nat)
    requires n >= 1
    ensures total / n as real == 0.0 <==> total == 0.0
  {
  }

  /** The momentum is defined exactly from the first full window on, where the price moved. */
  lemma MomentumDefinedIff(prices: seq<real>, window: nat, i: nat)
    requires window >= 1 && i < |prices|
    ensures CalculateMomentum(prices, window)[i].Num? <==>
      i >= window - 1 && Moves(prices, i - window + 1, i + 1)
  {
    if i >= window - 1 {
      WindowMeansNonNegative(prices, window, i);
      MomentumAt(prices, window, i);
      IndicatorBounded(WindowGain(prices, window, i), WindowLoss(prices, window, i));
      WindowFlat(prices, window, i);
    }
  }

  /**
   * Over any stretch, total gains minus total losses is the net price
   * change; the diff at index 0 contributes nothing.
   */
  lemma {:induction false} GainsMinusLosses(prices: seq<real>, lo: nat, hi: nat)
    requires 0 < lo <= hi <= |prices|
    ensures Sum(Gains(prices)[lo..hi]) - Sum(Losses(prices)[lo..hi]) == prices[hi - 1] - prices[lo - 1]
  {
    if hi > lo {
      GainsMinusLosses(prices, lo, hi - 1);
      assert Gains(prices)[lo..hi][..hi - 1 - lo] == Gains(prices)[lo..hi - 1];
      assert Losses(prices)[lo..hi][..hi - 1 - lo] == Losses(prices)[lo..hi - 1];
      assert Gain(prices, hi - 1) - Loss(prices, hi - 1) == prices[hi - 1] - prices[hi - 2];
    }
  }

  /**
   * The window means differ by the price change across the window divided
   * by its length: mean gain minus mean loss is the average hourly change.
   */
  lemma WindowNetChange(prices: seq<real>, window: nat, i: nat)
    requires window >= 1 && window <= i < |prices|
    ensures WindowGain(prices, window, i) - WindowLoss(prices, window, i)
      == (prices[i] - prices[i - window]) / window as real
  {
    GainsMinusLosses(prices, i - window + 1, i + 1);
    MeanDifference(Sum(Gains(prices)[i - window + 1..i + 1]), Sum(Losses(prices)[i - window + 1..i + 1]), window);
  }

  lemma MeanDifference(a: real, b: real, n: nat)
    requires n >= 1
    ensures a / n as real - b / n as real == (a - b) / n as real
  {
  }
}
