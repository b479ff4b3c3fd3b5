/**
 * Volatility of an asset and the risk-profile table of the dashboard.
 *
 * `get_volatility` takes the percent change between consecutive prices
 * (`pct_change`, NaN at index 0 and NaN again for 0/0), drops the NaN
 * entries, and reports `np.std` (the population standard deviation) times
 * 100.  The square root is not modelled: SquaredVolatility is the square of
 * the reported figure, i.e. 10000 times the population variance of the
 * returns, and it is NaN exactly where the reported figure is NaN.
 */
module Volatility {
  import opened ExtReal
  import opened Series
  import opened AssetHistory
  import opened MarketRanking
  import opened Wrappers

  /** `prices.pct_change()`: `p[i] / p[i-1] - 1` in IEEE arithmetic, NaN at index 0. */
  function PctChange(prices: seq<real>): (r: seq<Ext>)
    ensures |r| == |prices|
  {
    seq(|prices|, i requires 0 <= i < |prices| =>
      if i == 0 then NaN else Sub(Div(Num(prices[i]), Num(prices[i - 1])), Num(1.0)))
  }

  /** `dropna()`: the entries that are not NaN, in order. */
  function DropNaN(xs: seq<Ext>): (r: seq<Ext>)
    ensures |r| <= |xs|
    ensures forall k :: 0 <= k < |r| ==> !r[k].NaN?
  {
    if xs == [] then []
    else if xs[|xs| - 1].NaN? then DropNaN(xs[..|xs| - 1])
    else DropNaN(xs[..|xs| - 1]) + [xs[|xs| - 1]]
  }

  function Returns(prices: seq<real>): seq<Ext> {
    DropNaN(PctChange(prices))
  }

  predicate AllFinite(xs: seq<Ext>) {
    forall k :: 0 <= k < |xs| ==> xs[k].Num?
  }

  function Values(xs: seq<Ext>): (vs: seq<real>)
    requires AllFinite(xs)
    ensures |vs| == |xs|
    ensures forall k :: 0 <= k < |xs| ==> vs[k] == xs[k].v
  {
    seq(|xs|, k requires 0 <= k < |xs| => xs[k].v)
  }

  function Mean(xs: seq<real>): real
    requires |xs| > 0
  {
    Sum(xs) / |xs| as real
  }

  function Square(d: real): real {
    d * d
  }

  function SquaredDeviations(xs: seq<real>, m: real): (ds: seq<real>)
    ensures |ds| == |xs|
    ensures forall k :: 0 <= k < |xs| ==> ds[k] == Square(xs[k] - m)
  {
    seq(|xs|, k requires 0 <= k < |xs| => Square(xs[k] - m))
  }

  /** numpy's population variance (ddof = 0). */
  function Variance(xs: seq<real>): real
    requires |xs| > 0
  {
    Sum(SquaredDeviations(xs, Mean(xs))) / |xs| as real
  }

  /**
   * The square of `get_volatility(history)`.  `np.std` of an empty series is
   * NaN, and so is `np.std` of a series holding an infinity (the deviation
   * of that entry from the infinite mean is `inf - inf`).
   */
  function SquaredVolatility(prices: seq<real>): Ext {
    var r := Returns(prices);
    if |r| == 0 || !AllFinite(r) then NaN
    else Num(Variance(Values(r)) * 10000.0)
  }

  // ---------------------------------------------------------------------
  // Properties of the statistics
  // ---------------------------------------------------------------------

  lemma VarianceNonNegative(xs: seq<real>)
    requires |xs| > 0
    ensures Variance(xs) >= 0.0
  {
    var ds := SquaredDeviations(xs, Mean(xs));
    forall k | 0 <= k < |ds| ensures ds[k] >= 0.0 {
      SquareNonNegative(xs[k] - Mean(xs));
    }
    SumNonNegative(ds);
  }

  lemma SquareNonNegative(d: real)
    ensures Square(d) >= 0.0
  {
    if d >= 0.0 {
      MulNonNegative(d, d);
    } else {
      MulNonNegative(-d, -d);
      assert (-d) * (-d) == d * d;
    }
  }

  lemma MulNonNegative(a: real, b: real)
    requires a >= 0.0 && b >= 0.0
    ensures a * b >= 0.0
  {
  }

  lemma CancelCount(n: nat, c: real)
    requires n > 0
    ensures (n as real * c) / n as real == c
  {
  }

  /** A series of n copies of c has mean c and variance 0. */
  lemma ConstantSeries(xs: seq<real>, c: real)
    requires |xs| > 0
    requires forall k :: 0 <= k < |xs| ==> xs[k] == c
    ensures Mean(xs) == c && Variance(xs) == 0.0
  {
    SumConstant(xs, c);
    CancelCount(|xs|, c);
    assert Mean(xs) == c;
    var ds := SquaredDeviations(xs, c);
    forall k | 0 <= k < |ds| ensures ds[k] == 0.0 {
      assert xs[k] - c == 0.0;
      assert ds[k] == Square(0.0);
    }
    SumConstant(ds, 0.0);
  }

  lemma SelfQuotient(c: real)
    requires c != 0.0
    ensures c / c - 1.0 == 0.0
  {
  }

  /** DropNaN over a series with no NaN at all is the identity. */
  lemma {:induction false} DropNaNNone(xs: seq<Ext>)
    requires forall k :: 0 <= k < |xs| ==> !xs[k].NaN?
    ensures DropNaN(xs) == xs
  {
    if xs != [] {
      DropNaNNone(xs[..|xs| - 1]);
    }
  }

  /** DropNaN over a series that is all NaN is empty. */
  lemma {:induction false} DropNaNAll(xs: seq<Ext>)
    requires forall k :: 0 <= k < |xs| ==> xs[k].NaN?
    ensures DropNaN(xs) == []
  {
    if xs != [] {
      DropNaNAll(xs[..|xs| - 1]);
    }
  }

  /** Dropping a NaN first entry, then nothing else. */
  lemma DropNaNHead(xs: seq<Ext>)
    requires |xs| > 0 && xs[0].NaN?
    requires forall k :: 1 <= k < |xs| ==> !xs[k].NaN?
    ensures DropNaN(xs) == xs[1..]
  {
    DropNaNSplit(xs[..1], xs[1..]);
    assert xs == xs[..1] + xs[1..];
    DropNaNAll(xs[..1]);
    DropNaNNone(xs[1..]);
  }

  lemma {:induction false} DropNaNSplit(a: seq<Ext>, b: seq<Ext>)
    ensures DropNaN(a + b) == DropNaN(a) + DropNaN(b)
  {
    if b != [] {
      var ab := a + b;
      assert ab[..|ab| - 1] == a + b[..|b| - 1];
      assert ab[|ab| - 1] == b[|b| - 1];
      DropNaNSplit(a, b[..|b| - 1]);
    } else {
      assert a + b == a;
    }
  }

  /**
   * With non-zero prices only the leading NaN is dropped: the return series
   * is `pct_change()[1..]`, every entry finite (PctChangeAt gives each value).
   */
  lemma NonZeroReturns(prices: seq<real>)
    requires |prices| >= 1
    requires forall i :: 0 <= i < |prices| ==> prices[i] != 0.0
    ensures Returns(prices) == PctChange(prices)[1..]
    ensures |Returns(prices)| == |prices| - 1
    ensures AllFinite(Returns(prices))
  {
    var pc := PctChange(prices);
    forall k | 1 <= k < |pc| ensures pc[k].Num? {
      PctChangeAt(prices, k);
    }
    DropNaNHead(pc);
  }

  /** A step from a non-zero price has the finite return `p[i] / p[i-1] - 1`. */
  lemma PctChangeAt(prices: seq<real>, i: nat)
    requires 1 <= i < |prices| && prices[i - 1] != 0.0
    ensures PctChange(prices)[i] == Num(prices[i] / prices[i - 1] - 1.0)
  {
    var q := Div(Num(prices[i]), Num(prices[i - 1]));
    assert q == Num(prices[i] / prices[i - 1]);
    assert Sub(q, Num(1.0)) == Num(prices[i] / prices[i - 1] - 1.0);
  }

  // ---------------------------------------------------------------------
  // Properties of get_volatility
  // ---------------------------------------------------------------------

  /** A defined volatility is never negative. */
  lemma SquaredVolatilityNonNegative(prices: seq<real>)
    ensures SquaredVolatility(prices).Num? ==> SquaredVolatility(prices).v >= 0.0
  {
    var r := Returns(prices);
    if |r| > 0 && AllFinite(r) {
      VarianceNonNegative(Values(r));
    }
  }

  /** A defined volatility is NaN or finite; it is never infinite. */
  lemma SquaredVolatilityNotInfinite(prices: seq<real>)
    ensures SquaredVolatility(prices).Num? || SquaredVolatility(prices).NaN?
  {
  }

  /** One price (or none) leaves no return at all, so the volatility is NaN. */
  lemma TooFewPrices(prices: seq<real>)
    requires |prices| < 2
    ensures SquaredVolatility(prices) == NaN
  {
    if |prices| == 1 {
      DropNaNAll(PctChange(prices));
    }
  }

  /** Two or more equal non-zero prices have volatility exactly 0. */
  lemma ConstantPricesZero(prices: seq<real>, c: real)
    requires |prices| >= 2 && c != 0.0
    requires forall i :: 0 <= i < |prices| ==> prices[i] == c
    ensures SquaredVolatility(prices) == Num(0.0)
  {
    var pc := PctChange(prices);
    forall k | 1 <= k < |pc| ensures pc[k] == Num(0.0) {
      PctChangeAt(prices, k);
      SelfQuotient(c);
    }
    DropNaNHead(pc);
    var r := Returns(prices);
    assert r == pc[1..];
    ConstantSeries(Values(r), 0.0);
  }

  /**
   * A history priced at 0 throughout gives 0/0 = NaN at every step; all of
   * it is dropped and the volatility is NaN, not 0.
   */
  lemma ZeroPricesUndefined(prices: seq<real>)
    requires forall i :: 0 <= i < |prices| ==> prices[i] == 0.0
    ensures SquaredVolatility(prices) == NaN
  {
    DropNaNAll(PctChange(prices));
  }

  // ---------------------------------------------------------------------
  // create_asset_risk_profile: the per-asset loop
  // ---------------------------------------------------------------------

  /** The five columns of the risk-profile data frame. */
  datatype RiskTable = RiskTable(
    names: seq<string>,
    marketCaps: seq<real>,
    volatilities: seq<Ext>,
    volumes: seq<real>,
    changes: seq<real>)

  /**
   * The per-asset loop, given what each asset's fetch-and-volatility step
   * yields (None when the history fetch raises): fill one entry of every
   * column, and stop at the first failure, which the source does not catch.
   */
  method CollectRiskTable(assets: seq<Asset>, volatilityOf: string -> Option<Ext>)
    returns (table: Option<RiskTable>)
    ensures table.Some? <==> forall i :: 0 <= i < |assets| ==> volatilityOf(assets[i].id).Some?
    ensures table.Some? ==>
      var t := table.value;
      && |t.names| == |assets| && |t.marketCaps| == |assets| && |t.volatilities| == |assets|
      && |t.volumes| == |assets| && |t.changes| == |assets|
      && forall i :: 0 <= i < |assets| ==>
        && t.names[i] == assets[i].name
        && t.marketCaps[i] == assets[i].marketCapUsd
        && t.volatilities[i] == volatilityOf(assets[i].id).value
        && t.volumes[i] == assets[i].volumeUsd24Hr
        && t.changes[i] == assets[i].changePercent24Hr
  {
    var names, marketCaps, volatilities, volumes, changes := [], [], [], [], [];
    var i := 0;
    while i < |assets|
      invariant 0 <= i <= |assets|
      invariant forall j :: 0 <= j < i ==> volatilityOf(assets[j].id).Some?
      invariant |names| == i && |marketCaps| == i && |volatilities| == i
      invariant |volumes| == i && |changes| == i
      invariant forall j :: 0 <= j < i ==>
        && names[j] == assets[j].name
        && marketCaps[j] == assets[j].marketCapUsd
        && volatilities[j] == volatilityOf(assets[j].id).value
        && volumes[j] == assets[j].volumeUsd24Hr
        && changes[j] == assets[j].changePercent24Hr
    {
      var volatility := volatilityOf(assets[i].id);
      if volatility.None? {
        return None;
      }
      volatilities := volatilities + [volatility.value];
      marketCaps := marketCaps + [assets[i].marketCapUsd];
      volumes := volumes + [assets[i].volumeUsd24Hr];
      names := names + [assets[i].name];
      changes := changes + [assets[i].changePercent24Hr];
      i := i + 1;
    }
    table := Some(RiskTable(names, marketCaps, volatilities, volumes, changes));
  }

  /**
   * `create_asset_risk_profile` up to the data frame: each asset's history
   * is fetched and its volatility computed; a failing fetch fails the panel.
   */
  method RiskProfile(assets: seq<Asset>, fetch: string -> Option<seq<Point>>)
    returns (table: Option<RiskTable>)
    ensures table.Some? <==> forall i :: 0 <= i < |assets| ==> fetch(assets[i].id).Some?
    ensures table.Some? ==>
      var t := table.value;
      && |t.names| == |assets| && |t.marketCaps| == |assets| && |t.volatilities| == |assets|
      && |t.volumes| == |assets| && |t.changes| == |assets|
      && forall i :: 0 <= i < |assets| ==>
        && t.names[i] == assets[i].name
        && t.marketCaps[i] == assets[i].marketCapUsd
        && t.volatilities[i] == SquaredVolatility(Prices(fetch(assets[i].id).value))
        && t.volumes[i] == assets[i].volumeUsd24Hr
        && t.changes[i] == assets[i].changePercent24Hr
  {
    var volatilityOf := (id: string) =>
      if fetch(id).Some? then Some(SquaredVolatility(Prices(fetch(id).value))) else None;
    table := CollectRiskTable(assets, volatilityOf);
  }
}
