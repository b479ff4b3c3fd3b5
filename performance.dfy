/**
 * Normalised price performance: the top-asset panel, which normalises each
 * asset's history to percent change from its first price, and the
 * asset-group panel, which averages those series over the members of each
 * group, skipping members whose computation raises.
 *
 * Python float division by zero raises ZeroDivisionError, and `prices[0]` on
 * an empty list raises IndexError; both are modelled as errors.  A history
 * fetch that raises (network error, or a response without "data") is a
 * failed fetch.
 */
module Performance {
  import opened Wrappers
  import opened Series
  import opened AssetHistory
  import opened MarketRanking

  datatype PerfError = IndexError | ZeroDivisionError | FetchError | RaggedGroup

  /** One line of a performance chart: a name, timestamps and values. */
  datatype Trace = Trace(name: string, x: seq<int>, y: seq<real>)

  /** `[(p - base) / base * 100 for p in prices]` with a non-zero base. */
  function PercentFrom(prices: seq<real>, base: real): (r: seq<real>)
    requires base != 0.0
    ensures |r| == |prices|
  {
    seq(|prices|, i requires 0 <= i < |prices| => (prices[i] - base) / base * 100.0)
  }

  /**
   * The normalisation of the top-asset panel: `base_price = prices[0]`
   * fails on an empty history, and the comprehension divides by the base.
   */
  function Normalize(prices: seq<real>): Result<seq<real>, PerfError> {
    if |prices| == 0 then Err(IndexError)
    else if prices[0] == 0.0 then Err(ZeroDivisionError)
    else Ok(PercentFrom(prices, prices[0]))
  }

  // ---------------------------------------------------------------------
  // Properties of the normalisation
  // ---------------------------------------------------------------------

  /**
   * Normalisation fails exactly on an empty history or a zero first price;
   * otherwise it keeps the length and starts at exactly 0.
   */
  lemma NormalizeSpec(prices: seq<real>)
    ensures Normalize(prices).Err? <==> |prices| == 0 || prices[0] == 0.0
    ensures |prices| == 0 ==> Normalize(prices) == Err(IndexError)
    ensures |prices| > 0 && prices[0] == 0.0 ==> Normalize(prices) == Err(ZeroDivisionError)
    ensures Normalize(prices).Ok? ==>
      |Normalize(prices).value| == |prices| && Normalize(prices).value[0] == 0.0
  {
  }

  /** The sign of `(p - b) / b * 100` for a positive base b. */
  lemma ChangeSign(p: real, b: real)
    requires b > 0.0
    ensures (p - b) / b * 100.0 > 0.0 <==> p > b
    ensures (p - b) / b * 100.0 == 0.0 <==> p == b
    ensures (p - b) / b * 100.0 < 0.0 <==> p < b
  {
    var q := (p - b) / b;
    assert q * b == p - b;
    if p > b {
      assert q > 0.0 by {
        if q <= 0.0 {
          NonPositiveTimesPositive(q, b);
        }
      }
    } else if p < b {
      assert q < 0.0 by {
        if q >= 0.0 {
          NonNegativeTimesPositive(q, b);
        }
      }
    } else {
      assert q == 0.0;
    }
  }

  lemma NonPositiveTimesPositive(q: real, b: real)
    requires q <= 0.0 && b > 0.0
    ensures q * b <= 0.0
  {
  }

  lemma NonNegativeTimesPositive(q: real, b: real)
    requires q >= 0.0 && b > 0.0
    ensures q * b >= 0.0
  {
  }

  /**
   * With a positive first price, a normalised point is positive, zero or
   * negative exactly when the price is above, at or below the first price.
   */
  lemma NormalizedSign(prices: seq<real>, i: nat)
    requires i < |prices| && prices[0] > 0.0
    ensures var r := Normalize(prices).value;
      && (r[i] > 0.0 <==> prices[i] > prices[0])
      && (r[i] == 0.0 <==> prices[i] == prices[0])
      && (r[i] < 0.0 <==> prices[i] < prices[0])
  {
    ChangeSign(prices[i], prices[0]);
  }

  /** The series 100, 110, 99 normalises to 0, 10, -1. */
  lemma NormalizeExample()
    ensures Normalize([100.0, 110.0, 99.0]) == Ok([0.0, 10.0, -1.0])
  {
    var r := PercentFrom([100.0, 110.0, 99.0], 100.0);
    assert r[0] == 0.0 && r[1] == 10.0 && r[2] == -1.0;
    assert r == [0.0, 10.0, -1.0];
  }

  // ---------------------------------------------------------------------
  // create_top_asset_performance: one trace per asset
  // ---------------------------------------------------------------------

  /** The trace of one asset, or the exception its iteration raises. */
  function AssetTrace(asset: Asset, history: Option<seq<Point>>): Result<Trace, PerfError> {
    if history.None? then Err(FetchError)
    else
      var normalized := Normalize(Prices(history.value));
      if normalized.Err? then Err(normalized.error)
      else Ok(Trace(asset.name, Times(history.value), normalized.value))
  }

  /**
   * The loop over assets for any per-asset step: add each trace, and let the
   * first exception end the panel.
   */
  method CollectTraces(assets: seq<Asset>, traceOf: Asset -> Result<Trace, PerfError>)
    returns (r: Result<seq<Trace>, PerfError>)
    ensures r.Ok? <==> forall i :: 0 <= i < |assets| ==> traceOf(assets[i]).Ok?
    ensures r.Ok? ==> (|r.value| == |assets| &&
      forall i :: 0 <= i < |assets| ==> r.value[i] == traceOf(assets[i]).value)
    ensures r.Err? ==>
      exists i :: 0 <= i < |assets| && traceOf(assets[i]) == Err(r.error) &&
        forall j :: 0 <= j < i ==> traceOf(assets[j]).Ok?
  {
    var traces: seq<Trace> := [];
    var i := 0;
    while i < |assets|
      invariant 0 <= i <= |assets|
      invariant |traces| == i
      invariant forall j :: 0 <= j < i ==> traceOf(assets[j]).Ok? && traces[j] == traceOf(assets[j]).value
    {
      var t := traceOf(assets[i]);
      if t.Err? {
        return Err(t.error);
      }
      traces := traces + [t.value];
      i := i + 1;
    }
    r := Ok(traces);
  }

  /**
   * `create_top_asset_performance`: the traces of the top assets; an empty
   * history (IndexError) or a zero first price (ZeroDivisionError) of any
   * asset makes the whole panel fail.
   */
  method TopAssetPerformance(assets: seq<Asset>, fetch: string -> Option<seq<Point>>)
    returns (r: Result<seq<Trace>, PerfError>)
    ensures r.Ok? <==> forall i :: 0 <= i < |assets| ==> AssetTrace(assets[i], fetch(assets[i].id)).Ok?
    ensures r.Ok? ==> (|r.value| == |assets| &&
      forall i :: 0 <= i < |assets| ==> r.value[i] == AssetTrace(assets[i], fetch(assets[i].id)).value)
    ensures r.Err? ==>
      exists i :: 0 <= i < |assets| && AssetTrace(assets[i], fetch(assets[i].id)) == Err(r.error) &&
        forall j :: 0 <= j < i ==> AssetTrace(assets[j], fetch(assets[j].id)).Ok?
  {
    r := CollectTraces(assets, (a: Asset) => AssetTrace(a, fetch(a.id)));
  }

  /**
   * An asset's trace fails exactly when its fetch fails, its history is
   * empty or its first price is 0; otherwise it is the asset's name, the
   * history's timestamps and the normalised prices.
   */
  lemma AssetTraceSpec(asset: Asset, history: Option<seq<Point>>)
    ensures history.None? ==> AssetTrace(asset, history) == Err(FetchError)
    ensures history.Some? && |history.value| == 0 ==> AssetTrace(asset, history) == Err(IndexError)
    ensures history.Some? && |history.value| > 0 && history.value[0].priceUsd == 0.0 ==>
      AssetTrace(asset, history) == Err(ZeroDivisionError)
    ensures history.Some? && |history.value| > 0 && history.value[0].priceUsd != 0.0 ==>
      var t := AssetTrace(asset, history);
      && t.Ok? && t.value.name == asset.name
      && t.value.x == Times(history.value)
      && t.value.y == Normalize(Prices(history.value)).value
      && |t.value.y| == |history.value| && t.value.y[0] == 0.0
  {
  }

  // ---------------------------------------------------------------------
  // create_asset_group_performance
  // ---------------------------------------------------------------------

  /** The hand-configured groups, in dictionary order. */
  const Groups: seq<(string, seq<string>)> := [
    ("Meme Coins", ["dogecoin", "shiba-inu"]),
    ("DeFi", ["uniswap", "aave", "maker"]),
    ("Layer 1", ["bitcoin", "ethereum", "solana"]),
    ("Exchange Tokens", ["binance-coin", "ftx-token"])
  ]

  /**
   * One member inside the try block: the comprehension over an empty history
   * never reads `prices[0]` and yields [], while a zero first price raises
   * ZeroDivisionError at the first element (None: skipped by `except`).
   */
  function MemberPerformance(h: seq<Point>): (perf: Option<seq<real>>)
    ensures perf.Some? ==> |perf.value| == |h|
  {
    var prices := Prices(h);
    if |prices| == 0 then Some([])
    else if prices[0] == 0.0 then None
    else Some(PercentFrom(prices, prices[0]))
  }

  /**
   * The inner loop's state: the `performances` list and the `history`
   * variable, which keeps the last successfully fetched history, whether or
   * not that member was then skipped.
   */
  datatype GroupState = GroupState(performances: seq<seq<real>>, history: Option<seq<Point>>)

  function MemberStep(st: GroupState, fetched: Option<seq<Point>>): GroupState {
    if fetched.None? then st
    else
      var perf := MemberPerformance(fetched.value);
      if perf.None? then st.(history := fetched)
      else GroupState(st.performances + [perf.value], fetched)
  }

  function CollectMembers(members: seq<string>, fetch: string -> Option<seq<Point>>, st: GroupState): GroupState
    decreases |members|
  {
    if members == [] then st
    else CollectMembers(members[1..], fetch, MemberStep(st, fetch(members[0])))
  }

  predicate Rectangular(ps: seq<seq<real>>) {
    forall k :: 0 <= k < |ps| ==> |ps[k]| == |ps[0]|
  }

  function Column(ps: seq<seq<real>>, i: nat): (col: seq<real>)
    requires |ps| > 0 && Rectangular(ps) && i < |ps[0]|
    ensures |col| == |ps|
    ensures forall k :: 0 <= k < |ps| ==> col[k] == ps[k][i]
  {
    seq(|ps|, k requires 0 <= k < |ps| => ps[k][i])
  }

  /** `np.mean(performances, axis=0)` on equal-length member series. */
  function PointwiseMean(ps: seq<seq<real>>): (m: seq<real>)
    requires |ps| > 0 && Rectangular(ps)
    ensures |m| == |ps[0]|
  {
    seq(|ps[0]|, i requires 0 <= i < |ps[0]| => Sum(Column(ps, i)) / |ps| as real)
  }

  /**
   * What a group contributes: nothing when no member succeeded; the mean
   * series when the members' series have one length; and a ValueError,
   * raised outside the try block, when their lengths differ.
   */
  datatype GroupOutcome = NoTrace | Averaged(trace: Trace) | Ragged

  function GroupOutcomeOf(name: string, st: GroupState): GroupOutcome {
    if |st.performances| == 0 then NoTrace
    else if !Rectangular(st.performances) then Ragged
    else if st.history.None? then NoTrace
    else Averaged(Trace(name, Times(st.history.value), PointwiseMean(st.performances)))
  }

  /**
   * The panel as written: groups in order, the traces so far in `acc`,
   * `history` carried from one group to the next, and the first ragged group
   * ending the panel with an error.
   */
  function GroupPanel(groups: seq<(string, seq<string>)>, fetch: string -> Option<seq<Point>>,
                      carried: Option<seq<Point>>, acc: seq<Trace>): Result<seq<Trace>, PerfError>
    decreases |groups|
  {
    if groups == [] then Ok(acc)
    else
      var st := CollectMembers(groups[0].1, fetch, GroupState([], carried));
      match GroupOutcomeOf(groups[0].0, st)
      case Ragged => Err(RaggedGroup)
      case NoTrace => GroupPanel(groups[1..], fetch, st.history, acc)
      case Averaged(t) => GroupPanel(groups[1..], fetch, st.history, acc + [t])
  }

  /**
   * The nested loops of `create_asset_group_performance`, for the groups
   * given: the same traces as GroupPanel.
   */
  method GroupPerformance(groups: seq<(string, seq<string>)>, fetch: string -> Option<seq<Point>>)
    returns (r: Result<seq<Trace>, PerfError>)
    ensures r == GroupPanel(groups, fetch, None, [])
  {
    var traces: seq<Trace> := [];
    var history: Option<seq<Point>> := None;
    var g := 0;
    while g < |groups|
      invariant 0 <= g <= |groups|
      invariant GroupPanel(groups[g..], fetch, history, traces) == GroupPanel(groups, fetch, None, [])
    {
      assert groups[g..][0] == groups[g] && groups[g..][1..] == groups[g + 1..];
      var name, members := groups[g].0, groups[g].1;
      var performances: seq<seq<real>> := [];
      ghost var start := GroupState([], history);
      var m := 0;
      while m < |members|
        invariant 0 <= m <= |members|
        invariant CollectMembers(members, fetch, start)
          == CollectMembers(members[m..], fetch, GroupState(performances, history))
      {
        assert members[m..][0] == members[m] && members[m..][1..] == members[m + 1..];
        var fetched := fetch(members[m]);
        if fetched.Some? {
          history := fetched;
          var perf := MemberPerformance(fetched.value);
          if perf.Some? {
            performances := performances + [perf.value];
          }
        }
        m := m + 1;
      }
      assert members[m..] == [];
      var outcome := GroupOutcomeOf(name, GroupState(performances, history));
      if outcome.Ragged? {
        return Err(RaggedGroup);
      }
      if outcome.Averaged? {
        traces := traces + [outcome.trace];
      }
      g := g + 1;
    }
    assert groups[g..] == [];
    r := Ok(traces);
  }

  /** The panel over the configured groups. */
  method AssetGroupPerformance(fetch: string -> Option<seq<Point>>)
    returns (r: Result<seq<Trace>, PerfError>)
    ensures r == GroupPanel(Groups, fetch, None, [])
  {
    r := GroupPerformance(Groups, fetch);
  }

  // ---------------------------------------------------------------------
  // Properties of the group computation
  // ---------------------------------------------------------------------

  /**
   * A member whose fetch fails or whose first price is 0 adds nothing to
   * `performances`; any other member adds its normalised series, [] for an
   * empty history.
   */
  lemma MemberStepSpec(st: GroupState, fetched: Option<seq<Point>>)
    ensures fetched.None? ==> MemberStep(st, fetched) == st
    ensures fetched.Some? && |fetched.value| > 0 && fetched.value[0].priceUsd == 0.0 ==>
      MemberStep(st, fetched).performances == st.performances
    ensures fetched.Some? && |fetched.value| == 0 ==>
      MemberStep(st, fetched).performances == st.performances + [[]]
    ensures fetched.Some? && |fetched.value| > 0 && fetched.value[0].priceUsd != 0.0 ==>
      MemberStep(st, fetched).performances ==
        st.performances + [PercentFrom(Prices(fetched.value), fetched.value[0].priceUsd)]
  {
  }

  /** `perf` is the normalised series of one of `members`. */
  predicate SeriesOfMember(members: seq<string>, fetch: string -> Option<seq<Point>>, perf: seq<real>) {
    exists j :: 0 <= j < |members| && fetch(members[j]).Some? &&
      MemberPerformance(fetch(members[j]).value) == Some(perf)
  }

  /** Every collected series is the series of one member, after those collected before. */
  lemma {:induction false} CollectedFromMembers(members: seq<string>, fetch: string -> Option<seq<Point>>, st: GroupState)
    ensures |st.performances| <= |CollectMembers(members, fetch, st).performances| <= |st.performances| + |members|
    ensures CollectMembers(members, fetch, st).performances[..|st.performances|] == st.performances
    ensures forall k :: |st.performances| <= k < |CollectMembers(members, fetch, st).performances| ==>
      SeriesOfMember(members, fetch, CollectMembers(members, fetch, st).performances[k])
    decreases |members|
  {
    if members != [] {
      var next := MemberStep(st, fetch(members[0]));
      CollectedFromMembers(members[1..], fetch, next);
      var ps := CollectMembers(members, fetch, st).performances;
      assert ps == CollectMembers(members[1..], fetch, next).performances;
      assert next.performances[..|st.performances|] == st.performances;
      forall k | |st.performances| <= k < |ps|
        ensures SeriesOfMember(members, fetch, ps[k])
      {
        if k < |next.performances| {
          assert ps[k] == next.performances[k];
          assert fetch(members[0]).Some? && MemberPerformance(fetch(members[0]).value) == Some(ps[k]);
        } else {
          assert SeriesOfMember(members[1..], fetch, ps[k]);
          var j :| 0 <= j < |members[1..]| && fetch(members[1..][j]).Some? &&
            MemberPerformance(fetch(members[1..][j]).value) == Some(ps[k]);
          assert members[1..][j] == members[j + 1];
        }
      }
    }
  }

  /** A group none of whose members succeeded adds no trace. */
  lemma NoMemberNoTrace(name: string, st: GroupState)
    requires |st.performances| == 0
    ensures GroupOutcomeOf(name, st) == NoTrace
  {
  }

  /** A single successful member: the group's line is that member's series. */
  lemma SingleMemberIsItsSeries(name: string, st: GroupState)
    requires |st.performances| == 1 && st.history.Some?
    ensures GroupOutcomeOf(name, st).Averaged?
    ensures GroupOutcomeOf(name, st).trace.y == st.performances[0]
  {
    var ps := st.performances;
    var m := PointwiseMean(ps);
    forall i | 0 <= i < |m| ensures m[i] == ps[0][i] {
      var col := Column(ps, i);
      assert col[..0] == [];
      assert Sum(col) == col[0];
    }
  }

  /** Each averaged point lies between the smallest and the largest member value at that index. */
  lemma MeanWithinMembers(ps: seq<seq<real>>, i: nat, lo: real, hi: real)
    requires |ps| > 0 && Rectangular(ps) && i < |ps[0]|
    requires forall k :: 0 <= k < |ps| ==> lo <= ps[k][i] <= hi
    ensures lo <= PointwiseMean(ps)[i] <= hi
  {
    var col := Column(ps, i);
    SumBetween(col, lo, hi);
    DivideBetween(Sum(col), |ps|, lo, hi);
  }

  lemma DivideBetween(s: real, n: nat, lo: real, hi: real)
    requires n > 0 && n as real * lo <= s <= n as real * hi
    ensures lo <= s / n as real <= hi
  {
  }

  /** Members of different lengths make np.mean raise, and the panel fails. */
  lemma RaggedGroupFails(name: string, st: GroupState)
    requires |st.performances| > 0 && !Rectangular(st.performances)
    ensures GroupOutcomeOf(name, st) == Ragged
  {
  }

  // ---------------------------------------------------------------------
  // The x-axis of a group trace
  // ---------------------------------------------------------------------

  /**
   * As written, the x-axis comes from the last history fetched, even when
   * that member was skipped: a member with one point followed by a member
   * with two points priced 0 gives a one-point line over two timestamps.
   */
  lemma TimestampsFromSkippedMember(name: string, a: string, b: string,
                                    fetch: string -> Option<seq<Point>>, t0: int, t1: int, t2: int, p: real)
    requires p != 0.0
    requires fetch(a) == Some([Point(t0, p)])
    requires fetch(b) == Some([Point(t1, 0.0), Point(t2, 0.0)])
    ensures GroupPanel([(name, [a, b])], fetch, None, []) == Ok([Trace(name, [t1, t2], [0.0])])
  {
    var members := [a, b];
    var ha := fetch(a).value;
    assert Prices(ha) == [p];
    var perfA := PercentFrom([p], p);
    assert perfA == [0.0] by {
      assert |perfA| == 1 && perfA[0] == (p - p) / p * 100.0;
    }
    assert MemberPerformance(ha) == Some([0.0]);
    var s1 := MemberStep(GroupState([], None), fetch(a));
    assert s1 == GroupState([[0.0]], fetch(a));
    var s2 := MemberStep(s1, fetch(b));
    assert s2 == GroupState([[0.0]], fetch(b));
    assert members[1..] == [b] && members[1..][1..] == [];
    assert CollectMembers([b], fetch, s1) == CollectMembers([], fetch, s2) == s2;
    assert CollectMembers(members, fetch, GroupState([], None)) == CollectMembers([b], fetch, s1);
    var ps := [[0.0]];
    assert PointwiseMean(ps) == [0.0] by {
      var col := Column(ps, 0);
      assert col == [0.0];
      assert col[..0] == [];
    }
    assert Times(fetch(b).value) == [t1, t2];
    assert Rectangular(ps);
    var t := Trace(name, [t1, t2], [0.0]);
    assert GroupOutcomeOf(name, s2) == Averaged(t);
    var groups := [(name, members)];
    assert groups[0].1 == members && groups[1..] == [];
    assert GroupPanel(groups, fetch, None, []) == GroupPanel([], fetch, s2.history, [] + [t]);
    assert [] + [t] == [t];
  }

  /** The inner loop, also remembering the history of the last member averaged. */
  function CollectAligned(members: seq<string>, fetch: string -> Option<seq<Point>>,
                          ps: seq<seq<real>>, used: Option<seq<Point>>): (seq<seq<real>>, Option<seq<Point>>)
    decreases |members|
  {
    if members == [] then (ps, used)
    else
      var fetched := fetch(members[0]);
      var perf := if fetched.Some? then MemberPerformance(fetched.value) else None;
      if perf.Some? then CollectAligned(members[1..], fetch, ps + [perf.value], fetched)
      else CollectAligned(members[1..], fetch, ps, used)
  }

  /** A group's outcome with the x-axis taken from the last member averaged. */
  function AlignedOutcome(name: string, members: seq<string>, fetch: string -> Option<seq<Point>>): GroupOutcome {
    var (ps, used) := CollectAligned(members, fetch, [], None);
    if |ps| == 0 || used.None? then NoTrace
    else if !Rectangular(ps) then Ragged
    else Averaged(Trace(name, Times(used.value), PointwiseMean(ps)))
  }

  /** The group panel with aligned axes. */
  function AlignedGroupPanel(groups: seq<(string, seq<string>)>, fetch: string -> Option<seq<Point>>,
                             acc: seq<Trace>): Result<seq<Trace>, PerfError>
    decreases |groups|
  {
    if groups == [] then Ok(acc)
    else
      match AlignedOutcome(groups[0].0, groups[0].1, fetch)
      case Ragged => Err(RaggedGroup)
      case NoTrace => AlignedGroupPanel(groups[1..], fetch, acc)
      case Averaged(t) => AlignedGroupPanel(groups[1..], fetch, acc + [t])
  }

  lemma {:induction false} CollectAlignedLast(members: seq<string>, fetch: string -> Option<seq<Point>>,
                                              ps: seq<seq<real>>, used: Option<seq<Point>>)
    requires |ps| > 0 ==> used.Some? && |used.value| == |ps[|ps| - 1]|
    ensures var (ps', used') := CollectAligned(members, fetch, ps, used);
      |ps'| > 0 ==> used'.Some? && |used'.value| == |ps'[|ps'| - 1]|
    decreases |members|
  {
    if members != [] {
      var fetched := fetch(members[0]);
      var perf := if fetched.Some? then MemberPerformance(fetched.value) else None;
      if perf.Some? {
        CollectAlignedLast(members[1..], fetch, ps + [perf.value], fetched);
      } else {
        CollectAlignedLast(members[1..], fetch, ps, used);
      }
    }
  }

  predicate AxesMatch(traces: seq<Trace>) {
    forall k :: 0 <= k < |traces| ==> |traces[k].x| == |traces[k].y|
  }

  /** With aligned axes every group line has as many timestamps as values. */
  lemma {:induction false} AlignedTracesMatch(groups: seq<(string, seq<string>)>, fetch: string -> Option<seq<Point>>,
                                              acc: seq<Trace>)
    requires AxesMatch(acc)
    ensures var r := AlignedGroupPanel(groups, fetch, acc); r.Ok? ==> AxesMatch(r.value)
    decreases |groups|
  {
    if groups != [] {
      match AlignedOutcome(groups[0].0, groups[0].1, fetch)
      case Ragged =>
      case NoTrace =>
        AlignedTracesMatch(groups[1..], fetch, acc);
      case Averaged(t) =>
        CollectAlignedLast(groups[0].1, fetch, [], None);
        var (ps, used) := CollectAligned(groups[0].1, fetch, [], None);
        assert |t.x| == |used.value| && |t.y| == |ps[0]|;
        assert |ps[0]| == |ps[|ps| - 1]|;
        assert AxesMatch(acc + [t]);
        AlignedTracesMatch(groups[1..], fetch, acc + [t]);
    }
  }
}
