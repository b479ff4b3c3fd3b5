/**
 * The market-metric ranking of the dashboard: top-3 gainers and losers by
 * 24-hour change and top-3 volume leaders, as `DataFrame.nlargest` and
 * `DataFrame.nsmallest` select them.  With the default keep='first' pandas
 * orders the selected rows by the column and breaks ties by the rows'
 * original position, so the selection is the first n entries of a stable
 * order on (value, position).
 */
module MarketRanking {

  /** One row of the asset table, after `astype(float)` on the numeric columns. */
  datatype Asset = Asset(
    id: string,
    name: string,
    symbol: string,
    changePercent24Hr: real,
    volumeUsd24Hr: real,
    marketCapUsd: real)

  /** The three columns kept for display: name, symbol and the ranked value. */
  datatype Row = Row(name: string, symbol: string, value: real)

  /** How many rows each panel shows. */
  const PanelSize: nat := 3

  /**
   * Position i ranks ahead of position j: a larger (or, for nsmallest, a
   * smaller) value, or an equal value and an earlier position.
   */
  predicate Ahead(keys: seq<real>, largest: bool, i: nat, j: nat)
    requires i < |keys| && j < |keys|
  {
    (if largest then keys[i] > keys[j] else keys[i] < keys[j])
    || (keys[i] == keys[j] && i < j)
  }

  predicate InRange(keys: seq<real>, xs: seq<nat>) {
    forall k :: 0 <= k < |xs| ==> xs[k] < |keys|
  }

  /** Every earlier position of xs ranks ahead of every later one. */
  predicate Ranked(keys: seq<real>, largest: bool, xs: seq<nat>)
    requires InRange(keys, xs)
  {
    forall a, b :: 0 <= a < b < |xs| ==> Ahead(keys, largest, xs[a], xs[b])
  }

  /** The positions 0, 1, ..., n-1. */
  function Positions(n: nat): (ps: seq<nat>)
    ensures |ps| == n
    ensures forall k :: 0 <= k < n ==> ps[k] == k
  {
    if n == 0 then [] else Positions(n - 1) + [n - 1]
  }

  /** Insert position x into a ranked list. */
  function Insert(keys: seq<real>, largest: bool, x: nat, xs: seq<nat>): (r: seq<nat>)
    requires x < |keys| && InRange(keys, xs)
    ensures InRange(keys, r)
  {
    if xs == [] then [x]
    else if Ahead(keys, largest, x, xs[0]) then [x] + xs
    else [xs[0]] + Insert(keys, largest, x, xs[1..])
  }

  /** Insertion sort of positions by rank. */
  function Rank(keys: seq<real>, largest: bool, xs: seq<nat>): (r: seq<nat>)
    requires InRange(keys, xs)
    ensures InRange(keys, r)
  {
    if xs == [] then [] else Insert(keys, largest, xs[0], Rank(keys, largest, xs[1..]))
  }

  /** `nlargest(n)` (largest) or `nsmallest(n)` (not largest): the positions selected, in display order. */
  function Select(keys: seq<real>, largest: bool, n: nat): (r: seq<nat>)
    ensures InRange(keys, r)
  {
    var all := Rank(keys, largest, Positions(|keys|));
    RankLength(keys, largest, Positions(|keys|));
    all[..if n < |all| then n else |all|]
  }

  // ---------------------------------------------------------------------
  // The ranking is a strict total order on positions
  // ---------------------------------------------------------------------

  lemma AheadTransitive(keys: seq<real>, largest: bool, i: nat, j: nat, k: nat)
    requires i < |keys| && j < |keys| && k < |keys|
    requires Ahead(keys, largest, i, j) && Ahead(keys, largest, j, k)
    ensures Ahead(keys, largest, i, k)
  {
  }

  lemma AheadTotal(keys: seq<real>, largest: bool, i: nat, j: nat)
    requires i < |keys| && j < |keys| && i != j
    ensures Ahead(keys, largest, i, j) != Ahead(keys, largest, j, i)
  {
  }

  // ---------------------------------------------------------------------
  // Insertion sort: a ranked permutation
  // ---------------------------------------------------------------------

  lemma {:induction false} InsertPermutes(keys: seq<real>, largest: bool, x: nat, xs: seq<nat>)
    requires x < |keys| && InRange(keys, xs)
    ensures multiset(Insert(keys, largest, x, xs)) == multiset(xs) + multiset{x}
  {
    if xs != [] && !Ahead(keys, largest, x, xs[0]) {
      InsertPermutes(keys, largest, x, xs[1..]);
      MultisetCons(xs);
    }
  }

  /** A ranked list stays ranked under a new head that ranks ahead of all of it. */
  lemma ConsRanked(keys: seq<real>, largest: bool, y: nat, xs: seq<nat>)
    requires y < |keys| && InRange(keys, xs) && Ranked(keys, largest, xs)
    requires forall k :: 0 <= k < |xs| ==> Ahead(keys, largest, y, xs[k])
    ensures Ranked(keys, largest, [y] + xs)
  {
    var r := [y] + xs;
    forall a, b | 0 <= a < b < |r| ensures Ahead(keys, largest, r[a], r[b]) {
      assert r[b] == xs[b - 1];
      if a > 0 {
        assert r[a] == xs[a - 1];
      }
    }
  }

  lemma {:induction false} InsertRanked(keys: seq<real>, largest: bool, x: nat, xs: seq<nat>)
    requires x < |keys| && InRange(keys, xs) && x !in xs
    requires Ranked(keys, largest, xs)
    ensures Ranked(keys, largest, Insert(keys, largest, x, xs))
  {
    if xs == [] {
    } else if Ahead(keys, largest, x, xs[0]) {
      forall k | 0 <= k < |xs| ensures Ahead(keys, largest, x, xs[k]) {
        if k > 0 {
          AheadTransitive(keys, largest, x, xs[0], xs[k]);
        }
      }
      ConsRanked(keys, largest, x, xs);
    } else {
      AheadTotal(keys, largest, x, xs[0]);
      var rest := Insert(keys, largest, x, xs[1..]);
      InsertRanked(keys, largest, x, xs[1..]);
      InsertPermutes(keys, largest, x, xs[1..]);
      forall k | 0 <= k < |rest| ensures Ahead(keys, largest, xs[0], rest[k]) {
        var y := rest[k];
        assert y in multiset(rest);
        if y != x {
          assert y in multiset(xs[1..]);
          var b :| 0 <= b < |xs[1..]| && xs[1..][b] == y;
          assert xs[b + 1] == y;
        }
      }
      ConsRanked(keys, largest, xs[0], rest);
    }
  }

  lemma {:induction false} RankPermutes(keys: seq<real>, largest: bool, xs: seq<nat>)
    requires InRange(keys, xs)
    ensures multiset(Rank(keys, largest, xs)) == multiset(xs)
  {
    if xs != [] {
      var rest := Rank(keys, largest, xs[1..]);
      RankPermutes(keys, largest, xs[1..]);
      InsertPermutes(keys, largest, xs[0], rest);
      MultisetCons(xs);
    }
  }

  lemma MultisetCons(xs: seq<nat>)
    requires xs != []
    ensures multiset(xs) == multiset(xs[1..]) + multiset{xs[0]}
  {
    assert xs == [xs[0]] + xs[1..];
  }

  lemma RankLength(keys: seq<real>, largest: bool, xs: seq<nat>)
    requires InRange(keys, xs)
    ensures |Rank(keys, largest, xs)| == |xs|
  {
    RankPermutes(keys, largest, xs);
    assert |multiset(Rank(keys, largest, xs))| == |multiset(xs)|;
  }

  predicate Distinct(xs: seq<nat>) {
    forall a, b :: 0 <= a < b < |xs| ==> xs[a] != xs[b]
  }

  lemma {:induction false} RankRanked(keys: seq<real>, largest: bool, xs: seq<nat>)
    requires InRange(keys, xs) && Distinct(xs)
    ensures Ranked(keys, largest, Rank(keys, largest, xs))
  {
    if xs != [] {
      RankRanked(keys, largest, xs[1..]);
      RankPermutes(keys, largest, xs[1..]);
      forall b | 0 <= b < |xs| - 1 ensures xs[1..][b] != xs[0] {
        assert xs[1..][b] == xs[b + 1];
      }
      assert xs[0] !in multiset(xs[1..]);
      InsertRanked(keys, largest, xs[0], Rank(keys, largest, xs[1..]));
    }
  }

  // ---------------------------------------------------------------------
  // What the selection promises
  // ---------------------------------------------------------------------

  /** In a ranked list every entry of a prefix ranks ahead of every entry after it. */
  lemma PrefixAhead(keys: seq<real>, largest: bool, all: seq<nat>, m: nat, j: nat)
    requires InRange(keys, all) && Ranked(keys, largest, all)
    requires m <= |all| && j in all && j !in all[..m]
    ensures j < |keys|
    ensures forall a :: 0 <= a < m ==> Ahead(keys, largest, all[a], j)
  {
    var p :| 0 <= p < |all| && all[p] == j;
    assert forall a :: 0 <= a < m ==> all[..m][a] == all[a];
  }

  /**
   * `nlargest(n)` / `nsmallest(n)`: min(n, len) distinct rows, each ahead of
   * the next in rank, and every row left out ranks behind every row selected
   * (in particular no row left out has a strictly better value).
   */
  lemma SelectSpec(keys: seq<real>, largest: bool, n: nat)
    ensures var s := Select(keys, largest, n);
      && |s| == (if n < |keys| then n else |keys|)
      && Ranked(keys, largest, s)
      && (forall j :: 0 <= j < |keys| && j !in s ==>
            forall a :: 0 <= a < |s| ==> Ahead(keys, largest, s[a], j))
  {
    var ps := Positions(|keys|);
    var all := Rank(keys, largest, ps);
    RankLength(keys, largest, ps);
    RankRanked(keys, largest, ps);
    var m := if n < |all| then n else |all|;
    var s := all[..m];
    assert s == Select(keys, largest, n);
    forall j | 0 <= j < |keys| && j !in s
      ensures forall a :: 0 <= a < |s| ==> Ahead(keys, largest, s[a], j)
    {
      RankContains(keys, largest, j);
      PrefixAhead(keys, largest, all, m, j);
    }
  }

  /** Every position appears in the ranking of all positions. */
  lemma RankContains(keys: seq<real>, largest: bool, j: nat)
    requires j < |keys|
    ensures j in Rank(keys, largest, Positions(|keys|))
  {
    var ps := Positions(|keys|);
    RankPermutes(keys, largest, ps);
    assert ps[j] == j;
    assert j in multiset(Rank(keys, largest, ps));
  }

  /** With at least n rows every selected row is one of them and the selection has n rows. */
  lemma SelectAll(keys: seq<real>, largest: bool)
    ensures var s := Select(keys, largest, |keys|);
      forall j :: 0 <= j < |keys| ==> j in s
  {
    var all := Rank(keys, largest, Positions(|keys|));
    RankLength(keys, largest, Positions(|keys|));
    assert Select(keys, largest, |keys|) == all by {
      assert all[..|all|] == all;
    }
    forall j | 0 <= j < |keys| ensures j in Select(keys, largest, |keys|) {
      RankContains(keys, largest, j);
    }
  }

  // ---------------------------------------------------------------------
  // get_market_metrics
  // ---------------------------------------------------------------------

  function Changes(assets: seq<Asset>): (ks: seq<real>)
    ensures |ks| == |assets|
    ensures forall i :: 0 <= i < |assets| ==> ks[i] == assets[i].changePercent24Hr
  {
    seq(|assets|, i requires 0 <= i < |assets| => assets[i].changePercent24Hr)
  }

  function Volumes(assets: seq<Asset>): (ks: seq<real>)
    ensures |ks| == |assets|
    ensures forall i :: 0 <= i < |assets| ==> ks[i] == assets[i].volumeUsd24Hr
  {
    seq(|assets|, i requires 0 <= i < |assets| => assets[i].volumeUsd24Hr)
  }

  /** The displayed rows for the selected positions, with the ranked column as value. */
  function Rows(assets: seq<Asset>, keys: seq<real>, picks: seq<nat>): (rows: seq<Row>)
    requires |keys| == |assets| && InRange(keys, picks)
    ensures |rows| == |picks|
  {
    seq(|picks|, k requires 0 <= k < |picks| =>
      Row(assets[picks[k]].name, assets[picks[k]].symbol, keys[picks[k]]))
  }

  /** `df.nlargest(3, 'changePercent24Hr')[['name', 'symbol', 'changePercent24Hr']]`. */
  function Gainers(assets: seq<Asset>): seq<Row> {
    Rows(assets, Changes(assets), Select(Changes(assets), true, PanelSize))
  }

  /** `df.nsmallest(3, 'changePercent24Hr')[['name', 'symbol', 'changePercent24Hr']]`. */
  function Losers(assets: seq<Asset>): seq<Row> {
    Rows(assets, Changes(assets), Select(Changes(assets), false, PanelSize))
  }

  /** `df.nlargest(3, 'volumeUsd24Hr')[['name', 'symbol', 'volumeUsd24Hr']]`. */
  function VolumeLeaders(assets: seq<Asset>): seq<Row> {
    Rows(assets, Volumes(assets), Select(Volumes(assets), true, PanelSize))
  }

  /** `get_market_metrics`: the three panels. */
  function MarketMetrics(assets: seq<Asset>): (seq<Row>, seq<Row>, seq<Row>) {
    (Gainers(assets), Losers(assets), VolumeLeaders(assets))
  }

  /**
   * A panel built from `nlargest`/`nsmallest(3)` on a column: min(3, len)
   * rows, each the name, symbol and value of a distinct input row, in rank
   * order with ties in input order, and no row left out ranks better than a
   * row shown.
   */
  lemma PanelSpec(assets: seq<Asset>, keys: seq<real>, largest: bool)
    requires |keys| == |assets|
    ensures var picks := Select(keys, largest, PanelSize);
      var rows := Rows(assets, keys, picks);
      && |rows| == (if |assets| < 3 then |assets| else 3)
      && (forall k :: 0 <= k < |rows| ==>
            rows[k] == Row(assets[picks[k]].name, assets[picks[k]].symbol, keys[picks[k]]))
      && (forall a, b :: 0 <= a < b < |picks| ==> picks[a] != picks[b])
      && (forall a, b :: 0 <= a < b < |rows| ==>
            if largest then rows[a].value >= rows[b].value else rows[a].value <= rows[b].value)
      && (forall a, b :: 0 <= a < b < |rows| && rows[a].value == rows[b].value ==> picks[a] < picks[b])
      && (forall j :: 0 <= j < |assets| && j !in picks ==>
            forall a :: 0 <= a < |rows| ==>
              if largest then keys[j] <= rows[a].value else keys[j] >= rows[a].value)
  {
    SelectSpec(keys, largest, PanelSize);
    var picks := Select(keys, largest, PanelSize);
    forall a, b | 0 <= a < b < |picks| ensures picks[a] != picks[b] {
      assert Ahead(keys, largest, picks[a], picks[b]);
    }
  }

  lemma GainersSpec(assets: seq<Asset>)
    ensures var picks := Select(Changes(assets), true, PanelSize);
      var g := Gainers(assets);
      && |g| == (if |assets| < 3 then |assets| else 3)
      && (forall k :: 0 <= k < |g| ==>
            g[k] == Row(assets[picks[k]].name, assets[picks[k]].symbol, assets[picks[k]].changePercent24Hr))
      && (forall a, b :: 0 <= a < b < |g| ==> g[a].value >= g[b].value)
      && (forall a, b :: 0 <= a < b < |g| && g[a].value == g[b].value ==> picks[a] < picks[b])
      && (forall j :: 0 <= j < |assets| && j !in picks ==>
            forall a :: 0 <= a < |g| ==> assets[j].changePercent24Hr <= g[a].value)
  {
    PanelSpec(assets, Changes(assets), true);
  }

  lemma LosersSpec(assets: seq<Asset>)
    ensures var picks := Select(Changes(assets), false, PanelSize);
      var l := Losers(assets);
      && |l| == (if |assets| < 3 then |assets| else 3)
      && (forall k :: 0 <= k < |l| ==>
            l[k] == Row(assets[picks[k]].name, assets[picks[k]].symbol, assets[picks[k]].changePercent24Hr))
      && (forall a, b :: 0 <= a < b < |l| ==> l[a].value <= l[b].value)
      && (forall a, b :: 0 <= a < b < |l| && l[a].value == l[b].value ==> picks[a] < picks[b])
      && (forall j :: 0 <= j < |assets| && j !in picks ==>
            forall a :: 0 <= a < |l| ==> assets[j].changePercent24Hr >= l[a].value)
  {
    PanelSpec(assets, Changes(assets), false);
  }

  lemma VolumeLeadersSpec(assets: seq<Asset>)
    ensures var picks := Select(Volumes(assets), true, PanelSize);
      var v := VolumeLeaders(assets);
      && |v| == (if |assets| < 3 then |assets| else 3)
      && (forall k :: 0 <= k < |v| ==>
            v[k] == Row(assets[picks[k]].name, assets[picks[k]].symbol, assets[picks[k]].volumeUsd24Hr))
      && (forall a, b :: 0 <= a < b < |v| ==> v[a].value >= v[b].value)
      && (forall a, b :: 0 <= a < b < |v| && v[a].value == v[b].value ==> picks[a] < picks[b])
      && (forall j :: 0 <= j < |assets| && j !in picks ==>
            forall a :: 0 <= a < |v| ==> assets[j].volumeUsd24Hr <= v[a].value)
  {
    PanelSpec(assets, Volumes(assets), true);
  }

  /** With three or fewer assets, each panel shows all of them. */
  lemma SmallMarketShowsAll(keys: seq<real>, largest: bool)
    requires |keys| <= 3
    ensures forall j :: 0 <= j < |keys| ==> j in Select(keys, largest, PanelSize)
  {
    SelectAll(keys, largest);
    RankLength(keys, largest, Positions(|keys|));
    assert Select(keys, largest, PanelSize) == Select(keys, largest, |keys|);
  }
}
