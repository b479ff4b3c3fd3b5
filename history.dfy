/**
 * An asset's price history as the dashboard reads it from the history
 * endpoint: one record per interval, with `time` in milliseconds and
 * `priceUsd` already converted by `float()`.
 */
module AssetHistory {

  datatype Point = Point(time: int, priceUsd: real)

  /** `[float(d['priceUsd']) for d in history]`. */
  function Prices(h: seq<Point>): (ps: seq<real>)
    ensures |ps| == |h|
    ensures forall i :: 0 <= i < |h| ==> ps[i] == h[i].priceUsd
  {
    seq(|h|, i requires 0 <= i < |h| => h[i].priceUsd)
  }

  /** The x-axis of a trace: the records' timestamps. */
  function Times(h: seq<Point>): (ts: seq<int>)
    ensures |ts| == |h|
    ensures forall i :: 0 <= i < |h| ==> ts[i] == h[i].time
  {
    seq(|h|, i requires 0 <= i < |h| => h[i].time)
  }
}
