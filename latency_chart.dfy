/** The historical latency chart: its points, the rounded average and the min/max/count statistics. */
module LatencyChart {
  import opened Types
  import opened Utils

  /** The part of a chart row the model keeps; the formatted time and date strings are not modelled. */
  datatype ChartPoint = ChartPoint(timestamp: int, latency: int)

  /** What the component renders: the empty notice, or the chart with its header and statistics. */
  datatype ChartView =
    | NoData
    | Chart(points: seq<ChartPoint>, average: int, lineColor: string, min: int, max: int, count: nat)

  function Latencies(data: seq<HistoricalLatencyData>): seq<int> {
    seq(|data|, k requires 0 <= k < |data| => data[k].latency)
  }

  /** chartData: one row per sample, in order. */
  function ChartData(data: seq<HistoricalLatencyData>): seq<ChartPoint> {
    seq(|data|, k requires 0 <= k < |data| => ChartPoint(data[k].timestamp, data[k].latency))
  }

  /** The left fold `reduce((acc, x) => acc + x, 0)`. */
  function Sum(s: seq<int>): int {
    if s == [] then 0 else Sum(s[..|s| - 1]) + s[|s| - 1]
  }

  /** avgLatency: 0 for no data, otherwise Math.round(sum / length). */
  function AverageLatency(data: seq<HistoricalLatencyData>): int {
    if |data| == 0 then 0
    else Round(Sum(Latencies(data)) as real / |data| as real)
  }

  /** Math.min over a non-empty list. */
  function Min(s: seq<int>): (m: int)
    requires |s| > 0
    ensures m in s
    ensures forall k :: 0 <= k < |s| ==> m <= s[k]
  {
    if |s| == 1 then s[0]
    else
      var rest := Min(s[1..]);
      assert forall k :: 1 <= k < |s| ==> s[k] == s[1..][k - 1];
      if s[0] <= rest then s[0] else rest
  }

  /** Math.max over a non-empty list. */
  function Max(s: seq<int>): (m: int)
    requires |s| > 0
    ensures m in s
    ensures forall k :: 0 <= k < |s| ==> m >= s[k]
  {
    if |s| == 1 then s[0]
    else
      var rest := Max(s[1..]);
      assert forall k :: 1 <= k < |s| ==> s[k] == s[1..][k - 1];
      if s[0] >= rest then s[0] else rest
  }

  /** The render: the empty notice comes before min and max are evaluated. */
  function View(data: seq<HistoricalLatencyData>): ChartView {
    if |data| == 0 then NoData
    else
      var avg := AverageLatency(data);
      Chart(ChartData(data), avg, GetLatencyColor(avg as real),
            Min(Latencies(data)), Max(Latencies(data)), |data|)
  }

  /** The sum of a list lies between its length times any lower bound and its length times any upper bound. */
  lemma {:induction false} SumBounds(s: seq<int>, lo: int, hi: int)
    requires forall k :: 0 <= k < |s| ==> lo <= s[k] <= hi
    ensures |s| * lo <= Sum(s) <= |s| * hi
    decreases |s|
  {
    if s != [] {
      var init := s[..|s| - 1];
      assert forall k :: 0 <= k < |init| ==> init[k] == s[k];
      SumBounds(init, lo, hi);
      assert |s| * lo == |init| * lo + lo;
      assert |s| * hi == |init| * hi + hi;
    }
  }

  /** A quotient that lies between two integers rounds to a value between them. */
  lemma RoundBetween(x: real, lo: int, hi: int)
    requires lo as real <= x <= hi as real
    ensures lo <= Round(x) <= hi
  {
  }

  lemma DivideBounds(sum: int, n: int, lo: int, hi: int)
    requires n > 0 && n * lo <= sum <= n * hi
    ensures lo as real <= sum as real / n as real <= hi as real
  {
    assert (n * lo) as real == n as real * lo as real;
    assert (n * hi) as real == n as real * hi as real;
    assert sum as real / n as real * n as real == sum as real;
  }

  /** For non-empty data, min <= average <= max. */
  lemma AverageWithinMinMax(data: seq<HistoricalLatencyData>)
    requires |data| > 0
    ensures Min(Latencies(data)) <= AverageLatency(data) <= Max(Latencies(data))
  {
    var s := Latencies(data);
    var lo, hi := Min(s), Max(s);
    SumBounds(s, lo, hi);
    DivideBounds(Sum(s), |s|, lo, hi);
    RoundBetween(Sum(s) as real / |s| as real, lo, hi);
  }

  /** The average of identical latencies is that latency. */
  lemma ConstantSeriesAverage(data: seq<HistoricalLatencyData>, v: int)
    requires |data| > 0 && forall k :: 0 <= k < |data| ==> data[k].latency == v
    ensures AverageLatency(data) == v
  {
    SumBounds(Latencies(data), v, v);
    DivideBounds(Sum(Latencies(data)), |data|, v, v);
  }

  /**
   * The rendered view: nothing but the notice for no data; otherwise the chart rows copy timestamp
   * and latency in order, the colour is the average's band colour, min and max are attained bounds,
   * and the count is the number of samples.
   */
  lemma ViewSpec(data: seq<HistoricalLatencyData>)
    ensures |data| == 0 <==> View(data) == NoData
    ensures |data| == 0 ==> AverageLatency(data) == 0
    ensures View(data).Chart? ==>
              var v := View(data);
              |v.points| == |data| && v.count == |data| &&
              (forall k :: 0 <= k < |data| ==>
                 v.points[k].timestamp == data[k].timestamp && v.points[k].latency == data[k].latency &&
                 v.min <= data[k].latency <= v.max) &&
              (exists k :: 0 <= k < |data| && data[k].latency == v.min) &&
              (exists k :: 0 <= k < |data| && data[k].latency == v.max) &&
              v.lineColor == StatusColor(GetLatencyStatus(v.average as real)) &&
              v.min <= v.average <= v.max
  {
    if |data| > 0 {
      var s := Latencies(data);
      var v := View(data);
      assert forall k :: 0 <= k < |data| ==> s[k] == data[k].latency;
      var i :| 0 <= i < |s| && s[i] == v.min;
      var j :| 0 <= j < |s| && s[j] == v.max;
      ColorMatchesStatus(v.average as real);
      AverageWithinMinMax(data);
    }
  }
}
