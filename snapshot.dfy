/** The real-time snapshot route: one synthetic sample per unordered pair of registry servers. */
module Snapshot {
  import opened Types
  import opened Utils
  import opened Registry

  /** The distance-derived latency both routes start from: 20 ms plus 1 ms per 100 km. */
  function BaseLatency(distanceKm: real): (ms: real)
    ensures distanceKm >= 0.0 ==> ms >= 20.0
  {
    20.0 + distanceKm * 0.01
  }

  lemma BaseLatencyMonotone(d1: real, d2: real)
    requires d1 <= d2
    ensures BaseLatency(0.0) == 20.0
    ensures BaseLatency(d1) <= BaseLatency(d2)
  {
  }

  /** The latency before rounding: base latency scaled by a noise factor from one random draw, floored at 10. */
  function NoisyLatency(distanceKm: real, r: real): (ms: real)
    ensures ms >= 10.0
    ensures distanceKm >= 0.0 && 0.0 <= r < 1.0 ==>
              MaxReal(10.0, 0.8 * BaseLatency(distanceKm)) <= ms <= MaxReal(10.0, 1.2 * BaseLatency(distanceKm))
  {
    var variation := (r - 0.5) * 0.4;
    assert distanceKm >= 0.0 && 0.0 <= r < 1.0 ==>
             0.8 * BaseLatency(distanceKm) <= BaseLatency(distanceKm) * (1.0 + variation) < 1.2 * BaseLatency(distanceKm) by {
      if distanceKm >= 0.0 && 0.0 <= r < 1.0 {
        NoiseBounds(distanceKm, r);
      }
    }
    MaxReal(10.0, BaseLatency(distanceKm) * (1.0 + variation))
  }

  /** The sample one pair yields from its distance and its random draw. */
  function MakeSample(from: ExchangeServer, to: ExchangeServer, distanceKm: real, r: real, now: int): LatencyData {
    var latency := NoisyLatency(distanceKm, r);
    LatencyData(from.id, to.id, Round(latency), now, GetLatencyStatus(latency))
  }

  /** The pairs (i, j) with i < j < n of row i, in increasing j. */
  function Row(n: nat, i: nat): seq<(nat, nat)>
    requires i < n
  {
    seq(n - 1 - i, t requires 0 <= t < n - 1 - i => (i, i + 1 + t))
  }

  /** The pairs of rows 0 .. i-1: the order in which the nested loop visits them. */
  function PairsBefore(n: nat, i: nat): (ps: seq<(nat, nat)>)
    requires i <= n
    ensures forall k :: 0 <= k < |ps| ==> ps[k].0 < i && ps[k].0 < ps[k].1 < n
    decreases i
  {
    if i == 0 then [] else PairsBefore(n, i - 1) + Row(n, i - 1)
  }

  /** Every unordered pair of indices below n, each once, in lexicographic order. */
  function Pairs(n: nat): (ps: seq<(nat, nat)>)
    ensures forall k :: 0 <= k < |ps| ==> ps[k].0 < ps[k].1 < n
  {
    PairsBefore(n, n)
  }

  function SampleFor(servers: seq<ExchangeServer>, dist: (ExchangeServer, ExchangeServer) -> real,
                     draw: nat -> real, now: int, p: (nat, nat), k: nat): LatencyData
    requires p.0 < |servers| && p.1 < |servers|
  {
    MakeSample(servers[p.0], servers[p.1], dist(servers[p.0], servers[p.1]), draw(k), now)
  }

  /** The snapshot: the k-th sample belongs to the k-th pair and consumes the k-th random draw. */
  function Snapshot(servers: seq<ExchangeServer>, dist: (ExchangeServer, ExchangeServer) -> real,
                    draw: nat -> real, now: int): seq<LatencyData>
  {
    var ps := Pairs(|servers|);
    seq(|ps|, k requires 0 <= k < |ps| => SampleFor(servers, dist, draw, now, ps[k], k))
  }

  /**
   * generateLatencyData: `dist` stands for the great-circle distance, `draw(k)` for the k-th
   * value Math.random returns, `now` for Date.now().
   */
  method GenerateLatencyData(servers: seq<ExchangeServer>, dist: (ExchangeServer, ExchangeServer) -> real,
                             draw: nat -> real, now: int) returns (data: seq<LatencyData>)
    ensures data == Snapshot(servers, dist, draw, now)
  {
    data := [];
    var n := |servers|;
    var i := 0;
    while i < n
      invariant 0 <= i <= n
      invariant |data| == |PairsBefore(n, i)|
      invariant forall k :: 0 <= k < |data| ==> data[k] == SampleFor(servers, dist, draw, now, PairsBefore(n, i)[k], k)
    {
      data := GenerateRow(servers, dist, draw, now, i, data);
      i := i + 1;
    }
  }

  /** One pass of the inner loop: appends the samples of row i, continuing the draw count. */
  method GenerateRow(servers: seq<ExchangeServer>, dist: (ExchangeServer, ExchangeServer) -> real,
                     draw: nat -> real, now: int, i: nat, prefix: seq<LatencyData>) returns (data: seq<LatencyData>)
    requires i < |servers| && |prefix| == |PairsBefore(|servers|, i)|
    requires forall k :: 0 <= k < |prefix| ==> prefix[k] == SampleFor(servers, dist, draw, now, PairsBefore(|servers|, i)[k], k)
    ensures |data| == |PairsBefore(|servers|, i + 1)|
    ensures forall k :: 0 <= k < |data| ==> data[k] == SampleFor(servers, dist, draw, now, PairsBefore(|servers|, i + 1)[k], k)
  {
    var n := |servers|;
    ghost var done := PairsBefore(n, i) + Row(n, i);
    assert PairsBefore(n, i + 1) == done;
    data := prefix;
    var j := i + 1;
    while j < n
      invariant i + 1 <= j <= n
      invariant |data| == |PairsBefore(n, i)| + (j - i - 1)
      invariant forall k :: 0 <= k < |data| ==> data[k] == SampleFor(servers, dist, draw, now, done[k], k)
    {
      var from, to := servers[i], servers[j];
      var distance := dist(from, to);
      var baseLatency := 20.0 + distance * 0.01;
      var variation := (draw(|data|) - 0.5) * 0.4;
      var latency := MaxReal(10.0, baseLatency * (1.0 + variation));
      assert done[|data|] == (i, j);
      var sample := LatencyData(from.id, to.id, Round(latency), now, GetLatencyStatus(latency));
      assert sample == SampleFor(servers, dist, draw, now, (i, j), |data|);
      data := data + [sample];
      j := j + 1;
    }
  }

  /** Arithmetic behind the count: 2 * |PairsBefore(n, i)| == i * (2n - i - 1). */
  lemma {:induction false} PairsBeforeLength(n: nat, i: nat)
    requires i <= n
    ensures 2 * |PairsBefore(n, i)| == i * (2 * n - i - 1)
    decreases i
  {
    if i > 0 {
      PairsBeforeLength(n, i - 1);
      assert 2 * |PairsBefore(n, i)| == (i - 1) * (2 * n - i) + 2 * (n - i);
      assert (i - 1) * (2 * n - i) + 2 * (n - i) == i * (2 * n - i - 1);
    }
  }

  /** For N servers there are exactly N(N-1)/2 pairs. */
  lemma PairsCount(n: nat)
    ensures |Pairs(n)| == n * (n - 1) / 2
  {
    PairsBeforeLength(n, n);
  }

  /** Lexicographic order on index pairs. */
  predicate LexLess(p: (nat, nat), q: (nat, nat)) {
    p.0 < q.0 || (p.0 == q.0 && p.1 < q.1)
  }

  lemma {:induction false} PairsBeforeSorted(n: nat, i: nat)
    requires i <= n
    ensures forall a, b :: 0 <= a < b < |PairsBefore(n, i)| ==> LexLess(PairsBefore(n, i)[a], PairsBefore(n, i)[b])
    decreases i
  {
    if i > 0 {
      PairsBeforeSorted(n, i - 1);
      var prev, row := PairsBefore(n, i - 1), Row(n, i - 1);
      assert PairsBefore(n, i) == prev + row;
      forall a, b | 0 <= a < b < |prev + row|
        ensures LexLess((prev + row)[a], (prev + row)[b])
      {
        if b < |prev| {
          assert (prev + row)[a] == prev[a] && (prev + row)[b] == prev[b];
        } else if a < |prev| {
          assert (prev + row)[a] == prev[a] && (prev + row)[b] == row[b - |prev|];
        } else {
          assert (prev + row)[a] == row[a - |prev|] && (prev + row)[b] == row[b - |prev|];
        }
      }
    }
  }

  lemma {:induction false} PairsBeforeComplete(n: nat, i: nat, a: nat, b: nat)
    requires i <= n && a < i && a < b < n
    ensures (a, b) in PairsBefore(n, i)
    decreases i
  {
    if a < i - 1 {
      PairsBeforeComplete(n, i - 1, a, b);
    } else {
      assert Row(n, a)[b - a - 1] == (a, b);
    }
  }

  /** The pairs appear in strictly increasing lexicographic order, so none occurs twice. */
  lemma PairsSorted(n: nat)
    ensures forall a, b :: 0 <= a < b < |Pairs(n)| ==> LexLess(Pairs(n)[a], Pairs(n)[b])
  {
    PairsBeforeSorted(n, n);
  }

  /** Every unordered pair of distinct indices occurs. */
  lemma PairsComplete(n: nat, a: nat, b: nat)
    requires a < b < n
    ensures (a, b) in Pairs(n)
  {
    PairsBeforeComplete(n, n, a, b);
  }

  /** The snapshot has N(N-1)/2 samples, all stamped `now`, every latency an integer of at least 10. */
  lemma SnapshotShape(servers: seq<ExchangeServer>, dist: (ExchangeServer, ExchangeServer) -> real,
                      draw: nat -> real, now: int)
    ensures |Snapshot(servers, dist, draw, now)| == |servers| * (|servers| - 1) / 2
    ensures forall k :: 0 <= k < |Snapshot(servers, dist, draw, now)| ==>
              Snapshot(servers, dist, draw, now)[k].timestamp == now &&
              Snapshot(servers, dist, draw, now)[k].latency >= 10
  {
    PairsCount(|servers|);
  }

  /** Sample k joins server Pairs(N)[k].0 to server Pairs(N)[k].1, its first index being the smaller. */
  lemma SnapshotEndpoints(servers: seq<ExchangeServer>, dist: (ExchangeServer, ExchangeServer) -> real,
                          draw: nat -> real, now: int, k: nat)
    requires k < |Snapshot(servers, dist, draw, now)|
    ensures Pairs(|servers|)[k].0 < Pairs(|servers|)[k].1 < |servers|
    ensures Snapshot(servers, dist, draw, now)[k].from == servers[Pairs(|servers|)[k].0].id
    ensures Snapshot(servers, dist, draw, now)[k].to == servers[Pairs(|servers|)[k].1].id
  {
  }

  /**
   * With unique ids no sample pairs a server with itself, no unordered pair is sampled twice
   * (in either order), and every unordered pair is sampled.
   */
  lemma SnapshotPairsUnique(servers: seq<ExchangeServer>, dist: (ExchangeServer, ExchangeServer) -> real,
                            draw: nat -> real, now: int)
    requires UniqueIds(servers)
    ensures forall k :: 0 <= k < |Snapshot(servers, dist, draw, now)| ==>
              Snapshot(servers, dist, draw, now)[k].from != Snapshot(servers, dist, draw, now)[k].to
    ensures forall k1, k2 :: 0 <= k1 < k2 < |Snapshot(servers, dist, draw, now)| ==>
              !(Snapshot(servers, dist, draw, now)[k1].from == Snapshot(servers, dist, draw, now)[k2].from &&
                Snapshot(servers, dist, draw, now)[k1].to == Snapshot(servers, dist, draw, now)[k2].to)
    ensures forall k1, k2 :: 0 <= k1 < |Snapshot(servers, dist, draw, now)| && 0 <= k2 < |Snapshot(servers, dist, draw, now)| ==>
              !(Snapshot(servers, dist, draw, now)[k1].from == Snapshot(servers, dist, draw, now)[k2].to &&
                Snapshot(servers, dist, draw, now)[k1].to == Snapshot(servers, dist, draw, now)[k2].from)
  {
    var s, ps := Snapshot(servers, dist, draw, now), Pairs(|servers|);
    PairsSorted(|servers|);
    forall k1, k2 | 0 <= k1 < k2 < |s|
      ensures !(s[k1].from == s[k2].from && s[k1].to == s[k2].to)
    {
      assert LexLess(ps[k1], ps[k2]);
    }
  }

  /** Every unordered pair of registry servers is sampled. */
  lemma SnapshotCoversPair(servers: seq<ExchangeServer>, dist: (ExchangeServer, ExchangeServer) -> real,
                           draw: nat -> real, now: int, a: nat, b: nat)
    requires a < b < |servers|
    ensures exists k :: 0 <= k < |Snapshot(servers, dist, draw, now)| &&
              Snapshot(servers, dist, draw, now)[k].from == servers[a].id &&
              Snapshot(servers, dist, draw, now)[k].to == servers[b].id
  {
    var s, ps := Snapshot(servers, dist, draw, now), Pairs(|servers|);
    PairsComplete(|servers|, a, b);
    var k :| 0 <= k < |ps| && ps[k] == (a, b);
    assert s[k].from == servers[a].id && s[k].to == servers[b].id;
  }

  /** For a draw in [0, 1) the value before the 10 ms floor lies in [0.8 base, 1.2 base). */
  lemma NoiseBounds(distanceKm: real, r: real)
    requires distanceKm >= 0.0 && 0.0 <= r < 1.0
    ensures 0.8 * BaseLatency(distanceKm) <= BaseLatency(distanceKm) * (1.0 + (r - 0.5) * 0.4)
    ensures BaseLatency(distanceKm) * (1.0 + (r - 0.5) * 0.4) < 1.2 * BaseLatency(distanceKm)
  {
  }

  /** The stored latency is the floored noisy value, rounded: within half a millisecond of [max(10, 0.8 base), max(10, 1.2 base)]. */
  lemma SampleLatencyBounds(from: ExchangeServer, to: ExchangeServer, distanceKm: real, r: real, now: int)
    requires distanceKm >= 0.0 && 0.0 <= r < 1.0
    ensures MakeSample(from, to, distanceKm, r, now).latency >= 10
    ensures MaxReal(10.0, 0.8 * BaseLatency(distanceKm)) - 0.5 < MakeSample(from, to, distanceKm, r, now).latency as real
    ensures MakeSample(from, to, distanceKm, r, now).latency as real <= MaxReal(10.0, 1.2 * BaseLatency(distanceKm)) + 0.5
  {
    NoiseBounds(distanceKm, r);
    var b := BaseLatency(distanceKm);
    var x := b * (1.0 + (r - 0.5) * 0.4);
    var y := NoisyLatency(distanceKm, r);
    assert y == MaxReal(10.0, x);
    assert MaxReal(10.0, 0.8 * b) <= y <= MaxReal(10.0, 1.2 * b);
    assert MakeSample(from, to, distanceKm, r, now).latency == Round(y);
  }

  /**
   * The status is taken from the unrounded value, so it can disagree with the band of the stored
   * latency: base 44 ms (2400 km) and draw 9/11 give 49.6 ms, stored as 50 but classified good.
   */
  lemma StatusFromUnroundedLatency(from: ExchangeServer, to: ExchangeServer, now: int)
    ensures NoisyLatency(2400.0, 9.0 / 11.0) == 49.6
    ensures MakeSample(from, to, 2400.0, 9.0 / 11.0, now).latency == 50
    ensures MakeSample(from, to, 2400.0, 9.0 / 11.0, now).status == Good
    ensures GetLatencyStatus(MakeSample(from, to, 2400.0, 9.0 / 11.0, now).latency as real) == Warning
  {
    assert BaseLatency(2400.0) == 44.0;
    assert (9.0 / 11.0 - 0.5) * 0.4 == 7.0 / 55.0;
    assert 44.0 * (1.0 + 7.0 / 55.0) == 49.6;
  }
}
