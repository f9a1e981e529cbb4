/** The historical route: a synthetic time series for one (from, to) pair of exchanges. */
module Historical {
  import opened Types
  import opened Utils
  import opened Registry
  import Snapshot

  /** The query string: each parameter may be absent. */
  datatype Request = Request(from: Option<string>, to: Option<string>, timeRange: Option<string>)

  /** What a time-range token resolves to: span in hours, spacing in milliseconds, point count. */
  datatype RangeParams = RangeParams(hours: nat, interval: nat, points: nat)

  /** The route's outcome: the series and the two endpoint names, or a 400 with its message. */
  datatype Response =
    | Ok(data: seq<HistoricalLatencyData>, fromName: string, toName: string)
    | BadRequest(error: string)

  const MISSING_PARAMS: string := "Missing from or to parameters"
  const INVALID_IDS: string := "Invalid exchange IDs"

  /** JavaScript's `!value` on a query parameter: absent or empty. */
  predicate Missing(v: Option<string>) {
    v.None? || v.value == ""
  }

  /** The time-range parameter, `24h` when absent or empty. */
  function RangeToken(req: Request): string {
    if Missing(req.timeRange) then "24h" else req.timeRange.value
  }

  function MinInt(a: int, b: int): int {
    if a <= b then a else b
  }

  function MaxInt(a: int, b: int): int {
    if a >= b then a else b
  }

  /** The span, spacing and point count of a token: at most 100 points, never more than the span in hours. */
  function ResolveRange(token: string): (p: RangeParams)
    ensures p.points == MinInt(p.hours, 100) && 1 <= p.points <= 100
    ensures p.interval > 0 && (p.interval == 60000 <==> token == "1h")
  {
    var hours := if token == "1h" then 1 else if token == "24h" then 24 else if token == "7d" then 168 else 720;
    var interval := if token == "1h" then 60000 else 3600000;
    RangeParams(hours, interval, MinInt(hours * 1, 100))
  }

  /** The point of countdown index i: `w` is the sine term of i, `r` the random draw it consumes. */
  function Point(from: string, to: string, baseLatency: real, interval: nat, i: nat, w: real, r: real, now: int)
    : HistoricalLatencyData
  {
    var latency := baseLatency * (1.0 + w + (r - 0.5) * 0.3);
    HistoricalLatencyData(now - i * interval, MaxInt(10, Round(latency)), from, to)
  }

  /**
   * The series in push order: entry k has countdown index points - k, takes the sine term
   * wave(points - k, points) and the k-th random draw.
   */
  function Series(from: string, to: string, baseLatency: real, p: RangeParams,
                  draw: nat -> real, wave: (nat, nat) -> real, now: int): seq<HistoricalLatencyData>
  {
    seq(p.points + 1, k requires 0 <= k <= p.points =>
      Point(from, to, baseLatency, p.interval, p.points - k, wave(p.points - k, p.points), draw(k), now))
  }

  /** What the route answers, with validation before generation. */
  function Handle(req: Request, servers: seq<ExchangeServer>, dist: (ExchangeServer, ExchangeServer) -> real,
                  draw: nat -> real, wave: (nat, nat) -> real, now: int): Response
  {
    if Missing(req.from) || Missing(req.to) then BadRequest(MISSING_PARAMS)
    else
      var fromServer, toServer := FindById(servers, req.from.value), FindById(servers, req.to.value);
      if fromServer.None? || toServer.None? then BadRequest(INVALID_IDS)
      else
        var base := Snapshot.BaseLatency(dist(fromServer.value, toServer.value));
        Ok(Series(req.from.value, req.to.value, base, ResolveRange(RangeToken(req)), draw, wave, now),
           fromServer.value.name, toServer.value.name)
  }

  /**
   * GET: `dist` stands for the great-circle distance, `draw(k)` for the k-th value of Math.random,
   * `wave(i, points)` for the sine term 0.2 sin(4 pi i / points), `now` for Date.now().
   */
  method Get(req: Request, servers: seq<ExchangeServer>, dist: (ExchangeServer, ExchangeServer) -> real,
             draw: nat -> real, wave: (nat, nat) -> real, now: int) returns (resp: Response)
    ensures resp == Handle(req, servers, dist, draw, wave, now)
  {
    var timeRange := RangeToken(req);
    if Missing(req.from) || Missing(req.to) {
      return BadRequest(MISSING_PARAMS);
    }
    var from, to := req.from.value, req.to.value;
    var fromServer := FindById(servers, from);
    var toServer := FindById(servers, to);
    if fromServer.None? || toServer.None? {
      return BadRequest(INVALID_IDS);
    }
    var distance := dist(fromServer.value, toServer.value);
    var baseLatency := 20.0 + distance * 0.01;
    var hours := if timeRange == "1h" then 1 else if timeRange == "24h" then 24 else if timeRange == "7d" then 168 else 720;
    var interval := if timeRange == "1h" then 60000 else 3600000;
    var points := MinInt(hours * 1, 100);
    assert RangeParams(hours, interval, points) == ResolveRange(timeRange);
    var data := GenerateSeries(from, to, baseLatency, RangeParams(hours, interval, points), draw, wave, now);
    resp := Ok(data, fromServer.value.name, toServer.value.name);
  }

  /** The countdown loop `for (i = points; i >= 0; i--)`, pushing one point per step. */
  method GenerateSeries(from: string, to: string, baseLatency: real, p: RangeParams,
                        draw: nat -> real, wave: (nat, nat) -> real, now: int) returns (data: seq<HistoricalLatencyData>)
    ensures data == Series(from, to, baseLatency, p, draw, wave, now)
  {
    var interval, points := p.interval, p.points;
    data := [];
    var i: int := points;
    while i >= 0
      invariant -1 <= i <= points
      invariant |data| == points - i
      invariant forall k :: 0 <= k < |data| ==>
                  data[k] == Point(from, to, baseLatency, interval, points - k, wave(points - k, points), draw(k), now)
    {
      var timestamp := now - i * interval;
      var timeVariation := wave(i, points);
      var randomNoise := (draw(|data|) - 0.5) * 0.3;
      var latency := baseLatency * (1.0 + timeVariation + randomNoise);
      assert HistoricalLatencyData(timestamp, MaxInt(10, Round(latency)), from, to)
          == Point(from, to, baseLatency, interval, points - |data|, wave(points - |data|, points), draw(|data|), now);
      data := data + [HistoricalLatencyData(timestamp, MaxInt(10, Round(latency)), from, to)];
      i := i - 1;
    }
  }

  /** Range resolution: 1h, 24h and 7d are recognised; every other token means 720 hours at hourly spacing. */
  lemma RangeTable(token: string)
    ensures ResolveRange("1h") == RangeParams(1, 60000, 1)
    ensures ResolveRange("24h") == RangeParams(24, 3600000, 24)
    ensures ResolveRange("7d") == RangeParams(168, 3600000, 100)
    ensures ResolveRange("30d") == RangeParams(720, 3600000, 100)
    ensures token != "1h" && token != "24h" && token != "7d" ==> ResolveRange(token) == RangeParams(720, 3600000, 100)
    ensures ResolveRange(token).points == MinInt(ResolveRange(token).hours, 100) && ResolveRange(token).points <= 100
  {
  }

  /** An absent or empty time range means 24h. */
  lemma DefaultRange(from: Option<string>, to: Option<string>, token: string)
    ensures RangeToken(Request(from, to, None)) == "24h"
    ensures RangeToken(Request(from, to, Some(""))) == "24h"
    ensures token != "" ==> RangeToken(Request(from, to, Some(token))) == token
  {
  }

  /**
   * The series has points + 1 entries, latencies of at least 10, the request's ids, and timestamps
   * now - (points - k) * interval: ascending with step `interval`, the last equal to now.
   */
  lemma SeriesShape(from: string, to: string, baseLatency: real, p: RangeParams,
                    draw: nat -> real, wave: (nat, nat) -> real, now: int)
    requires p.interval > 0
    ensures |Series(from, to, baseLatency, p, draw, wave, now)| == p.points + 1
    ensures forall k :: 0 <= k <= p.points ==>
              Series(from, to, baseLatency, p, draw, wave, now)[k].latency >= 10 &&
              Series(from, to, baseLatency, p, draw, wave, now)[k].from == from &&
              Series(from, to, baseLatency, p, draw, wave, now)[k].to == to &&
              Series(from, to, baseLatency, p, draw, wave, now)[k].timestamp == now - (p.points - k) * p.interval
    ensures Series(from, to, baseLatency, p, draw, wave, now)[p.points].timestamp == now
    ensures Series(from, to, baseLatency, p, draw, wave, now)[0].timestamp == now - p.points * p.interval
    ensures forall k :: 0 <= k < p.points ==>
              Series(from, to, baseLatency, p, draw, wave, now)[k + 1].timestamp ==
              Series(from, to, baseLatency, p, draw, wave, now)[k].timestamp + p.interval
    ensures forall k1, k2 :: 0 <= k1 < k2 <= p.points ==>
              Series(from, to, baseLatency, p, draw, wave, now)[k1].timestamp <
              Series(from, to, baseLatency, p, draw, wave, now)[k2].timestamp
  {
    var s := Series(from, to, baseLatency, p, draw, wave, now);
    forall k | 0 <= k <= p.points
      ensures s[k].latency >= 10 && s[k].from == from && s[k].to == to
      ensures s[k].timestamp == now - (p.points - k) * p.interval
    {
      assert s[k] == Point(from, to, baseLatency, p.interval, p.points - k, wave(p.points - k, p.points), draw(k), now);
    }
    forall k | 0 <= k < p.points
      ensures s[k + 1].timestamp == s[k].timestamp + p.interval
    {
      MulStep(p.points - (k + 1), p.interval);
    }
    forall k1, k2 | 0 <= k1 < k2 <= p.points
      ensures s[k1].timestamp < s[k2].timestamp
    {
      MulGap(p.points - k2, k2 - k1, p.interval);
    }
  }

  lemma MulStep(a: int, b: int)
    ensures (a + 1) * b == a * b + b
  {
  }

  lemma MulGap(a: int, d: int, b: int)
    requires d > 0 && b > 0
    ensures (a + d) * b > a * b
  {
    assert (a + d) * b == a * b + d * b;
  }

  /** A missing or empty `from` or `to` is a 400 with no data. */
  lemma MissingRejected(req: Request, servers: seq<ExchangeServer>, dist: (ExchangeServer, ExchangeServer) -> real,
                        draw: nat -> real, wave: (nat, nat) -> real, now: int)
    requires Missing(req.from) || Missing(req.to)
    ensures Handle(req, servers, dist, draw, wave, now) == BadRequest(MISSING_PARAMS)
  {
  }

  /** An id that no registry server carries is a 400 with no data. */
  lemma UnknownRejected(req: Request, servers: seq<ExchangeServer>, dist: (ExchangeServer, ExchangeServer) -> real,
                        draw: nat -> real, wave: (nat, nat) -> real, now: int)
    requires !Missing(req.from) && !Missing(req.to)
    requires !HasId(servers, req.from.value) || !HasId(servers, req.to.value)
    ensures Handle(req, servers, dist, draw, wave, now) == BadRequest(INVALID_IDS)
  {
  }

  /** The route answers with data exactly when both ids are given and known (equal ids included). */
  lemma AcceptedIffValid(req: Request, servers: seq<ExchangeServer>, dist: (ExchangeServer, ExchangeServer) -> real,
                         draw: nat -> real, wave: (nat, nat) -> real, now: int)
    ensures Handle(req, servers, dist, draw, wave, now).Ok? <==>
              !Missing(req.from) && !Missing(req.to) && HasId(servers, req.from.value) && HasId(servers, req.to.value)
  {
  }

  /**
   * An accepted request yields ResolveRange(token).points + 1 points carrying the request's ids,
   * latencies of at least 10, ascending timestamps ending at now, and the two servers' names.
   */
  lemma AcceptedSeries(req: Request, servers: seq<ExchangeServer>, dist: (ExchangeServer, ExchangeServer) -> real,
                       draw: nat -> real, wave: (nat, nat) -> real, now: int)
    requires Handle(req, servers, dist, draw, wave, now).Ok?
    ensures var r := Handle(req, servers, dist, draw, wave, now);
            var p := ResolveRange(RangeToken(req));
            |r.data| == p.points + 1 && p.points <= 100 &&
            r.data[p.points].timestamp == now &&
            (forall k :: 0 <= k < |r.data| ==>
               r.data[k].from == req.from.value && r.data[k].to == req.to.value && r.data[k].latency >= 10) &&
            (forall k1, k2 :: 0 <= k1 < k2 < |r.data| ==> r.data[k1].timestamp < r.data[k2].timestamp) &&
            (exists k :: 0 <= k < |servers| && servers[k].id == req.from.value && servers[k].name == r.fromName) &&
            (exists k :: 0 <= k < |servers| && servers[k].id == req.to.value && servers[k].name == r.toName)
  {
    var fromServer, toServer := FindById(servers, req.from.value), FindById(servers, req.to.value);
    var base := Snapshot.BaseLatency(dist(fromServer.value, toServer.value));
    var p := ResolveRange(RangeToken(req));
    SeriesShape(req.from.value, req.to.value, base, p, draw, wave, now);
    var i :| 0 <= i < |servers| && servers[i] == fromServer.value;
    var j :| 0 <= j < |servers| && servers[j] == toServer.value;
  }

  /** Equal `from` and `to` ids are accepted. */
  lemma SameEndpointsAccepted(req: Request, servers: seq<ExchangeServer>, dist: (ExchangeServer, ExchangeServer) -> real,
                              draw: nat -> real, wave: (nat, nat) -> real, now: int, k: nat)
    requires k < |servers| && servers[k].id != ""
    requires req.from == Some(servers[k].id) && req.to == Some(servers[k].id)
    ensures Handle(req, servers, dist, draw, wave, now).Ok?
  {
    assert HasId(servers, servers[k].id);
  }

  /** With the sine term in [-0.2, 0.2] and a draw in [0, 1) the value before rounding lies in [0.65 base, 1.35 base). */
  lemma RawLatencyBounds(baseLatency: real, w: real, r: real)
    requires baseLatency > 0.0 && -0.2 <= w <= 0.2 && 0.0 <= r < 1.0
    ensures 0.65 * baseLatency <= baseLatency * (1.0 + w + (r - 0.5) * 0.3) < 1.35 * baseLatency
  {
  }

  /** The token the application sends for each of its time ranges. */
  function TimeRangeToken(t: TimeRange): string {
    match t
    case OneHour => "1h"
    case OneDay => "24h"
    case OneWeek => "7d"
    case OneMonth => "30d"
  }

  /** For every selectable range the series has at most 101 points: 2 for 1h, 25 for 24h, 101 for 7d and 30d. */
  lemma SelectableRangePoints(t: TimeRange)
    ensures ResolveRange(TimeRangeToken(t)).points + 1 <= 101
    ensures t == OneHour ==> ResolveRange(TimeRangeToken(t)).points + 1 == 2
    ensures t == OneDay ==> ResolveRange(TimeRangeToken(t)).points + 1 == 25
    ensures t == OneWeek || t == OneMonth ==> ResolveRange(TimeRangeToken(t)).points + 1 == 101
  {
  }
}
