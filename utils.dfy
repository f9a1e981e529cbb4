/** The latency classification of lib/utils.ts and the JavaScript arithmetic the routes use. */
module Utils {
  import opened Types

  /** Math.round: the nearest integer, with halves rounded up. */
  function Round(x: real): (r: int)
    ensures x - 0.5 < r as real <= x + 0.5
  {
    (x + 0.5).Floor
  }

  function MaxReal(a: real, b: real): real {
    if a >= b then a else b
  }

  const GREEN: string := "#10b981"
  const AMBER: string := "#f59e0b"
  const RED: string := "#ef4444"

  function GetLatencyStatus(latency: real): LatencyStatus {
    if latency < 50.0 then Good
    else if latency < 150.0 then Warning
    else Critical
  }

  function GetLatencyColor(latency: real): string {
    if latency < 50.0 then GREEN
    else if latency < 150.0 then AMBER
    else RED
  }

  /** The order good < warning < critical. */
  function Severity(s: LatencyStatus): nat {
    match s
    case Good => 0
    case Warning => 1
    case Critical => 2
  }

  /** The colour token that belongs to each band. */
  function StatusColor(s: LatencyStatus): string {
    match s
    case Good => GREEN
    case Warning => AMBER
    case Critical => RED
  }

  /** Each input falls into exactly one band; 50 and 150 open the next-higher band. */
  lemma StatusBands(latency: real)
    ensures GetLatencyStatus(latency) == Good <==> latency < 50.0
    ensures GetLatencyStatus(latency) == Warning <==> 50.0 <= latency < 150.0
    ensures GetLatencyStatus(latency) == Critical <==> 150.0 <= latency
  {
  }

  lemma StatusBoundaries()
    ensures GetLatencyStatus(49.0) == Good && GetLatencyStatus(49.999) == Good
    ensures GetLatencyStatus(50.0) == Warning && GetLatencyStatus(149.0) == Warning
    ensures GetLatencyStatus(150.0) == Critical
  {
  }

  /** Negative inputs are not rejected: they classify as good. */
  lemma NegativeIsGood(latency: real)
    requires latency < 0.0
    ensures GetLatencyStatus(latency) == Good && GetLatencyColor(latency) == GREEN
  {
  }

  lemma StatusMonotone(a: real, b: real)
    requires a <= b
    ensures Severity(GetLatencyStatus(a)) <= Severity(GetLatencyStatus(b))
  {
  }

  /** The colour uses the same thresholds as the status: green iff good, amber iff warning, red iff critical. */
  lemma ColorMatchesStatus(latency: real)
    ensures GetLatencyColor(latency) == StatusColor(GetLatencyStatus(latency))
    ensures GetLatencyColor(latency) == GREEN <==> GetLatencyStatus(latency) == Good
    ensures GetLatencyColor(latency) == AMBER <==> GetLatencyStatus(latency) == Warning
    ensures GetLatencyColor(latency) == RED <==> GetLatencyStatus(latency) == Critical
  {
  }
}
