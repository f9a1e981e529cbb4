/** The filter engine of the globe view: which exchanges, connections and cloud regions are drawn. */
module WorldMap {
  import opened Types
  import opened Seqs
  import opened Registry

  /** A connection to draw: both endpoint records and the sample's latency. */
  datatype Connection = Connection(from: ExchangeServer, to: ExchangeServer, latency: int)

  /** The two early returns of the exchange filter; an empty selection list lets everything through. */
  predicate ExchangePasses(s: ExchangeServer, f: FilterState) {
    (|f.selectedExchanges| == 0 || s.id in f.selectedExchanges) &&
    (|f.selectedCloudProviders| == 0 || s.cloudProvider in f.selectedCloudProviders)
  }

  function VisibleExchanges(registry: seq<ExchangeServer>, f: FilterState): seq<ExchangeServer> {
    Filter(registry, s => ExchangePasses(s, f))
  }

  /** A sample survives when both endpoints are visible and min <= latency <= max. */
  predicate ConnectionPasses(c: LatencyData, visible: seq<ExchangeServer>, f: FilterState) {
    HasId(visible, c.from) && HasId(visible, c.to) &&
    c.latency >= f.latencyThreshold.min && c.latency <= f.latencyThreshold.max
  }

  function KeptSamples(samples: seq<LatencyData>, visible: seq<ExchangeServer>, f: FilterState): seq<LatencyData> {
    Filter(samples, c => ConnectionPasses(c, visible, f))
  }

  /**
   * The visibleConnections memo: nothing when connections are hidden, otherwise the kept samples
   * with their endpoints looked up in the registry.
   */
  function VisibleConnections(registry: seq<ExchangeServer>, samples: seq<LatencyData>, f: FilterState): (r: seq<Connection>)
    ensures !f.showConnections ==> r == []
    ensures f.showConnections ==>
              |r| == |KeptSamples(samples, VisibleExchanges(registry, f), f)| &&
              forall k :: 0 <= k < |r| ==>
                r[k].from.id == KeptSamples(samples, VisibleExchanges(registry, f), f)[k].from &&
                r[k].to.id == KeptSamples(samples, VisibleExchanges(registry, f), f)[k].to &&
                r[k].latency == KeptSamples(samples, VisibleExchanges(registry, f), f)[k].latency &&
                r[k].from in registry && r[k].to in registry
  {
    if !f.showConnections then []
    else
      var visible := VisibleExchanges(registry, f);
      var kept := KeptSamples(samples, visible, f);
      assert forall k :: 0 <= k < |kept| ==> HasId(registry, kept[k].from) && HasId(registry, kept[k].to) by {
        forall k | 0 <= k < |kept|
          ensures HasId(registry, kept[k].from) && HasId(registry, kept[k].to)
        {
          assert ConnectionPasses(kept[k], visible, f);
          VisibleHasIdInRegistry(registry, f, kept[k].from);
          VisibleHasIdInRegistry(registry, f, kept[k].to);
        }
      }
      seq(|kept|, k requires 0 <= k < |kept| =>
        Connection(FindById(registry, kept[k].from).value, FindById(registry, kept[k].to).value, kept[k].latency))
  }

  lemma VisibleHasIdInRegistry(registry: seq<ExchangeServer>, f: FilterState, id: string)
    requires HasId(VisibleExchanges(registry, f), id)
    ensures HasId(registry, id)
  {
    var visible := VisibleExchanges(registry, f);
    var k :| 0 <= k < |visible| && visible[k].id == id;
    assert visible[k] in registry;
    var m :| 0 <= m < |registry| && registry[m] == visible[k];
  }

  /** Cloud-region markers: all of them iff showCloudRegions; providers are not consulted. */
  function VisibleCloudRegions(regions: seq<CloudRegion>, f: FilterState): seq<CloudRegion> {
    if f.showCloudRegions then regions else []
  }

  /** The marker onClick: clicking the selected marker clears the selection, any other selects it. */
  function ClickMarker(selected: Option<string>, id: string): Option<string> {
    if selected == Some(id) then None else Some(id)
  }

  /** The visible exchanges are an order-preserving subsequence of the registry; a server is visible iff it passes both lists. */
  lemma VisibleExchangesSpec(registry: seq<ExchangeServer>, f: FilterState)
    ensures Subsequence(VisibleExchanges(registry, f), registry)
    ensures forall k :: 0 <= k < |registry| ==>
              (registry[k] in VisibleExchanges(registry, f) <==>
                 (f.selectedExchanges == [] || registry[k].id in f.selectedExchanges) &&
                 (f.selectedCloudProviders == [] || registry[k].cloudProvider in f.selectedCloudProviders))
    ensures forall k :: 0 <= k < |VisibleExchanges(registry, f)| ==>
              VisibleExchanges(registry, f)[k] in registry && ExchangePasses(VisibleExchanges(registry, f)[k], f)
  {
    var v := VisibleExchanges(registry, f);
    forall k | 0 <= k < |registry| && registry[k] in v
      ensures ExchangePasses(registry[k], f)
    {
      var m :| 0 <= m < |v| && v[m] == registry[k];
    }
  }

  /** With both selection lists empty every server is visible. */
  lemma NoSelectionShowsAll(registry: seq<ExchangeServer>, f: FilterState)
    requires f.selectedExchanges == [] && f.selectedCloudProviders == []
    ensures VisibleExchanges(registry, f) == registry
  {
    FilterAllPass(registry, s => ExchangePasses(s, f));
  }

  /** Filtering the visible list again with the same filters changes nothing. */
  lemma VisibleExchangesIdempotent(registry: seq<ExchangeServer>, f: FilterState)
    ensures VisibleExchanges(VisibleExchanges(registry, f), f) == VisibleExchanges(registry, f)
  {
    FilterIdempotent(registry, s => ExchangePasses(s, f));
  }

  /**
   * A sample is kept iff both endpoints are visible and its latency lies in [min, max], inclusive;
   * the kept samples keep their input order.
   */
  lemma KeptSamplesSpec(samples: seq<LatencyData>, visible: seq<ExchangeServer>, f: FilterState)
    ensures Subsequence(KeptSamples(samples, visible, f), samples)
    ensures forall k :: 0 <= k < |samples| ==>
              (samples[k] in KeptSamples(samples, visible, f) <==>
                 HasId(visible, samples[k].from) && HasId(visible, samples[k].to) &&
                 f.latencyThreshold.min <= samples[k].latency <= f.latencyThreshold.max)
  {
    var kept := KeptSamples(samples, visible, f);
    forall k | 0 <= k < |samples| && samples[k] in kept
      ensures ConnectionPasses(samples[k], visible, f)
    {
      var m :| 0 <= m < |kept| && kept[m] == samples[k];
    }
  }

  /** An inverted window (min > max), which the sliders allow, keeps no connection. */
  lemma InvertedWindowKeepsNothing(registry: seq<ExchangeServer>, samples: seq<LatencyData>, f: FilterState)
    requires f.latencyThreshold.min > f.latencyThreshold.max
    ensures VisibleConnections(registry, samples, f) == []
  {
    var visible := VisibleExchanges(registry, f);
    var kept := KeptSamples(samples, visible, f);
    if kept != [] {
      assert false;
    }
    assert |VisibleConnections(registry, samples, f)| == |kept|;
  }

  lemma CloudRegionsShownIff(regions: seq<CloudRegion>, f: FilterState, providers: seq<CloudProvider>)
    ensures f.showCloudRegions ==> VisibleCloudRegions(regions, f) == regions
    ensures !f.showCloudRegions ==> VisibleCloudRegions(regions, f) == []
    ensures VisibleCloudRegions(regions, f) == VisibleCloudRegions(regions, f.(selectedCloudProviders := providers))
  {
  }

  lemma ClickMarkerSpec(selected: Option<string>, id: string)
    ensures selected == Some(id) ==> ClickMarker(selected, id) == None
    ensures selected != Some(id) ==> ClickMarker(selected, id) == Some(id)
    ensures ClickMarker(ClickMarker(None, id), id) == None
  {
  }
}
