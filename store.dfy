/** The application state store: five fields, one setter per change, and the persisted projection. */
module Store {
  import opened Types

  /** A Partial<FilterState>: the fields a setFilters call supplies. */
  datatype FilterPatch = FilterPatch(
    selectedExchanges: Option<seq<string>>,
    selectedCloudProviders: Option<seq<CloudProvider>>,
    latencyThreshold: Option<Threshold>,
    showCloudRegions: Option<bool>,
    showConnections: Option<bool>)

  const EmptyPatch: FilterPatch := FilterPatch(None, None, None, None, None)

  /** The subset of the state that survives a reload. */
  datatype PersistedState = PersistedState(theme: Theme, filters: FilterState)

  function DefaultFilters(): FilterState {
    FilterState([], [], Threshold(0, 500), true, true)
  }

  function InitialState(): AppState {
    AppState(Dark, DefaultFilters(), None, false, OneDay)
  }

  function Toggled(t: Theme): Theme {
    if t == Light then Dark else Light
  }

  function Override<T>(current: T, supplied: Option<T>): T {
    if supplied.Some? then supplied.value else current
  }

  /** The shallow merge `{ ...filters, ...patch }`. */
  function Merge(f: FilterState, p: FilterPatch): FilterState {
    FilterState(
      Override(f.selectedExchanges, p.selectedExchanges),
      Override(f.selectedCloudProviders, p.selectedCloudProviders),
      Override(f.latencyThreshold, p.latencyThreshold),
      Override(f.showCloudRegions, p.showCloudRegions),
      Override(f.showConnections, p.showConnections))
  }

  /** partialize: keep theme and filters only. */
  function Partialize(s: AppState): PersistedState {
    PersistedState(s.theme, s.filters)
  }

  class AppStore {
    var theme: Theme
    var filters: FilterState
    var selectedExchange: Option<string>
    var isPlaying: bool
    var timeRange: TimeRange

    function State(): AppState
      reads this
    {
      AppState(theme, filters, selectedExchange, isPlaying, timeRange)
    }

    constructor ()
      ensures State() == InitialState()
    {
      theme := Dark;
      filters := DefaultFilters();
      selectedExchange := None;
      isPlaying := false;
      timeRange := OneDay;
    }

    method SetTheme(t: Theme)
      modifies this
      ensures State() == old(State()).(theme := t)
    {
      theme := t;
    }

    method ToggleTheme()
      modifies this
      ensures State() == old(State()).(theme := Toggled(old(theme)))
    {
      theme := if theme == Light then Dark else Light;
    }

    method SetFilters(p: FilterPatch)
      modifies this
      ensures State() == old(State()).(filters := Merge(old(filters), p))
    {
      filters := Merge(filters, p);
    }

    method SetSelectedExchange(id: Option<string>)
      modifies this
      ensures State() == old(State()).(selectedExchange := id)
    {
      selectedExchange := id;
    }

    method SetIsPlaying(playing: bool)
      modifies this
      ensures State() == old(State()).(isPlaying := playing)
    {
      isPlaying := playing;
    }

    method SetTimeRange(range: TimeRange)
      modifies this
      ensures State() == old(State()).(timeRange := range)
    {
      timeRange := range;
    }

    method ResetFilters()
      modifies this
      ensures State() == old(State()).(filters := DefaultFilters())
    {
      filters := DefaultFilters();
    }
  }

  /** setFilters replaces exactly the supplied fields and keeps the others; a threshold is replaced whole. */
  lemma MergeReplacesSuppliedFields(f: FilterState, p: FilterPatch)
    ensures p.selectedExchanges.Some? ==> Merge(f, p).selectedExchanges == p.selectedExchanges.value
    ensures p.selectedExchanges.None? ==> Merge(f, p).selectedExchanges == f.selectedExchanges
    ensures p.selectedCloudProviders.Some? ==> Merge(f, p).selectedCloudProviders == p.selectedCloudProviders.value
    ensures p.selectedCloudProviders.None? ==> Merge(f, p).selectedCloudProviders == f.selectedCloudProviders
    ensures p.latencyThreshold.Some? ==> Merge(f, p).latencyThreshold == p.latencyThreshold.value
    ensures p.latencyThreshold.None? ==> Merge(f, p).latencyThreshold == f.latencyThreshold
    ensures p.showCloudRegions.Some? ==> Merge(f, p).showCloudRegions == p.showCloudRegions.value
    ensures p.showCloudRegions.None? ==> Merge(f, p).showCloudRegions == f.showCloudRegions
    ensures p.showConnections.Some? ==> Merge(f, p).showConnections == p.showConnections.value
    ensures p.showConnections.None? ==> Merge(f, p).showConnections == f.showConnections
  {
  }

  /** An empty patch changes nothing, and merging the same patch twice equals merging it once. */
  lemma MergeEmptyAndIdempotent(f: FilterState, p: FilterPatch)
    ensures Merge(f, EmptyPatch) == f
    ensures Merge(Merge(f, p), p) == Merge(f, p)
  {
  }

  /** Toggling the theme swaps light and dark; toggling twice restores it. */
  lemma ToggleThemeInvolution(t: Theme)
    ensures Toggled(t) != t
    ensures Toggled(Toggled(t)) == t
  {
  }

  /** The persisted projection depends on theme and filters and on nothing else. */
  lemma PartializeKeepsThemeAndFilters(a: AppState, b: AppState)
    ensures Partialize(a) == Partialize(b) <==> a.theme == b.theme && a.filters == b.filters
    ensures Partialize(a).theme == a.theme && Partialize(a).filters == a.filters
  {
  }

  /** What a fresh store holds and what resetFilters restores. */
  lemma InitialAndDefaults()
    ensures InitialState().theme == Dark && InitialState().filters == DefaultFilters()
    ensures InitialState().selectedExchange == None && !InitialState().isPlaying && InitialState().timeRange == OneDay
    ensures DefaultFilters() == FilterState([], [], Threshold(0, 500), true, true)
  {
  }
}
