# Latency Topology Visualizer — a Dafny model of its core

The Latency Topology Visualizer draws cryptocurrency exchange servers on a 3D globe. It joins
pairs of them by latency arcs and charts the history of one pair. Its logic sits in seven
places, and this project models each one:

- the latency classification and colour bands (`lib/utils.ts`), in module `Utils`;
- the real-time route, which makes one synthetic sample per unordered pair of registry servers
  (`app/api/latency/route.ts`), in module `Snapshot`;
- the historical route, which validates a `from`/`to`/`timeRange` query and makes a synthetic
  time series (`app/api/latency/historical/route.ts`), in module `Historical`;
- the application store, with its setters, its shallow filter merge and its persisted projection
  (`store/useAppStore.ts`), in module `Store` (class `AppStore`);
- the globe's filter engine: visible exchanges, visible connections, cloud regions and the
  marker click (`components/WorldMap.tsx`), in module `WorldMap`;
- the control panel's list edits: the selection toggles, the name-group checkboxes, the
  de-duplicated name and provider lists, the search, and the sliders
  (`components/ControlPanel.tsx`), in module `ControlPanel`;
- the chart's statistics (`components/LatencyChart.tsx`), in module `LatencyChart`.

`Types` holds the records of `types/index.ts`. `Seqs` holds the list operations the components
use: `filter`, and `Array.from(new Set(..))` as `Dedup`. `Registry` holds the `find`-by-id lookup.

The two routes are imperative in the source. `Snapshot.GenerateLatencyData` and
`Historical.Get` are therefore methods with loops. Each is proved equal to a specification
function (`Snapshot.Snapshot`, `Historical.Handle`), and the lemmas state what the routes promise
about those functions. The store mutates its state, so it is a class whose setters each state the
whole new state. The components compute values from their inputs, so they are functions with
lemmas.

Inputs the code reads from its environment become parameters:
- `dist(a, b)` is the great-circle distance `calculateDistance` would return;
- `draw(k)` is the value of the k-th `Math.random()` call;
- `wave(i, points)` is the sine term `0.2·sin(4πi/points)` of the historical route;
- `now` is `Date.now()`.

Numbers are Dafny `real` and `int`. `Math.round(x)` is `⌊x + 0.5⌋`, which is JavaScript's
rounding for every real, negative halves included.

Where the code behaves otherwise than its names and comments suggest, the model follows the code:
- The store does not keep `min <= max` for the latency window. Each slider sets one bound and
  keeps the other, so an inverted window can be reached, and it then shows no connection.
- The real-time route floors the latency at 10 and then rounds. The historical route rounds and
  then floors. The real-time status is taken from the unrounded value, so it can disagree with
  the band of the stored integer.
- `30d` and every unknown token give 720 hours. The point count is capped at 100, so the series
  covers the last 100 hours at hourly spacing, not 30 days. `7d` gives the same 101 points.
- `1h` gives `points = 1`, so the series has 2 points one minute apart.
- `!from` also rejects the empty string, and an empty `timeRange` means `24h`.
- Cloud providers are the enumeration `AWS | GCP | Azure | Other`. The source types the selected
  provider list as `string[]`.

## Model

| member | source | states |
|---|---|---|
| Utils.Round | app/api/latency/route.ts:39 | Math.round: the result is within half a unit of x, with halves rounding up |
| Utils.StatusBands | lib/utils.ts:38-45 | `GetLatencyStatus`: good iff latency < 50, warning iff 50 <= latency < 150, critical iff latency >= 150 |
| Utils.StatusBoundaries | lib/utils.ts:41-45 | the boundary values: 49 and 49.999 are good, 50 and 149 warning, 150 critical |
| Utils.NegativeIsGood | lib/utils.ts:32-45 | the chains have no lower guard: a negative latency is good and green |
| Utils.StatusMonotone | lib/utils.ts:41-45 | a larger latency never gets a less severe status |
| Utils.ColorMatchesStatus | lib/utils.ts:29-45 | `GetLatencyColor`: the colour chain and the status chain partition the line alike: the colour is the band's token, green iff good, amber iff warning, red iff critical |
| Registry.FindById | app/api/latency/historical/route.ts:25-26 | `find` by id succeeds iff some server has that id; what it returns has that id and is in the registry, and it is the only such record when ids are unique |
| Registry.FindByIdFirst | app/api/latency/historical/route.ts:25-26 | what `find` returns is the first record carrying the id |
| Seqs.Filter | components/WorldMap.tsx:134-142 | `filter`: an order-preserving subsequence whose elements all pass; every passing element is kept with all its copies |
| Seqs.Dedup | components/ControlPanel.tsx:31-34 | `Array.from(new Set(xs))`: duplicate-free, and holds exactly the elements of xs |
| Seqs.DedupFirstOccurrenceOrder | components/ControlPanel.tsx:31-40 | the distinct elements are listed in the order of their first occurrence |
| Seqs.DedupSubsequence | components/ControlPanel.tsx:31-40 | the de-duplicated list is a subsequence of the input |
| Seqs.DedupPrefix | components/ControlPanel.tsx:124-127 | de-duplicating a ++ b begins with the de-duplicated a |
| Seqs.DedupNoDup | components/ControlPanel.tsx:124-127 | a list without duplicates is unchanged by the Set round trip |
| Seqs.FilterAllPass | components/WorldMap.tsx:134-142 | filtering with a predicate every element passes returns the list itself |
| Seqs.FilterIdempotent | components/WorldMap.tsx:134-142 | filtering twice with the same predicate equals filtering once |
| Snapshot.BaseLatency | app/api/latency/route.ts:30 | 20 ms plus 1 ms per 100 km: at least 20 ms for any non-negative distance |
| Snapshot.BaseLatencyMonotone | app/api/latency/route.ts:30 | the base latency is 20 ms at distance 0 and grows with distance |
| Snapshot.NoisyLatency | app/api/latency/route.ts:30-34 | the value before rounding is at least 10, and for a draw in [0, 1) lies in [max(10, 0.8·base), max(10, 1.2·base)] |
| Snapshot.GenerateLatencyData | app/api/latency/route.ts:14-47 | the nested loops build exactly `Snapshot`: sample k belongs to the k-th pair i < j and consumes the k-th random draw |
| Snapshot.GenerateRow | app/api/latency/route.ts:19-43 | one pass of the inner loop appends the samples of pairs (i, i+1) … (i, N-1), continuing the draw count |
| Snapshot.PairsCount | app/api/latency/route.ts:18-19 | N servers give exactly N(N-1)/2 samples |
| Snapshot.PairsSorted | app/api/latency/route.ts:18-19 | the pairs come in strictly increasing lexicographic order, so none repeats |
| Snapshot.PairsComplete | app/api/latency/route.ts:18-19 | every pair of indices a < b < N is visited |
| Snapshot.SnapshotShape | app/api/latency/route.ts:14-47 | `Snapshot`: N(N-1)/2 samples, each stamped `now`, each latency at least 10 |
| Snapshot.SnapshotEndpoints | app/api/latency/route.ts:20-38 | sample k joins the servers of the k-th pair, the earlier registry entry as `from` |
| Snapshot.SnapshotPairsUnique | app/api/latency/route.ts:18-21 | with unique ids, no sample joins a server to itself and no unordered pair is sampled twice, in either orientation |
| Snapshot.SnapshotCoversPair | app/api/latency/route.ts:18-21 | every unordered pair of registry servers has a sample |
| Snapshot.NoiseBounds | app/api/latency/route.ts:33-34 | the ±20 % variation keeps the noisy value in [0.8·base, 1.2·base) for a draw in [0, 1) |
| Snapshot.SampleLatencyBounds | app/api/latency/route.ts:30-42 | `MakeSample`: the stored latency is at least 10 and within half a millisecond of [max(10, 0.8·base), max(10, 1.2·base)] |
| Snapshot.StatusFromUnroundedLatency | app/api/latency/route.ts:34-41 | the status comes from the unrounded value: 49.6 ms is stored as 50 yet classified good |
| Historical.Get | app/api/latency/historical/route.ts:11-73 | the handler returns exactly `Handle`: the missing-parameter 400, then the unknown-id 400, then the series with both server names |
| Historical.GenerateSeries | app/api/latency/historical/route.ts:52-66 | the countdown loop pushes exactly `Series`: entry k has index points-k, its sine term and the k-th draw |
| Historical.RangeTable | app/api/latency/historical/route.ts:46-48 | 1h gives points = 1 (2 entries) at 1-minute spacing, 24h gives 24 hourly points, 7d and every other token 100 hourly points; never more than 100 |
| Historical.ResolveRange | app/api/latency/historical/route.ts:46-48 | points = min(hours, 100), between 1 and 100; the spacing is positive, and one minute exactly for 1h |
| Historical.DefaultRange | app/api/latency/historical/route.ts:16 | `RangeToken`: an absent or empty timeRange means 24h, and any other token is used as given |
| Historical.SeriesShape | app/api/latency/historical/route.ts:52-66 | `Series` and `Point`: points+1 entries with the request's ids and latencies of at least 10; timestamps now-(points-k)·interval, rising by `interval`, the last equal to now |
| Historical.MissingRejected | app/api/latency/historical/route.ts:18-23 | `Missing` and `Handle`: an absent or empty from or to gives the 400 "Missing from or to parameters" |
| Historical.UnknownRejected | app/api/latency/historical/route.ts:25-33 | an id no server carries gives the 400 "Invalid exchange IDs" |
| Historical.AcceptedIffValid | app/api/latency/historical/route.ts:18-33 | `Handle`: the route answers with data iff both ids are present, non-empty and known |
| Historical.AcceptedSeries | app/api/latency/historical/route.ts:35-73 | an accepted request gives at most 101 points ending at now, in ascending time, with the request's ids, latencies of at least 10, and the names of servers with those ids |
| Historical.SameEndpointsAccepted | app/api/latency/historical/route.ts:18-33 | equal from and to ids are not rejected |
| Historical.RawLatencyBounds | app/api/latency/historical/route.ts:56-58 | with the sine term in [-0.2, 0.2] and a draw in [0, 1), the value before rounding lies in [0.65·base, 1.35·base) |
| Historical.SelectableRangePoints | components/ControlPanel.tsx:230-233 | the four selectable ranges give 2, 25, 101 and 101 points |
| Store.AppStore.constructor | store/useAppStore.ts:33-38 | a new store is dark, has the default filters, no selection, is paused and shows 24h |
| Store.AppStore.SetTheme | store/useAppStore.ts:40 | sets the theme and changes nothing else |
| Store.AppStore.ToggleTheme | store/useAppStore.ts:41-42 | light becomes dark and anything else light; nothing else changes |
| Store.AppStore.SetFilters | store/useAppStore.ts:43-46 | the filters become the shallow merge of the old filters and the patch; nothing else changes |
| Store.AppStore.SetSelectedExchange | store/useAppStore.ts:47 | sets the selection (null included) and changes nothing else |
| Store.AppStore.SetIsPlaying | store/useAppStore.ts:48 | sets the play flag and changes nothing else |
| Store.AppStore.SetTimeRange | store/useAppStore.ts:49 | sets the time range and changes nothing else |
| Store.AppStore.ResetFilters | store/useAppStore.ts:50 | restores the default filters and changes nothing else |
| Store.MergeReplacesSuppliedFields | store/useAppStore.ts:43-46 | `Merge`: each supplied field replaces the old one (a threshold as a whole); each omitted field is kept |
| Store.MergeEmptyAndIdempotent | store/useAppStore.ts:43-46 | an empty patch changes nothing; applying a patch twice equals applying it once |
| Store.ToggleThemeInvolution | store/useAppStore.ts:41-42 | toggling always changes the theme, and toggling twice restores it |
| Store.PartializeKeepsThemeAndFilters | store/useAppStore.ts:54 | `Partialize`: two states persist alike iff they agree on theme and filters |
| Store.InitialAndDefaults | store/useAppStore.ts:20-38 | `DefaultFilters` and `InitialState`: no selections, window [0, 500], both overlays shown; dark, nothing selected, paused, 24h |
| WorldMap.VisibleConnections | components/WorldMap.tsx:146-162 | nothing when connections are hidden; otherwise one connection per kept sample, in order, with its latency and both endpoint records taken from the registry |
| WorldMap.VisibleExchangesSpec | components/WorldMap.tsx:133-143 | `VisibleExchanges` and `ExchangePasses`: an order-preserving sublist of the registry; a server is visible iff each non-empty selection list contains its id or provider |
| WorldMap.NoSelectionShowsAll | components/WorldMap.tsx:133-143 | with both selection lists empty every server is visible |
| WorldMap.VisibleExchangesIdempotent | components/WorldMap.tsx:133-143 | filtering the visible list again changes nothing |
| WorldMap.KeptSamplesSpec | components/WorldMap.tsx:149-156 | `KeptSamples` and `ConnectionPasses`: a sample is kept iff both endpoints are visible and min <= latency <= max; kept samples keep their order |
| WorldMap.InvertedWindowKeepsNothing | components/WorldMap.tsx:153-155 | a window with min > max draws no connection |
| WorldMap.CloudRegionsShownIff | components/WorldMap.tsx:201-203 | `VisibleCloudRegions`: all regions iff showCloudRegions, none otherwise; the provider filter is ignored |
| WorldMap.ClickMarkerSpec | components/WorldMap.tsx:196 | `ClickMarker`: clicking the selected marker clears the selection; clicking any other selects it |
| ControlPanel.ToggleSpec | components/ControlPanel.tsx:54-70 | `Toggle`: toggling a present item removes every copy and keeps every other element, with all its copies, in order; an absent item is appended |
| ControlPanel.ToggleTwiceRestores | components/ControlPanel.tsx:54-70 | toggling an absent item twice restores the list |
| ControlPanel.TogglePatchesTouchOneList | components/ControlPanel.tsx:54-70 | `ToggleExchange` and `ToggleCloudProvider`: each handler's patch changes its own selection list and no other filter |
| ControlPanel.UniqueExchangesSpec | components/ControlPanel.tsx:31-34 | `UniqueExchanges`: the name list is duplicate-free, holds every server name and nothing else, in first-occurrence order |
| ControlPanel.UniqueProvidersSpec | components/ControlPanel.tsx:37-40 | `UniqueProviders`: the provider list is duplicate-free, holds every provider in use and nothing else, in first-occurrence order |
| ControlPanel.GroupIdsSpec | components/ControlPanel.tsx:107 | `GroupIds`: a group's ids are exactly the ids of the servers with that name, in registry order |
| ControlPanel.AllSelectedImpliesSome | components/ControlPanel.tsx:108-109 | for a non-empty group, all selected implies some selected; an empty group is "all" but not "some" |
| ControlPanel.IndeterminateNeedsTwo | components/ControlPanel.tsx:109-117 | an indeterminate checkbox needs a group of at least two ids |
| ControlPanel.GroupDeselect | components/ControlPanel.tsx:119-123 | `GroupSelection`: a fully selected group is removed; no group id remains, and every other id remains with all its copies, in order |
| ControlPanel.GroupSelect | components/ControlPanel.tsx:124-127 | `GroupSelection`: otherwise the group is added; the result is duplicate-free and holds exactly the old ids and the group's ids |
| ControlPanel.GroupSelectOrder | components/ControlPanel.tsx:124-127 | the added selection is ordered by first occurrence, and a duplicate-free old selection stays at its head unchanged |
| ControlPanel.GroupChangeTouchesSelection | components/ControlPanel.tsx:119-129 | `GroupChange`: the patch changes only the exchange selection; afterwards a fully selected group has no id selected, and any other group has all its ids selected |
| ControlPanel.SlidersSetOneBound | components/ControlPanel.tsx:165-193 | `MinSlider` and `MaxSlider`: each slider replaces one bound and keeps the other, so min > max can be reached |
| ControlPanel.LowerSpec | components/ControlPanel.tsx:45-50 | `Lower`: lower-casing keeps the length, maps exactly A–Z to a–z, and is idempotent |
| ControlPanel.IncludesAt | components/ControlPanel.tsx:48-50 | `Includes`: `includes` holds whenever the query occurs at some offset |
| ControlPanel.Offset | components/ControlPanel.tsx:48-50 | conversely, an included query occurs at some offset |
| ControlPanel.IncludesEmptyAndSelf | components/ControlPanel.tsx:48-50 | every string includes the empty string and itself |
| ControlPanel.SearchSpec | components/ControlPanel.tsx:43-52 | `FilteredExchanges`: an empty query lists every server; any other lists, in order, exactly those whose lower-cased name, city or country includes the lower-cased query. The source computes this list but never renders it: the checkbox list at line 106 maps `uniqueExchanges` |
| ControlPanel.EmptyQueryShortcutAgrees | components/ControlPanel.tsx:44-50 | the empty-query shortcut agrees with what the filter would have returned |
| LatencyChart.Min | components/LatencyChart.tsx:138 | `Math.min` of a non-empty list is an element and a lower bound |
| LatencyChart.Max | components/LatencyChart.tsx:144 | `Math.max` of a non-empty list is an element and an upper bound |
| LatencyChart.SumBounds | components/LatencyChart.tsx:46 | `Sum`: the reduce sum lies between n·lo and n·hi for element bounds lo and hi |
| LatencyChart.AverageWithinMinMax | components/LatencyChart.tsx:44-48 | `AverageLatency`: for non-empty data, min <= rounded average <= max |
| LatencyChart.ConstantSeriesAverage | components/LatencyChart.tsx:44-48 | identical latencies average to that latency |
| LatencyChart.ViewSpec | components/LatencyChart.tsx:34-62 | `View` and `ChartData`: no data renders only the notice, with average 0; otherwise the rows copy timestamp and latency in order, the colour is the average's band colour, min and max are attained bounds, and the count is the data length |

## Left out

- `latLonToVector3` and `calculateDistance` (`lib/utils.ts`): floating-point trigonometry. The distance is the parameter `dist`.
- The sine term of the historical series: it is the parameter `wave`. Only its range [-0.2, 0.2] is used, as a precondition of `Historical.RawLatencyBounds`.
- `Math.random` and `Date.now`: they are the parameters `draw` and `now`. `draw` is not constrained; the bounds lemmas assume a draw in [0, 1).
- `formatLatency` and `cn` (`lib/utils.ts`): string formatting and class-name joining.
- `NextResponse.json`, the `success` flag, the status codes as numbers, and the `try`/`catch` 500 path of both routes. The `catch` guards only runtime failures, which the model has none of.
- The real-time route's `GET` wrapper: it only packs `generateLatencyData()` and a timestamp into JSON.
- `persist` and `localStorage`: the model keeps `Partialize`, the projection that is stored, but no storage.
- The store's subscription mechanism, React hooks, `useMemo` caching, and all rendering: Three.js markers and arcs, Recharts, date-fns formatting of `time` and `date`, and the theme colours of the chart.
- Numbers: the source computes with IEEE-754 doubles, the model with exact reals. A value within rounding error of 50, of 150 or of a .5 rounding tie may classify or round differently in the source. The 49.6 of `Snapshot.StatusFromUnroundedLatency`, for one, has no exact double.
- The search result `filteredExchanges` is modelled as written, but the source never reads it; the exchange checkboxes are drawn from `uniqueExchanges`, so the search box has no visible effect.
- `ControlPanel.LowerSpec`: `toLowerCase` is modelled on ASCII letters only, because Unicode case mapping has no counterpart here.
- `ControlPanel.MinSlider`, `ControlPanel.MaxSlider`: `parseInt` of the slider value is not modelled. The value arrives as an integer, because a range input between 0 and 500 yields one.
- The "Exchanges (All / n)" label, the play/pause and time-range buttons' styling, and the checkbox `checked` flags: display only. The buttons' actions are the store setters.
- `app/page.tsx`, `components/ThemeProvider.tsx`, `hooks/*`, and `next.config.ts`: layout, DOM and fetching glue. `lib/data` (the server and region tables) is not part of this model; the registry is a parameter.
