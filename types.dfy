/** Record types shared by the latency simulator, the filter engine and the state store. */
module Types {

  datatype Option<T> = None | Some(value: T)

  /** The cloud-provider tag of an exchange server or a cloud region. */
  datatype CloudProvider = AWS | GCP | Azure | Other

  /** A static registry record: one exchange data centre. */
  datatype ExchangeServer = ExchangeServer(
    id: string,
    name: string,
    latitude: real,
    longitude: real,
    region: string,
    cloudProvider: CloudProvider,
    country: string,
    city: string)

  /** A static registry record: one cloud region shown on the globe. */
  datatype CloudRegion = CloudRegion(
    id: string,
    name: string,
    provider: CloudProvider,
    latitude: real,
    longitude: real,
    region: string)

  /** The three severity bands of a latency value. */
  datatype LatencyStatus = Good | Warning | Critical

  /** One snapshot sample between two exchanges; `latency` is whole milliseconds. */
  datatype LatencyData = LatencyData(
    from: string,
    to: string,
    latency: int,
    timestamp: int,
    status: LatencyStatus)

  /** One point of a historical series. */
  datatype HistoricalLatencyData = HistoricalLatencyData(
    timestamp: int,
    latency: int,
    from: string,
    to: string)

  datatype Threshold = Threshold(min: int, max: int)

  /** The user's filter choices; an empty selection list means "all". */
  datatype FilterState = FilterState(
    selectedExchanges: seq<string>,
    selectedCloudProviders: seq<CloudProvider>,
    latencyThreshold: Threshold,
    showCloudRegions: bool,
    showConnections: bool)

  datatype Theme = Light | Dark

  /** The time-range selector of the application state. */
  datatype TimeRange = OneHour | OneDay | OneWeek | OneMonth

  datatype AppState = AppState(
    theme: Theme,
    filters: FilterState,
    selectedExchange: Option<string>,
    isPlaying: bool,
    timeRange: TimeRange)
}
