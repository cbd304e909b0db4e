/** The rows the dashboard reads from its remote store: samples from the
    `traffic_data` table and timing records from the append-only
    `traffic_config` table, plus the small value types around them.
    Timestamps (`created_at`, `updated_at`) are milliseconds since the epoch. */
module Records {

  datatype Option<+T> = None | Some(value: T) {
    /** `x ?? default` */
    function GetOr(default: T): T {
      match this
      case Some(v) => v
      case None => default
    }
  }

  /** `LightColor` without its `null`, which is `Option<LightColor>.None`. */
  datatype LightColor = Red | Yellow | Green

  /** One row of `traffic_data` (`TrafficData`). Nullable columns are `Option`s;
      angles and distances are reals since they are only displayed. */
  datatype Sample = Sample(
    id: string,
    createdAt: int,
    eventType: string,
    congestion: bool,
    lightMain: Option<LightColor>,
    tiltDetected: Option<bool>,
    streetLightOn: Option<bool>,
    pitchDeg: Option<real>,
    rollDeg: Option<real>,
    baselineCm: Option<real>,
    thresholdCm: Option<real>,
    cfgGreenMs: Option<int>,
    cfgYellowMs: Option<int>,
    distanceCm: Option<real>)

  /** One row of `traffic_config` (`TrafficConfig`). */
  datatype TrafficConfig = TrafficConfig(id: string, normalGreenMs: int, yellowMs: int, updatedAt: int)

  /** The record `saveConfig` hands to the insert. */
  datatype ConfigDraft = ConfigDraft(normalGreenMs: int, yellowMs: int)

  /** The signed-in user, `{ username }`. */
  datatype User = User(username: string)

  /** JavaScript truthiness of a `boolean | null` column. */
  predicate Truthy(b: Option<bool>) {
    b == Some(true)
  }

  /** The rows of a query result: `data` is `null` when the query failed. */
  function Rows<T>(data: Option<seq<T>>): seq<T> {
    match data
    case Some(rows) => rows
    case None => []
  }

  function Min(a: int, b: int): int {
    if a <= b then a else b
  }

  /** What `.order("created_at", { ascending: false })` promises of a pull. */
  ghost predicate NewestFirst(s: seq<Sample>) {
    forall i, j :: 0 <= i < j < |s| ==> s[i].createdAt >= s[j].createdAt
  }

  /** What `.order("updated_at", { ascending: false })` promises of a pull. */
  ghost predicate ConfigsNewestFirst(s: seq<TrafficConfig>) {
    forall i, j :: 0 <= i < j < |s| ==> s[i].updatedAt >= s[j].updatedAt
  }
}
