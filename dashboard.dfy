/** The `Dashboard` component's state cells and the handlers that update
    them. Each asynchronous handler is one atomic step; the rows the remote
    store would return, the insert's error flag and the clock are
    parameters. */
module DashboardState {
  import opened Records
  import opened AlertLog
  import opened Feed
  import opened Signals
  import opened Auth

  /** Initial slider values (`useState(10000)`, `useState(3000)`). */
  const DefaultGreenMs: int := 10000
  const DefaultYellowMs: int := 3000

  class Dashboard {
    var row: Option<Sample>
    var alerts: seq<Sample>
    var cfg: Option<TrafficConfig>
    var greenMs: int
    var yellowMs: int
    var saving: bool
    var savedAt: Option<int>
    var user: Option<User>
    /** The effect's `alive` flag, cleared by the cleanup function. */
    var alive: bool
    /** Every `traffic_data` delivery since mount, in arrival order. */
    ghost var deliveries: seq<Delivery>

    /** `row` and `alerts` are exactly what the deliveries so far make of
        them, and the log is bounded and holds only log-worthy rows. */
    ghost predicate Valid()
      reads this
    {
      row == RowAfter(None, deliveries) &&
      alerts == LogAfter([], deliveries) &&
      LogOk(alerts)
    }

    /** Mounting: the state cells' initial values, the user restored from the
        session store (`storedUser`), and the effect has set `alive`. */
    constructor (storedUser: Option<User>)
      ensures Valid() && deliveries == []
      ensures row == None && alerts == [] && cfg == None
      ensures greenMs == DefaultGreenMs && yellowMs == DefaultYellowMs
      ensures !saving && savedAt == None
      ensures user == storedUser && alive
    {
      row, alerts, cfg := None, [], None;
      greenMs, yellowMs := DefaultGreenMs, DefaultYellowMs;
      saving, savedAt := false, None;
      user, alive := storedUser, true;
      deliveries := [];
    }

    /** `fetchLatest`: a non-empty pull overwrites `row` with its first row;
        an empty or failed pull leaves it. `alive` is not consulted. */
    method FetchLatest(data: Option<seq<Sample>>)
      requires Valid()
      modifies this`row, this`deliveries
      ensures Valid()
      ensures deliveries == old(deliveries) + [LatestPulled(data)]
      ensures row == if |Rows(data)| > 0 then Some(Rows(data)[0]) else old(row)
    {
      var d := LatestPulled(data);
      RowAfterSnoc(None, deliveries, d);
      LogAfterSnoc([], deliveries, d);
      var rows := Rows(data);
      if |rows| > 0 {
        row := Some(rows[0]);
      }
      deliveries := deliveries + [d];
    }

    /** `fetchAlerts`: a non-empty pull replaces the whole log with its
        first 50 log-worthy rows; an empty or failed pull leaves it. */
    method FetchAlerts(data: Option<seq<Sample>>)
      requires Valid()
      modifies this`alerts, this`deliveries
      ensures Valid()
      ensures deliveries == old(deliveries) + [AlertsPulled(data)]
      ensures alerts == if |Rows(data)| > 0 then PullSnapshot(Rows(data)) else old(alerts)
    {
      var d := AlertsPulled(data);
      RowAfterSnoc(None, deliveries, d);
      LogAfterSnoc([], deliveries, d);
      var rows := Rows(data);
      if |rows| > 0 {
        var filtered := Filter(rows);
        alerts := Truncate(filtered, MaxAlerts);
      }
      deliveries := deliveries + [d];
    }

    /** The `traffic_data` INSERT callback: while alive, `row` becomes the
        pushed row and a log-worthy row is prepended to the log (cut to 50);
        after teardown no state changes. */
    method OnInsert(r: Sample)
      requires Valid()
      modifies this`row, this`alerts, this`deliveries
      ensures Valid()
      ensures deliveries == old(deliveries) + [Inserted(r, alive)]
      ensures old(alive) ==> row == Some(r) && alerts == AfterPush(old(alerts), r)
      ensures !old(alive) ==> row == old(row) && alerts == old(alerts)
    {
      var d := Inserted(r, alive);
      RowAfterSnoc(None, deliveries, d);
      LogAfterSnoc([], deliveries, d);
      deliveries := deliveries + [d];
      if !alive {
        return;
      }
      row := Some(r);
      if PushSelects(r) {
        alerts := Truncate([r] + alerts, MaxAlerts);
      }
    }

    /** `fetchConfig`: a non-empty pull makes its first row the active
        configuration and resets both sliders to it, discarding unsaved
        edits; an empty or failed pull changes nothing. */
    method FetchConfig(data: Option<seq<TrafficConfig>>)
      requires Valid()
      modifies this`cfg, this`greenMs, this`yellowMs
      ensures Valid()
      ensures |Rows(data)| > 0 ==>
        var c := Rows(data)[0];
        cfg == Some(c) && greenMs == c.normalGreenMs && yellowMs == c.yellowMs
      ensures |Rows(data)| == 0 ==>
        cfg == old(cfg) && greenMs == old(greenMs) && yellowMs == old(yellowMs)
    {
      var rows := Rows(data);
      if |rows| > 0 {
        var c := rows[0];
        cfg := Some(c);
        greenMs := c.normalGreenMs;
        yellowMs := c.yellowMs;
      }
    }

    /** The `traffic_config` change callback: re-runs `fetchConfig` while
        alive; after teardown no state changes. */
    method OnConfigChange(data: Option<seq<TrafficConfig>>)
      requires Valid()
      modifies this`cfg, this`greenMs, this`yellowMs
      ensures Valid()
      ensures old(alive) && |Rows(data)| > 0 ==>
        var c := Rows(data)[0];
        cfg == Some(c) && greenMs == c.normalGreenMs && yellowMs == c.yellowMs
      ensures !old(alive) || |Rows(data)| == 0 ==>
        cfg == old(cfg) && greenMs == old(greenMs) && yellowMs == old(yellowMs)
    {
      if !alive {
        return;
      }
      FetchConfig(data);
    }

    /** The green slider's `onChange`: the parsed value, with no check of its
        own (the range input's min/max/step are the only bounds). */
    method SetGreenMs(v: int)
      requires Valid()
      modifies this`greenMs
      ensures Valid()
      ensures greenMs == v
    {
      greenMs := v;
    }

    /** The yellow slider's `onChange`. */
    method SetYellowMs(v: int)
      requires Valid()
      modifies this`yellowMs
      ensures Valid()
      ensures yellowMs == v
    {
      yellowMs := v;
    }

    /** First half of `saveConfig`: raise `saving` and hand the current
        slider values to the insert. */
    method BeginSave() returns (draft: ConfigDraft)
      requires Valid()
      modifies this`saving
      ensures Valid()
      ensures saving
      ensures draft == ConfigDraft(greenMs, yellowMs)
    {
      saving := true;
      draft := ConfigDraft(greenMs, yellowMs);
    }

    /** Second half of `saveConfig`, when the insert returns: lower `saving`
        and stamp `savedAt` with `now` only if the insert reported no error.
        The sliders are left as they are. */
    method FinishSave(insertOk: bool, now: int)
      requires Valid()
      modifies this`saving, this`savedAt
      ensures Valid()
      ensures !saving
      ensures savedAt == if insertOk then Some(now) else old(savedAt)
      ensures greenMs == old(greenMs) && yellowMs == old(yellowMs)
    {
      saving := false;
      if insertOk {
        savedAt := Some(now);
      }
    }

    /** `saveConfig` with nothing arriving while the insert is in flight. */
    method SaveConfig(insertOk: bool, now: int) returns (draft: ConfigDraft)
      requires Valid()
      modifies this`saving, this`savedAt
      ensures Valid()
      ensures draft == ConfigDraft(greenMs, yellowMs)
      ensures !saving
      ensures savedAt == if insertOk then Some(now) else old(savedAt)
      ensures greenMs == old(greenMs) && yellowMs == old(yellowMs)
    {
      draft := BeginSave();
      FinishSave(insertOk, now);
    }

    /** The effect's cleanup: clear `alive` (timers and channels are released
        outside this model); nothing else changes. */
    method Teardown()
      requires Valid()
      modifies this`alive
      ensures Valid()
      ensures !alive
    {
      alive := false;
    }

    /** `login`: signs in and returns true exactly for the fixed credential
        pair; otherwise returns false and leaves `user` alone. */
    method Login(username: string, password: string) returns (ok: bool)
      requires Valid()
      modifies this`user
      ensures Valid()
      ensures ok <==> ValidCredentials(username, password)
      ensures user == if ok then Some(User(username)) else old(user)
    {
      if username == "adm1n" && password == "1234" {
        user := Some(User(username));
        return true;
      }
      return false;
    }

    /** `logout` */
    method Logout()
      requires Valid()
      modifies this`user
      ensures Valid()
      ensures user == None
    {
      user := None;
    }

    /** The login form's submit: `login` is called with the trimmed username
        only when both fields are filled in. */
    method SubmitLogin(username: string, password: string) returns (outcome: LoginOutcome)
      requires Valid()
      modifies this`user
      ensures Valid()
      ensures outcome == SubmitOutcome(username, password)
      ensures user == if outcome == SignedIn then Some(User("adm1n")) else old(user)
    {
      var name := Trim(username);
      if name == [] || password == [] {
        return MissingFields;
      }
      var ok := Login(name, password);
      outcome := if ok then SignedIn else InvalidCredentials;
    }

    /** The "Live" / "Reconnecting" badge, recomputed from the clock at every
        render (see `RenderHealth` for the memoised form the component has). */
    method Health(now: int) returns (healthy: bool)
      ensures healthy == ConnectionHealthy(row, now)
      ensures row.None? ==> !healthy
      ensures row.Some? && now >= row.value.createdAt + StaleAfterMs ==> !healthy
    {
      healthy := ConnectionHealthy(row, now);
    }
  }

  /** The config pull is ordered newest first by the store, so the row
      `fetchConfig` takes is the latest write among those returned. */
  lemma PulledConfigIsNewest(rows: seq<TrafficConfig>)
    requires ConfigsNewestFirst(rows) && |rows| > 0
    ensures forall c :: c in rows ==> rows[0].updatedAt >= c.updatedAt
  {
  }

  /** The current sample is the payload of the latest delivery that wrote
      it, whichever channel it came by; the log stays bounded. */
  lemma CurrentSampleIsLastWrite(d: Dashboard)
    requires d.Valid()
    ensures d.row == LastRowWrite(d.deliveries)
    ensures |d.alerts| <= MaxAlerts
  {
    LastWriterWins(None, d.deliveries);
  }

  /** A verified scenario: a pulled congestion event, then a pushed routine
      update one second later. The current sample is the update, the light
      defaults to red, and the log still shows only the congestion event. */
  method EndToEnd(t: int)
  {
    var dash := new Dashboard(Some(User("adm1n")));
    var s1 := Sample("1", t, "congestion", true, Some(Red), Some(false),
                     None, None, None, None, None, None, None, None);
    var s2 := Sample("2", t + 1000, "update", false, None, Some(false),
                     None, None, None, None, None, None, None, None);
    dash.FetchLatest(Some([s1]));
    dash.FetchAlerts(Some([s1]));
    assert [s1][1..] == [];
    assert dash.alerts == [s1];
    dash.OnInsert(s2);
    assert dash.row == Some(s2);
    assert dash.alerts == [s1];
    assert LightShown(dash.row) == Red;
    var live := dash.Health(t + 1500);
    assert live;
    dash.Teardown();
    dash.OnInsert(s1);
    assert dash.row == Some(s2);
  }
}
