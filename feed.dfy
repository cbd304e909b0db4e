/** The two update channels of the `traffic_data` stream, and what a whole
    history of their deliveries makes of the current sample (`row`) and of
    the alerts log. Every handler runs to completion, so a history is a
    sequence of atomic deliveries in arrival order. */
module Feed {
  import opened Records
  import opened AlertLog

  datatype Delivery =
    | LatestPulled(data: Option<seq<Sample>>)   // `fetchLatest`'s response
    | AlertsPulled(data: Option<seq<Sample>>)   // `fetchAlerts`'s response
    | Inserted(r: Sample, alive: bool)          // the INSERT callback, with the liveness flag it saw

  /** The sample a delivery writes into `row`, if it writes one: a pull's
      first row when the pull is non-empty (pulls never look at `alive`),
      and a pushed row while the view is alive. */
  function RowWrite(d: Delivery): Option<Sample> {
    match d
    case LatestPulled(data) => if |Rows(data)| > 0 then Some(Rows(data)[0]) else None
    case AlertsPulled(_) => None
    case Inserted(r, alive) => if alive then Some(r) else None
  }

  /** `row` after one delivery: overwritten by arrival, never compared by timestamp. */
  function NextRow(row: Option<Sample>, d: Delivery): Option<Sample> {
    match RowWrite(d)
    case Some(s) => Some(s)
    case None => row
  }

  function RowAfter(row: Option<Sample>, h: seq<Delivery>): Option<Sample>
    decreases |h|
  {
    if h == [] then row else RowAfter(NextRow(row, h[0]), h[1..])
  }

  /** The payload of the most recent delivery that writes `row`, found by
      scanning the history from its end. */
  function LastRowWrite(h: seq<Delivery>): Option<Sample>
    decreases |h|
  {
    if h == [] then None
    else match RowWrite(h[|h| - 1])
      case Some(s) => Some(s)
      case None => LastRowWrite(h[..|h| - 1])
  }

  lemma {:induction false} RowAfterSnoc(row: Option<Sample>, h: seq<Delivery>, d: Delivery)
    ensures RowAfter(row, h + [d]) == NextRow(RowAfter(row, h), d)
    decreases |h|
  {
    if h == [] {
      assert h + [d] == [d];
      assert [d][1..] == [];
    } else {
      assert (h + [d])[0] == h[0];
      assert (h + [d])[1..] == h[1..] + [d];
      RowAfterSnoc(NextRow(row, h[0]), h[1..], d);
    }
  }

  /** Last writer by arrival wins: whatever the interleaving of pulls and
      pushes, `row` holds the payload of the last delivery that wrote it, or
      its starting value when none did. */
  lemma {:induction false} LastWriterWins(row: Option<Sample>, h: seq<Delivery>)
    ensures RowAfter(row, h) == if LastRowWrite(h).Some? then LastRowWrite(h) else row
    decreases |h|
  {
    if h != [] {
      var p, d := h[..|h| - 1], h[|h| - 1];
      assert h == p + [d];
      RowAfterSnoc(row, p, d);
      LastWriterWins(row, p);
    }
  }

  /** The log after one delivery: a non-empty alerts pull replaces it with
      its snapshot, a live push prepends, everything else leaves it. */
  function NextLog(log: seq<Sample>, d: Delivery): (res: seq<Sample>)
    ensures LogOk(log) ==> LogOk(res)
  {
    match d
    case LatestPulled(_) => log
    case AlertsPulled(data) => if |Rows(data)| > 0 then PullSnapshot(Rows(data)) else log
    case Inserted(r, alive) => if alive then AfterPush(log, r) else log
  }

  function LogAfter(log: seq<Sample>, h: seq<Delivery>): seq<Sample>
    decreases |h|
  {
    if h == [] then log else LogAfter(NextLog(log, h[0]), h[1..])
  }

  lemma {:induction false} LogAfterAppend(log: seq<Sample>, h1: seq<Delivery>, h2: seq<Delivery>)
    ensures LogAfter(log, h1 + h2) == LogAfter(LogAfter(log, h1), h2)
    decreases |h1|
  {
    if h1 == [] {
      assert h1 + h2 == h2;
    } else {
      assert (h1 + h2)[0] == h1[0];
      assert (h1 + h2)[1..] == h1[1..] + h2;
      LogAfterAppend(NextLog(log, h1[0]), h1[1..], h2);
    }
  }

  lemma LogAfterSnoc(log: seq<Sample>, h: seq<Delivery>, d: Delivery)
    ensures LogAfter(log, h + [d]) == NextLog(LogAfter(log, h), d)
  {
    LogAfterAppend(log, h, [d]);
    assert [d][1..] == [];
  }

  /** Whatever arrives, the log stays within 50 entries and holds only
      log-worthy rows. */
  lemma {:induction false} LogAfterOk(log: seq<Sample>, h: seq<Delivery>)
    requires LogOk(log)
    ensures LogOk(LogAfter(log, h))
    decreases |h|
  {
    if h != [] {
      LogAfterOk(NextLog(log, h[0]), h[1..]);
    }
  }

  /** A routine update without a tilt alarm never shows up in the log, by
      either channel. */
  lemma RoutineNeverLogged(log: seq<Sample>, h: seq<Delivery>, r: Sample)
    requires LogOk(log)
    requires r.eventType == "update" && !Truthy(r.tiltDetected)
    ensures r !in LogAfter(log, h)
  {
    LogAfterOk(log, h);
  }

  /** A delivery that cannot touch the log. */
  predicate LeavesLog(d: Delivery) {
    match d
    case LatestPulled(_) => true
    case AlertsPulled(data) => |Rows(data)| == 0
    case Inserted(r, alive) => !alive || !LogWorthy(r)
  }

  lemma {:induction false} QuietLog(log: seq<Sample>, h: seq<Delivery>)
    requires forall i :: 0 <= i < |h| ==> LeavesLog(h[i])
    ensures LogAfter(log, h) == log
    decreases |h|
  {
    if h != [] {
      assert LeavesLog(h[0]);
      QuietLog(log, h[1..]);
    }
  }

  /** The pull is a snapshot, not a merge: after a non-empty alerts pull,
      and until the next push or pull that touches the log, the log is that
      pull's snapshot, whatever it held before. */
  lemma LastPullWins(log: seq<Sample>, h1: seq<Delivery>, rows: seq<Sample>, h2: seq<Delivery>)
    requires |rows| > 0
    requires forall i :: 0 <= i < |h2| ==> LeavesLog(h2[i])
    ensures LogAfter(log, h1 + [AlertsPulled(Some(rows))] + h2) == PullSnapshot(rows)
  {
    LogAfterAppend(log, h1 + [AlertsPulled(Some(rows))], h2);
    LogAfterSnoc(log, h1, AlertsPulled(Some(rows)));
    QuietLog(PullSnapshot(rows), h2);
  }
}
