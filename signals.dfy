/** Values the dashboard derives from the current sample on every render:
    connection health, the light shown and its tone, and the colour band of
    an alerts-table row. */
module Signals {
  import opened Records
  import opened AlertLog

  /** A sample older than this many milliseconds means the feed is stale. */
  const StaleAfterMs: int := 10000

  /** `connectionHealthy`: a sample exists and was stamped less than ten
      seconds before `now` (a sample stamped in the future counts as fresh). */
  predicate ConnectionHealthy(row: Option<Sample>, now: int)
    ensures ConnectionHealthy(row, now) ==> row.Some?
    ensures row.Some? ==> (ConnectionHealthy(row, now) <==> now < row.value.createdAt + StaleAfterMs)
  {
    match row
    case None => false
    case Some(s) => now - s.createdAt < StaleAfterMs
  }

  lemma NoSampleUnhealthy(now: int)
    ensures !ConnectionHealthy(None, now)
  {
  }

  lemma FreshSampleHealthy(s: Sample, now: int)
    requires now < s.createdAt + StaleAfterMs
    ensures ConnectionHealthy(Some(s), now)
  {
  }

  /** Health is time-based: with no newer sample, it turns false ten seconds
      after the current one was stamped and stays false. */
  lemma HealthExpires(row: Option<Sample>, now: int)
    requires row.Some? && now >= row.value.createdAt + StaleAfterMs
    ensures !ConnectionHealthy(row, now)
    ensures forall later :: later >= now ==> !ConnectionHealthy(row, later)
  {
  }

  /** `useMemo`'s cache for `connectionHealthy`, keyed on `row?.created_at`. */
  datatype HealthMemo = Unset | Cached(key: Option<int>, healthy: bool)

  function MemoKey(row: Option<Sample>): Option<int> {
    match row
    case Some(s) => Some(s.createdAt)
    case None => None
  }

  /** One render of the health badge as the component is written: the memo
      is recomputed only when `row?.created_at` changes, never because the
      clock moved. Returns the new memo and the value shown. */
  function RenderHealth(memo: HealthMemo, row: Option<Sample>, now: int): (res: (HealthMemo, bool))
    ensures res.0 == Cached(MemoKey(row), res.1)
    ensures memo.Unset? || memo.key != MemoKey(row) ==> res.1 == ConnectionHealthy(row, now)
  {
    if memo.Cached? && memo.key == MemoKey(row) then (memo, memo.healthy)
    else (Cached(MemoKey(row), ConnectionHealthy(row, now)), ConnectionHealthy(row, now))
  }

  /** As written, a cached value survives any amount of time while the
      sample's timestamp stays the same. */
  lemma MemoIgnoresClock(row: Option<Sample>, healthy: bool, now: int)
    ensures RenderHealth(Cached(MemoKey(row), healthy), row, now).1 == healthy
  {
  }

  /** The counterexample: a sample rendered when it arrives shows "Live";
      if the feed then stops (the pulls keep returning the same row), a
      render a minute later still shows "Live" though the sample is stale. */
  lemma StaleFeedStaysLive(s: Sample)
    ensures var (memo, first) := RenderHealth(Unset, Some(s), s.createdAt);
      var (_, later) := RenderHealth(memo, Some(s), s.createdAt + 60000);
      first && later && !ConnectionHealthy(Some(s), s.createdAt + 60000)
  {
  }

  /** `lightColor`: the sample's light, red when there is no sample or no light. */
  function LightShown(row: Option<Sample>): (c: LightColor)
    ensures row.None? || row.value.lightMain.None? ==> c == Red
    ensures row.Some? && row.value.lightMain.Some? ==> c == row.value.lightMain.value
  {
    match row
    case Some(s) => s.lightMain.GetOr(Red)
    case None => Red
  }

  datatype Tone = Ok | Warn | Bad

  /** The "Current Light" card's tone, computed from the raw `light_main`. */
  function LightTone(row: Option<Sample>): (t: Tone)
    ensures t == Ok <==> row.Some? && row.value.lightMain == Some(Green)
    ensures t == Warn <==> row.Some? && row.value.lightMain == Some(Yellow)
  {
    if row.Some? && row.value.lightMain == Some(Green) then Ok
    else if row.Some? && row.value.lightMain == Some(Yellow) then Warn
    else Bad
  }

  function ColorTone(c: LightColor): Tone {
    match c
    case Green => Ok
    case Yellow => Warn
    case Red => Bad
  }

  /** The card's tone always agrees with the light the badge shows, although
      the tone reads the raw value and the badge the red-defaulted one. */
  lemma ToneMatchesShownLight(row: Option<Sample>)
    ensures LightTone(row) == ColorTone(LightShown(row))
    ensures LightTone(row) == Ok <==> LightShown(row) == Green
  {
  }

  /** Colour band of an alerts-table row (`alertRowClass`). */
  datatype RowBand = Danger | Cleared | Booted | Plain

  function AlertRowBand(e: Sample): (b: RowBand)
    ensures e.eventType == "congestion" || Truthy(e.tiltDetected) ==> b == Danger
    ensures b == Cleared ==> e.eventType == "clear"
    ensures b == Booted ==> e.eventType == "boot"
  {
    if e.eventType == "congestion" || Truthy(e.tiltDetected) then Danger
    else if e.eventType == "clear" then Cleared
    else if e.eventType == "boot" then Booted
    else Plain
  }

  /** Priority: a congestion event or any tilt alarm is red, and that beats
      the "clear" and "boot" bands. */
  lemma AlertRowBandPriority(e: Sample)
    ensures AlertRowBand(e) == Danger <==> e.eventType == "congestion" || Truthy(e.tiltDetected)
    ensures AlertRowBand(e) == Cleared <==> e.eventType == "clear" && !Truthy(e.tiltDetected)
    ensures AlertRowBand(e) == Booted <==> e.eventType == "boot" && !Truthy(e.tiltDetected)
    ensures AlertRowBand(e) == Plain <==>
      e.eventType !in {"congestion", "clear", "boot"} && !Truthy(e.tiltDetected)
  {
  }

  /** A routine update that made it into the log did so through its tilt
      alarm, so it is always shown red. */
  lemma LoggedUpdateIsDanger(e: Sample)
    requires e.eventType == "update"
    requires LogWorthy(e)
    ensures AlertRowBand(e) == Danger
  {
  }
}
