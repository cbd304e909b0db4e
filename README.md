# Smart traffic dashboard: live-state reconciliation, in Dafny

This project models the live state of the smart traffic dashboard's `Dashboard`
component (`src/app/page.tsx`). The dashboard keeps a local view of one remote
traffic-control installation. Updates reach it through two channels: a realtime
INSERT push on the `traffic_data` table, and 1-second pulls of `traffic_data`
and `traffic_config`. The model covers:

- the current sample `row`. Every non-empty latest-sample pull, and every push
  while alive, overwrites it in arrival order ("last writer by arrival wins").
  Alerts pulls, empty or failed latest-sample pulls and pushes after teardown
  leave it as it is.
- the alerts log. A non-empty alerts pull replaces the whole log with a
  snapshot of the first 50 log-worthy rows; an empty or failed one leaves it.
  A push while alive prepends one log-worthy row and cuts the log to 50.
  The two paths are not merged; whichever ran last decides what is shown.
- the active timing configuration and the two slider values. A non-empty
  config pull overwrites both sliders, so unsaved edits are lost; an empty or
  failed one changes nothing.
- the `saving` / `savedAt` status of a save.
- the liveness flag. Teardown clears it, and after that the two subscription
  callbacks change nothing.
- the signed-in user, the fixed credential check and the login form's
  required-field check.
- the derived signals: connection health, the red-by-default light, its tone,
  and the alert-row colour band.

Modules, leaf first:

| module | file | contents |
|---|---|---|
| `Records` | records.dfy | `Sample` (a `traffic_data` row), `TrafficConfig`, `User`, `Option`, the newest-first orderings the server queries promise |
| `AlertLog` | alert_log.dfy | the selection rule, `Filter`, `Truncate`, the pull snapshot, the push prepend |
| `Feed` | feed.dfy | deliveries on the `traffic_data` stream, and folds of a delivery history into `row` and the log |
| `Signals` | signals.dfy | connection health (and the memoised form the component has), light, tone, alert-row band |
| `Auth` | auth.dfy | credentials, JavaScript `trim`, the login form's outcome |
| `DashboardState` | dashboard.dfy | class `Dashboard`: the state cells and one atomic method per handler |

Each asynchronous handler is one atomic method. Its inputs are parameters: the
rows the store would return (`None` for a failed query, where the source gets
`data === null`), the insert's success flag, and the clock (`now`). Timestamps
are milliseconds as `int`. The class keeps a ghost history of its `traffic_data`
deliveries. Its invariant `Valid()` says that `row` and `alerts` are exactly the
fold of that history. The lemmas in `Feed` therefore apply to the object.

The model follows the handlers as written, including where they do less than
one might expect:

- Slider edits are not range-checked by the handlers. The `onChange` handlers
  (`page.tsx:428`, `page.tsx:445`) store the parsed value; the only bounds are
  the range inputs' `min`/`max`/`step` attributes at `page.tsx:424-426` and
  `page.tsx:441-443`. `SetGreenMs` and `SetYellowMs` accept any value.
- The pull handlers do not check `alive`; only the two subscription callbacks
  do (`page.tsx:219`, `page.tsx:234`). A pull response that arrives after
  teardown still writes the state.
- The active configuration is the first row of a pull that the server orders by
  `updated_at` descending (`page.tsx:198`). The client does not compute a
  maximum itself.

## Model

| member | source | states |
|---|---|---|
| AlertLog.LogWorthy | src/app/page.tsx:188 | any event other than "update" is log-worthy; an "update" is log-worthy exactly when its tilt flag is true |
| AlertLog.PushSelects | src/app/page.tsx:222 | the push callback's truthiness test on `tilt_detected` selects exactly the rows the pull's `=== true` rule keeps |
| AlertLog.Filter | src/app/page.tsx:187-189 | the filtered pull holds only log-worthy rows, each taken from the pull, and is no longer than the pull |
| AlertLog.Truncate | src/app/page.tsx:190 | `slice(0, n)` is a prefix of its input, of length min(length, n) |
| AlertLog.PullSnapshot | src/app/page.tsx:186-190 | the pulled log has at most 50 entries, all log-worthy, and is the first min(50, #log-worthy) of the filtered rows |
| AlertLog.AfterPush | src/app/page.tsx:222-226 | a push keeps a bounded, all-log-worthy log bounded and all-log-worthy |
| AlertLog.FilterAppend | src/app/page.tsx:187-189 | filtering distributes over concatenation, so input order is kept |
| AlertLog.FilterSingleton | src/app/page.tsx:188 | a single row is kept exactly when it is log-worthy |
| AlertLog.FilterComplete | src/app/page.tsx:187-189 | every log-worthy row of the pull survives the filter |
| AlertLog.FilterKeepsWorthy | src/app/page.tsx:187-189 | a pull of log-worthy rows only passes through unchanged |
| AlertLog.FilterIdempotent | src/app/page.tsx:187-189 | filtering twice is filtering once |
| AlertLog.FilterKeepsNewestFirst | src/app/page.tsx:181-189 | a newest-first pull stays newest-first after the filter; the client never re-sorts |
| AlertLog.SnapshotNewestFirst | src/app/page.tsx:181-190 | the log installed by a newest-first pull is newest-first |
| AlertLog.SnapshotWhole | src/app/page.tsx:190 | with at most 50 log-worthy rows, the snapshot is the whole filtered pull |
| AlertLog.PushPrepends | src/app/page.tsx:222-226 | a log-worthy push becomes entry 0, the old entries follow in order, and past 50 the oldest is dropped |
| AlertLog.PushIgnoresRoutine | src/app/page.tsx:222 | a routine "update" without tilt leaves the log unchanged |
| Feed.RowAfterSnoc | src/app/page.tsx:176 | folding one more delivery applies that delivery to the folded `row` |
| Feed.LastWriterWins | src/app/page.tsx:176 | after any interleaving of pulls and pushes, `row` is the payload of the last delivery that wrote it, or unchanged when none did |
| Feed.NextLog | src/app/page.tsx:186-190 | one delivery keeps the log bounded and all-log-worthy |
| Feed.LogAfterAppend | src/app/page.tsx:186-190 | the log after two histories is the second folded over the first |
| Feed.LogAfterSnoc | src/app/page.tsx:223-226 | folding one more delivery applies that delivery to the folded log |
| Feed.LogAfterOk | src/app/page.tsx:186-190 | whatever arrives, the log stays within 50 entries, all log-worthy |
| Feed.RoutineNeverLogged | src/app/page.tsx:188 | a routine update without tilt never appears in the log, by either channel |
| Feed.QuietLog | src/app/page.tsx:176-226 | deliveries that cannot touch the log (latest-sample pulls, empty pulls, dead or routine pushes) leave it as it is |
| Feed.LastPullWins | src/app/page.tsx:186-190 | a non-empty alerts pull replaces the log whatever it held; its snapshot stays until a push or pull that touches the log |
| Signals.ConnectionHealthy | src/app/page.tsx:266-270 | healthy only with a sample, and then exactly when `now` is less than 10000 ms after its stamp |
| Signals.RenderHealth | src/app/page.tsx:266-270 | as written: after a render the memo caches the shown value under the current `created_at`; only a first render or a new timestamp reads the clock |
| Signals.LightShown | src/app/page.tsx:272 | the sample's light when it has one, red when there is no sample or no light |
| Signals.LightTone | src/app/page.tsx:380 | the tone is "ok" exactly for a green light and "warn" exactly for a yellow one; otherwise "bad" |
| Signals.AlertRowBand | src/app/page.tsx:329-334 | congestion or a tilt alarm always gives red; the green band only for "clear", the blue band only for "boot" |
| Signals.NoSampleUnhealthy | src/app/page.tsx:267 | no sample means unhealthy |
| Signals.FreshSampleHealthy | src/app/page.tsx:268-269 | a sample stamped less than 10000 ms before `now` is healthy |
| Signals.HealthExpires | src/app/page.tsx:268-269 | 10000 ms after its stamp a sample is unhealthy, and stays so at every later time |
| Signals.MemoIgnoresClock | src/app/page.tsx:266-270 | as written, the memoised health keeps its cached value for any `now` while `created_at` is the same |
| Signals.StaleFeedStaysLive | src/app/page.tsx:266-270 | as written, a sample shown "Live" on arrival is still shown "Live" 60 s later, though it is stale |
| Signals.ToneMatchesShownLight | src/app/page.tsx:380 | the card's tone, computed from the raw light at this line, matches the red-defaulted light of line 272, and is "ok" exactly when that light is green |
| Signals.AlertRowBandPriority | src/app/page.tsx:329-334 | congestion or tilt gives red, ahead of clear (green) and boot (blue), and each band holds exactly under its condition |
| Signals.LoggedUpdateIsDanger | src/app/page.tsx:330 | a routine update in the log is always shown red |
| Auth.ValidCredentials | src/app/page.tsx:140 | the accepted pair has a non-empty username not starting with whitespace and a non-empty password, so it passes the form's required-field check |
| Auth.Trim | src/app/page.tsx:39 | `trim()` is the slice of its input left after dropping a run of whitespace at each end, and has no whitespace at either end |
| Auth.SubmitOutcome | src/app/page.tsx:35-51 | missing fields exactly for a blank trimmed username or an empty password; sign-in only with valid credentials on the trimmed username |
| Auth.TrimStart | src/app/page.tsx:39 | the result is a suffix of the input, only whitespace was dropped, and it does not start with whitespace |
| Auth.TrimEnd | src/app/page.tsx:39 | the result is a prefix of the input, only whitespace was dropped, and it does not end with whitespace |
| Auth.TrimBlankIff | src/app/page.tsx:39 | the trimmed username is empty exactly when the username is all whitespace |
| Auth.TrimIdempotent | src/app/page.tsx:39 | trimming twice is trimming once |
| Auth.SubmitOutcomeIff | src/app/page.tsx:39-49 | the form signs in exactly for trimmed username "adm1n" with password "1234", and reports missing fields exactly for a blank username or an empty password |
| Auth.TrimStartPadding | src/app/page.tsx:39 | leading whitespace in front of a string that starts with a non-whitespace character is removed, and nothing more |
| Auth.TrimEndPadding | src/app/page.tsx:39 | trailing whitespace after a string that ends with a non-whitespace character is removed, and nothing more |
| Auth.PaddedUsernameSignsIn | src/app/page.tsx:44 | for any runs of whitespace before and after "adm1n", the form signs in with password "1234", since `login` gets the trimmed name |
| DashboardState.Dashboard.constructor | src/app/page.tsx:125-167 | initial state: no sample, empty log, no config, sliders 10000/3000, not saving, never saved, user restored, alive |
| DashboardState.Dashboard.FetchLatest | src/app/page.tsx:170-177 | a non-empty pull sets `row` to its first row; an empty or failed pull leaves `row`; the invariant is kept |
| DashboardState.Dashboard.FetchAlerts | src/app/page.tsx:179-192 | a non-empty pull replaces `alerts` with its snapshot; an empty or failed pull leaves it; the invariant is kept |
| DashboardState.Dashboard.OnInsert | src/app/page.tsx:218-228 | while alive, `row` is the pushed row and the log is the prepend; after teardown `row` and `alerts` are unchanged |
| DashboardState.Dashboard.FetchConfig | src/app/page.tsx:194-206 | a non-empty pull sets `cfg` to its first row and both sliders to its durations, discarding edits; an empty one changes nothing |
| DashboardState.Dashboard.OnConfigChange | src/app/page.tsx:233-236 | while alive it is `fetchConfig`; after teardown nothing changes |
| DashboardState.Dashboard.SetGreenMs | src/app/page.tsx:428 | the green slider takes the given value, unchecked |
| DashboardState.Dashboard.SetYellowMs | src/app/page.tsx:445 | the yellow slider takes the given value, unchecked |
| DashboardState.Dashboard.BeginSave | src/app/page.tsx:256-260 | `saving` is raised and the insert receives the current slider values |
| DashboardState.Dashboard.FinishSave | src/app/page.tsx:261-262 | `saving` is lowered; `savedAt` is stamped only when the insert succeeded; the sliders are unchanged |
| DashboardState.Dashboard.SaveConfig | src/app/page.tsx:255-263 | after a save, `saving` is false, the sliders are unchanged, and `savedAt` is `now` on success and unchanged on error |
| DashboardState.Dashboard.Teardown | src/app/page.tsx:244-251 | `alive` is false and nothing else changes |
| DashboardState.Dashboard.Login | src/app/page.tsx:138-151 | returns true and sets `user` exactly for ("adm1n", "1234"); otherwise returns false and leaves `user` |
| DashboardState.Dashboard.Logout | src/app/page.tsx:152-157 | `user` becomes none |
| DashboardState.Dashboard.SubmitLogin | src/app/page.tsx:35-51 | the submit's outcome is `SubmitOutcome`, and `user` is set (to "adm1n") only on sign-in |
| DashboardState.Dashboard.Health | src/app/page.tsx:266-270 | corrected: the badge is healthy iff there is a sample stamped less than 10000 ms before `now`; no sample, or one 10 s old, means unhealthy |
| DashboardState.PulledConfigIsNewest | src/app/page.tsx:194-201 | on a pull ordered by `updated_at` descending, the row taken is the latest write returned |
| DashboardState.CurrentSampleIsLastWrite | src/app/page.tsx:170-228 | on a valid dashboard, `row` is the payload of the last delivery that wrote it, and the log holds at most 50 entries |

## Findings

| source | as written | input that shows it | evidently intended | confidence | as-written member | corrected member |
|---|---|---|---|---|---|---|
| src/app/page.tsx:266-270 | `connectionHealthy` is memoised on `row?.created_at` only, so it is recomputed only when a new timestamp arrives, never because time passed | a sample stamped `t`, rendered at `t` ("Live"); the feed stops and the pulls keep returning that row; a render at `t + 60000` still shows "Live" | the badge turns to "Reconnecting" once the last sample is 10 s old, as the "seen within last 10s" comment says | high; not executed | Signals.StaleFeedStaysLive | DashboardState.Dashboard.Health |

The rest of the model uses the corrected form. `Dashboard.Health` evaluates
`ConnectionHealthy` against the clock on every call, and `HealthExpires` proves
that this value turns false 10 s after the sample and stays false. The memoised
form exists only in `Signals.RenderHealth`, to exhibit the discrepancy.

## Left out

- Rendering is not modelled: JSX, `StatCard`, `TrafficLight`, badges, CSS class strings beyond the alert-row band, `src/components/TrafficMap.tsx`, `src/components/ui/card.tsx` and `next.config.ts`. They are presentation and build configuration.
- The Supabase client, `channel().on().subscribe()`, `removeChannel` and `insert` are foreign library calls. Delivered rows, pull results and the insert's success flag are method parameters.
- `setInterval` timers and the interleaving of in-flight pulls with pushes are not modelled. They are concurrency; each handler is one atomic step. The one await the model keeps is inside `saveConfig`, split into `BeginSave` and `FinishSave`.
- Remounting is not modelled. A remount would run the effect again with a fresh `alive`; the model covers one mount.
- React's silent dropping of state updates on an unmounted component is not modelled. The model lets a late pull write the state, as the handler code does.
- `localStorage` get/set/remove and `JSON.parse` of the session flag are I/O. The restored user is a constructor parameter.
- `console.log` calls are not modelled. They are output only.
- ISO date parsing is not modelled: `created_at`, `updated_at` and `savedAt` are integer milliseconds. An empty or unparseable `created_at` (falsy or `NaN` in the source, and unhealthy there) has no counterpart. The health memo is keyed on the parsed milliseconds rather than on the `created_at` string, so two different strings for the same instant (say with and without fractional seconds) make the source recompute but leave the model's cached value in place.
- `parseInt` of the slider's string value is not modelled. The slider setters take the parsed integer.
- `toLocaleTimeString` and `toFixed` formatting of times, distances and angles are not modelled. They depend on the locale and on floating point.
- The login form's `loading` and `error` cells and its 250 ms `setTimeout` are not modelled. They are presentation; the form's result is the `LoginOutcome` value.
- The whitespace that `trim` removes is a fixed list of ECMAScript's WhiteSpace and LineTerminator code points. Space separators added by later Unicode versions are not tracked.
