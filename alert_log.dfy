/** The alerts table: which samples are log-worthy, the snapshot a pull of
    the 80 newest rows produces, and the prepend a pushed row performs. */
module AlertLog {
  import opened Records

  /** The log keeps at most this many entries (`slice(0, 50)`). */
  const MaxAlerts: nat := 50

  /** The pull's selection rule: `d.event_type !== "update" || d.tilt_detected === true`.
      Routine updates are dropped unless they carry a tilt alarm. */
  predicate LogWorthy(s: Sample)
    ensures s.eventType != "update" ==> LogWorthy(s)
    ensures s.eventType == "update" ==> (LogWorthy(s) <==> Truthy(s.tiltDetected))
  {
    s.eventType != "update" || s.tiltDetected == Some(true)
  }

  /** The push callback's rule, `r.event_type !== "update" || r.tilt_detected`,
      tested by truthiness; on a `boolean | null` column it selects exactly
      the rows the pull's rule keeps. */
  predicate PushSelects(s: Sample)
    ensures PushSelects(s) <==> LogWorthy(s)
  {
    s.eventType != "update" || Truthy(s.tiltDetected)
  }

  /** Every entry is log-worthy and there are at most `MaxAlerts` of them. */
  ghost predicate LogOk(log: seq<Sample>) {
    |log| <= MaxAlerts && forall i :: 0 <= i < |log| ==> LogWorthy(log[i])
  }

  /** `Array.prototype.filter(LogWorthy)`: the log-worthy rows, in input order. */
  function Filter(s: seq<Sample>): (r: seq<Sample>)
    ensures |r| <= |s|
    ensures forall i :: 0 <= i < |r| ==> LogWorthy(r[i])
    ensures forall x :: x in r ==> x in s
  {
    if s == [] then []
    else (if LogWorthy(s[0]) then [s[0]] else []) + Filter(s[1..])
  }

  /** `s.slice(0, n)`: the first `n` elements, or all of `s` when it is shorter. */
  function Truncate<T>(s: seq<T>, n: nat): (r: seq<T>)
    ensures r <= s
    ensures |r| == Min(|s|, n)
  {
    if |s| <= n then s else s[..n]
  }

  /** What `fetchAlerts` installs for a non-empty pull: the first 50
      log-worthy rows, in the order the store returned them. */
  function PullSnapshot(rows: seq<Sample>): (r: seq<Sample>)
    ensures LogOk(r)
    ensures r <= Filter(rows)
    ensures |r| == Min(|Filter(rows)|, MaxAlerts)
  {
    Truncate(Filter(rows), MaxAlerts)
  }

  /** What the insert callback does to the log: `[r, ...prev].slice(0, 50)`
      when `r` passes the rule, nothing otherwise. */
  function AfterPush(log: seq<Sample>, r: Sample): (res: seq<Sample>)
    ensures LogOk(log) ==> LogOk(res)
  {
    if PushSelects(r) then Truncate([r] + log, MaxAlerts) else log
  }

  /** Filtering distributes over concatenation; with the one-element cases
      below this pins `Filter` down as "keep the log-worthy rows, in order". */
  lemma {:induction false} FilterAppend(a: seq<Sample>, b: seq<Sample>)
    ensures Filter(a + b) == Filter(a) + Filter(b)
  {
    if a == [] {
      assert a + b == b;
    } else {
      assert (a + b)[0] == a[0];
      assert (a + b)[1..] == a[1..] + b;
      FilterAppend(a[1..], b);
    }
  }

  /** A single row is kept exactly when it is log-worthy. */
  lemma FilterSingleton(x: Sample)
    ensures Filter([x]) == if LogWorthy(x) then [x] else []
  {
  }

  /** No log-worthy row of the pull is lost by the filter. */
  lemma {:induction false} FilterComplete(s: seq<Sample>, x: Sample)
    requires x in s && LogWorthy(x)
    ensures x in Filter(s)
  {
    if s[0] != x {
      assert x in s[1..];
      FilterComplete(s[1..], x);
    }
  }

  /** A pull whose rows are all log-worthy passes through unchanged. */
  lemma {:induction false} FilterKeepsWorthy(s: seq<Sample>)
    requires forall i :: 0 <= i < |s| ==> LogWorthy(s[i])
    ensures Filter(s) == s
  {
    if s != [] {
      FilterKeepsWorthy(s[1..]);
    }
  }

  /** Filtering twice is filtering once. */
  lemma FilterIdempotent(s: seq<Sample>)
    ensures Filter(Filter(s)) == Filter(s)
  {
    FilterKeepsWorthy(Filter(s));
  }

  /** The client never sorts: a newest-first pull stays newest-first after
      the filter, so the snapshot is newest-first too. */
  lemma {:induction false} FilterKeepsNewestFirst(s: seq<Sample>)
    requires NewestFirst(s)
    ensures NewestFirst(Filter(s))
  {
    if s != [] {
      var tail := s[1..];
      assert NewestFirst(tail) by {
        forall i, j | 0 <= i < j < |tail| ensures tail[i].createdAt >= tail[j].createdAt {
          assert tail[i] == s[i + 1] && tail[j] == s[j + 1];
        }
      }
      FilterKeepsNewestFirst(tail);
      var f := Filter(tail);
      forall k | 0 <= k < |f| ensures s[0].createdAt >= f[k].createdAt {
        assert f[k] in tail;
        var m :| 0 <= m < |tail| && tail[m] == f[k];
        assert s[m + 1] == f[k];
      }
    }
  }

  lemma SnapshotNewestFirst(rows: seq<Sample>)
    requires NewestFirst(rows)
    ensures NewestFirst(PullSnapshot(rows))
  {
    FilterKeepsNewestFirst(rows);
    var f := Filter(rows);
    var r := PullSnapshot(rows);
    forall i, j | 0 <= i < j < |r| ensures r[i].createdAt >= r[j].createdAt {
      assert r[i] == f[i] && r[j] == f[j];
    }
  }

  /** A snapshot with fewer than 50 log-worthy rows in the pull shows all of them. */
  lemma SnapshotWhole(rows: seq<Sample>)
    requires |Filter(rows)| <= MaxAlerts
    ensures PullSnapshot(rows) == Filter(rows)
  {
  }

  /** A log-worthy push becomes the first entry and the old entries follow
      it in order, the oldest dropped past 50. */
  lemma PushPrepends(log: seq<Sample>, r: Sample)
    requires LogWorthy(r)
    ensures var res := AfterPush(log, r);
      |res| >= 1 && res[0] == r && res[1..] == log[..Min(|log|, MaxAlerts - 1)]
  {
  }

  /** A routine update without tilt leaves the log as it was. */
  lemma PushIgnoresRoutine(log: seq<Sample>, r: Sample)
    requires r.eventType == "update" && !Truthy(r.tiltDetected)
    ensures AfterPush(log, r) == log
  {
  }
}
