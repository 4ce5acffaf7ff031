/** One service's health row: three rings and the last metrics, fed by snapshots and metrics in any order. */
module HealthProjection {
  import opened Wrappers
  import opened HealthRing

  /** A wellness snapshot; no time stands for a timestamp that does not parse. */
  datatype Snapshot = Snapshot(at: Option<int>, score: int)

  /** A metrics window; latencies are in hundredths of a millisecond. */
  datatype Metrics = Metrics(windowEnd: Option<int>, errorCount: int, p50: int, p99: int)

  /** A health row; latencies are in milliseconds, the uptime in hundredths of a percent. */
  datatype Row = Row(
    uptime: int,
    p50: Option<int>,
    p99: Option<int>,
    errors24h: int,
    series: seq<int>,
    p99Series: Option<seq<int>>)

  /** The nearest integer, half up. */
  function RoundedQuotient(n: int, d: int): int
    requires d > 0
  {
    (2 * n + d) / (2 * d)
  }

  function RoundHundredths(n: int): int {
    RoundedQuotient(n, 100)
  }

  function SumOf(series: seq<int>): int {
    if series == [] then 0 else SumOf(series[..|series| - 1]) + series[|series| - 1]
  }

  lemma TimesOrdered(a: int, b: int, d: nat)
    requires a <= b
    ensures a * d <= b * d
  {
  }

  /** The nearest integer, and of two equally near the larger. */
  lemma RoundedExactly(n: int, d: int, q: int)
    requires d > 0
    ensures RoundedQuotient(n, d) == q <==> 2 * d * q - d <= 2 * n < 2 * d * q + d
  {
    var r, twice := RoundedQuotient(n, d), 2 * d;
    assert r * twice <= 2 * n + d < r * twice + twice;
    assert q * twice == 2 * d * q;
    if q < r {
      TimesOrdered(q + 1, r, twice);
    } else if q > r {
      TimesOrdered(r + 1, q, twice);
    }
  }

  lemma {:induction false} SumOfParts(a: seq<int>, b: seq<int>, x: int)
    ensures SumOf([]) == 0 && SumOf([x]) == x && SumOf(a + b) == SumOf(a) + SumOf(b)
  {
    assert [x][..0] == [];
    if b == [] {
      assert a + b == a;
    } else {
      var n := |b| - 1;
      SumOfParts(a, b[..n], x);
      assert (a + b)[..|a + b| - 1] == a + b[..n];
    }
  }

  // ------------------------------------------------------------------------------------------
  // What each ring is to take in.

  function Scores(seen: seq<Snapshot>): seq<Sample> {
    if seen == [] then []
    else
      var before, last := Scores(seen[..|seen| - 1]), seen[|seen| - 1];
      if last.at.Some? then before + [Sample(last.at.value, last.score)] else before
  }

  function ErrorCounts(seen: seq<Metrics>): seq<Sample> {
    if seen == [] then []
    else
      var before, last := ErrorCounts(seen[..|seen| - 1]), seen[|seen| - 1];
      if last.windowEnd.Some? && last.errorCount > 0 then
        before + [Sample(last.windowEnd.value, last.errorCount)]
      else before
  }

  function Latencies(seen: seq<Metrics>): seq<Sample> {
    if seen == [] then []
    else
      var before, last := Latencies(seen[..|seen| - 1]), seen[|seen| - 1];
      if last.windowEnd.Some? && last.p99 > 0 then
        before + [Sample(last.windowEnd.value, RoundHundredths(last.p99))]
      else before
  }

  lemma ScoresGrow(seen: seq<Snapshot>, next: Snapshot)
    ensures Scores(seen + [next]) ==
            if next.at.Some? then Scores(seen) + [Sample(next.at.value, next.score)] else Scores(seen)
  {
    assert (seen + [next])[..|seen|] == seen;
  }

  lemma MetricsGrow(seen: seq<Metrics>, next: Metrics)
    ensures ErrorCounts(seen + [next]) ==
            if next.windowEnd.Some? && next.errorCount > 0
            then ErrorCounts(seen) + [Sample(next.windowEnd.value, next.errorCount)] else ErrorCounts(seen)
    ensures Latencies(seen + [next]) ==
            if next.windowEnd.Some? && next.p99 > 0
            then Latencies(seen) + [Sample(next.windowEnd.value, RoundHundredths(next.p99))] else Latencies(seen)
  {
    assert (seen + [next])[..|seen|] == seen;
  }

  function FirstHour(log: seq<Sample>): int
    requires log != []
  {
    HourOf(log[0].at)
  }

  function LastHour(log: seq<Sample>): int
    requires log != []
  {
    RingHour(FirstHour(log), log, |log|)
  }

  /** The table of a whole log that starts its own ring. */
  function HourTable(rule: Rule, fill: int, log: seq<Sample>, hour: int): int
    requires log != []
  {
    Table(rule, fill, FirstHour(log), log, |log|, hour)
  }

  /** What the log counts in the 24 hours that end with `hour`. */
  function DayCount(log: seq<Sample>, hour: int): int
    requires log != []
  {
    CountedIn(FirstHour(log), log, |log|, hour - 23, hour + 1)
  }

  /** The row a history of snapshots and metrics stands for. */
  ghost predicate RowShows(row: Row, snapshots: seq<Snapshot>, metrics: seq<Metrics>) {
    var scores, errors, latencies := Scores(snapshots), ErrorCounts(metrics), Latencies(metrics);
    && |row.series| == SLOTS
    && (forall j :: 0 <= j < SLOTS ==>
          row.series[j] == if scores == [] then 100 else HourTable(Max, 100, scores, LastHour(scores) - 23 + j))
    && row.errors24h == (if errors != [] then DayCount(errors, LastHour(errors))
                         else if metrics != [] then metrics[|metrics| - 1].errorCount
                         else 0)
    && row.uptime == RoundedQuotient(100 * SumOf(row.series), SLOTS)
    && row.p50 == (if metrics == [] then None else Some(RoundHundredths(metrics[|metrics| - 1].p50)))
    && row.p99 == (if metrics == [] then None else Some(RoundHundredths(metrics[|metrics| - 1].p99)))
    && (row.p99Series.None? <==> latencies == [])
    && (latencies != [] ==>
          && |row.p99Series.value| == SLOTS
          && forall j :: 0 <= j < SLOTS ==>
               row.p99Series.value[j] == HourTable(Max, 0, latencies, LastHour(latencies) - 23 + j))
  }

  // ------------------------------------------------------------------------------------------
  // The projection.

  ghost function RingParts(ring: Ring?): set<object> {
    if ring == null then {} else {ring, ring.buckets}
  }

  /** The ring has taken in exactly this log, and is there as soon as the log holds anything. */
  ghost predicate Holds(ring: Ring?, rule: Rule, fill: int, log: seq<Sample>)
    reads ring, RingParts(ring)
  {
    && (ring == null <==> log == [])
    && (ring != null ==>
          && ring.Valid()
          && ring.rule == rule
          && ring.fill == fill
          && ring.log == log
          && ring.first == FirstHour(log))
  }

  class ServiceHealth {
    var wellness: Ring?
    var errors: Ring?
    var latency: Ring?
    var lastMetrics: Option<Metrics>
    ghost var snapshots: seq<Snapshot>
    ghost var metrics: seq<Metrics>

    ghost function Parts(): set<object>
      reads `wellness, `errors, `latency
    {
      RingParts(wellness) + RingParts(errors) + RingParts(latency)
    }

    /** Three rings that share nothing and have taken in these logs. */
    ghost predicate Rings(scores: seq<Sample>, errorCounts: seq<Sample>, latencies: seq<Sample>)
      reads `wellness, `errors, `latency, Parts()
    {
      && RingParts(wellness) !! RingParts(errors) !! RingParts(latency)
      && Holds(wellness, Max, 100, scores)
      && Holds(errors, Sum, 0, errorCounts)
      && Holds(latency, Max, 0, latencies)
    }

    ghost predicate Valid()
      reads this, Parts()
    {
      && this !in Parts()
      && Rings(Scores(snapshots), ErrorCounts(metrics), Latencies(metrics))
      && lastMetrics == if metrics == [] then None else Some(metrics[|metrics| - 1])
    }

    constructor ()
      ensures Valid() && snapshots == [] && metrics == []
      ensures fresh(Parts())
    {
      wellness, errors, latency, lastMetrics := null, null, null, None;
      snapshots, metrics := [], [];
    }

    /** Takes a value into a ring, made on the first one. */
    static method Feed(ring: Ring?, rule: Rule, fill: int, at: int, value: int, ghost log: seq<Sample>)
        returns (fed: Ring)
      requires Holds(ring, rule, fill, log)
      modifies RingParts(ring)
      ensures Holds(fed, rule, fill, log + [Sample(at, value)])
      ensures fresh(RingParts(fed) - RingParts(ring))
    {
      if ring == null {
        fed := new Ring(rule, fill, at);
      } else {
        fed := ring;
      }
      fed.Put(at, value);
      assert log != [] ==> (log + [Sample(at, value)])[0] == log[0];
    }

    method ApplySnapshot(s: Snapshot)
      requires Valid()
      modifies this, Parts()
      ensures Valid() && fresh(Parts() - old(Parts()))
      ensures snapshots == old(snapshots) + [s] && metrics == old(metrics)
    {
      hide Scores, Latencies, ErrorCounts, Holds;
      ScoresGrow(snapshots, s);
      if s.at.Some? {
        wellness := Feed(wellness, Max, 100, s.at.value, s.score, Scores(snapshots));
      }
      snapshots := snapshots + [s];
    }

    method CountErrors(at: int, count: int, ghost scores: seq<Sample>, ghost counts: seq<Sample>,
        ghost worst: seq<Sample>)
      requires Rings(scores, counts, worst)
      modifies this`errors, RingParts(errors)
      ensures Rings(scores, counts + [Sample(at, count)], worst)
      ensures fresh(RingParts(errors) - old(RingParts(errors)))
    {
      hide Holds;
      errors := Feed(errors, Sum, 0, at, count, counts);
    }

    method KeepWorst(at: int, p99: int, ghost scores: seq<Sample>, ghost counts: seq<Sample>, ghost worst: seq<Sample>)
      requires Rings(scores, counts, worst)
      modifies this`latency, RingParts(latency)
      ensures Rings(scores, counts, worst + [Sample(at, p99)])
      ensures fresh(RingParts(latency) - old(RingParts(latency)))
    {
      hide Holds;
      latency := Feed(latency, Max, 0, at, p99, worst);
    }

    method ApplyMetrics(snap: Metrics)
      requires Valid()
      modifies this, Parts()
      ensures Valid() && fresh(Parts() - old(Parts()))
      ensures metrics == old(metrics) + [snap] && snapshots == old(snapshots)
    {
      hide Scores, Latencies, ErrorCounts, Rings, RoundHundredths;
      MetricsGrow(metrics, snap);
      ghost var scores, counts, worst := Scores(snapshots), ErrorCounts(metrics), Latencies(metrics);
      lastMetrics := Some(snap);
      metrics := metrics + [snap];
      if snap.windowEnd.Some? {
        var at := snap.windowEnd.value;
        if snap.errorCount > 0 {
          CountErrors(at, snap.errorCount, scores, counts, worst);
          counts := counts + [Sample(at, snap.errorCount)];
        }
        if snap.p99 > 0 {
          KeepWorst(at, RoundHundredths(snap.p99), scores, counts, worst);
        }
      }
    }

    static method Total(series: seq<int>) returns (total: int)
      ensures total == SumOf(series)
    {
      total := 0;
      for i := 0 to |series|
        invariant total == SumOf(series[..i])
      {
        total := total + series[i];
        assert series[..i + 1][..i] == series[..i];
      }
      assert series[..|series|] == series;
    }

    /** The row as read at `now`; reading advances no ring. */
    method ToRow(now: int) returns (row: Row)
      requires Valid()
      ensures RowShows(row, snapshots, metrics)
    {
      hide Scores, Latencies, ErrorCounts, RoundedQuotient, RoundHundredths, SumOf, CountedIn, HourOf, Shows, Taken;
      var series: seq<int>;
      if wellness == null {
        var ring := new Ring(Max, 100, now);
        series := ring.Ordered();
      } else {
        series := wellness.Ordered();
      }
      var total := Total(series);
      var errors24h := if lastMetrics.Some? then lastMetrics.value.errorCount else 0;
      if errors != null {
        errors24h := errors.Total();
      }
      var p99Series: Option<seq<int>> := None;
      if latency != null {
        var slots := latency.Ordered();
        p99Series := Some(slots);
      }
      var p50 := if lastMetrics.Some? then Some(RoundHundredths(lastMetrics.value.p50)) else None;
      var p99 := if lastMetrics.Some? then Some(RoundHundredths(lastMetrics.value.p99)) else None;
      row := Row(RoundedQuotient(100 * total, SLOTS), p50, p99, errors24h, series, p99Series);
    }
  }

  // ------------------------------------------------------------------------------------------
  // What the row says about the day that ends now.

  lemma {:induction false} CountSplits(first: int, log: seq<Sample>, n: nat, from: int, middle: int, to: int)
    requires n <= |log| && from <= middle <= to
    ensures CountedIn(first, log, n, from, to) ==
        CountedIn(first, log, n, from, middle) + CountedIn(first, log, n, middle, to)
  {
    if n > 0 {
      CountSplits(first, log, n - 1, from, middle, to);
    }
  }

  lemma {:induction false} CountIsZero(first: int, log: seq<Sample>, n: nat, from: int, to: int)
    requires n <= |log| && forall k :: 0 <= k < |log| ==> log[k].value > 0
    ensures CountedIn(first, log, n, from, to) >= 0
    ensures CountedIn(first, log, n, from, to) == 0 <==>
        forall k :: 0 <= k < n ==> !(from <= CountedHour(first, log, k) < to)
  {
    if n > 0 {
      CountIsZero(first, log, n - 1, from, to);
      assert CountedHour(first, log, n - 1) == RingHour(first, log, n);
    }
  }

  lemma {:induction false} NoneAhead(first: int, log: seq<Sample>, n: nat, m: nat, from: int, to: int)
    requires n <= m <= |log| && from > RingHour(first, log, m)
    ensures CountedIn(first, log, n, from, to) == 0
  {
    RingHourIsLatest(first, log, m);
    if n > 0 {
      RingHourIsLatest(first, log, n);
      NoneAhead(first, log, n - 1, m, from, to);
    }
  }

  /** The 24 hours up to the last sample are those that have left the day by `hour` and the rest of that day. */
  lemma DayMoves(first: int, log: seq<Sample>, last: int, hour: int)
    requires last == RingHour(first, log, |log|) && hour >= last
    ensures CountedIn(first, log, |log|, last - 23, last + 1) ==
            CountedIn(first, log, |log|, last - 23, hour - 23) + CountedIn(first, log, |log|, hour - 23, hour + 1)
  {
    hide CountedIn;
    var n := |log|;
    NoneAhead(first, log, n, n, last + 1, hour + 1);
    if hour - 23 <= last + 1 {
      CountSplits(first, log, n, last - 23, hour - 23, last + 1);
      CountSplits(first, log, n, hour - 23, last + 1, hour + 1);
    } else {
      NoneAhead(first, log, n, n, hour - 23, hour + 1);
      NoneAhead(first, log, n, n, last + 1, hour - 23);
      CountSplits(first, log, n, last - 23, last + 1, hour - 23);
    }
  }

  lemma {:induction false} ErrorsArePositive(metrics: seq<Metrics>)
    ensures forall k :: 0 <= k < |ErrorCounts(metrics)| ==> ErrorCounts(metrics)[k].value > 0
  {
    if metrics != [] {
      ErrorsArePositive(metrics[..|metrics| - 1]);
    }
  }

  /** The 24 hours that end with the last sample count as much as those that end later, exactly when no sample left. */
  lemma DayLeft(log: seq<Sample>, hour: int)
    requires log != [] && hour >= LastHour(log)
    requires forall k :: 0 <= k < |log| ==> log[k].value > 0
    ensures DayCount(log, LastHour(log)) >= DayCount(log, hour)
    ensures DayCount(log, LastHour(log)) == DayCount(log, hour) <==> NoneLeft(log, hour)
  {
    CountIsZero(FirstHour(log), log, |log|, LastHour(log) - 23, hour - 23);
    DayMoves(FirstHour(log), log, LastHour(log), hour);
  }

  /** No sample counted in the ring's day has left the day that ends with `hour`. */
  ghost predicate NoneLeft(log: seq<Sample>, hour: int)
    requires log != []
  {
    forall k :: 0 <= k < |log| ==> !(LastHour(log) - 23 <= CountedHour(FirstHour(log), log, k) < hour - 23)
  }

  /** What the ring's day counts in hours that have left the day that ends with `hour`. */
  function Left(log: seq<Sample>, hour: int): int
    requires log != []
  {
    CountedIn(FirstHour(log), log, |log|, LastHour(log) - 23, hour - 23)
  }

  /** What counts in hours of the day that ends with `hour` and that the ring has dropped, being ahead. */
  function Dropped(log: seq<Sample>, hour: int): int
    requires log != []
  {
    CountedIn(FirstHour(log), log, |log|, hour - 23, LastHour(log) - 23)
  }

  /** What counts in hours later than `hour`. */
  function Ahead(log: seq<Sample>, hour: int): int
    requires log != []
  {
    CountedIn(FirstHour(log), log, |log|, hour + 1, LastHour(log) + 1)
  }

  lemma {:induction false} NoHours(first: int, log: seq<Sample>, n: nat, from: int, to: int)
    requires n <= |log| && to <= from
    ensures CountedIn(first, log, n, from, to) == 0
  {
    if n > 0 {
      NoHours(first, log, n - 1, from, to);
    }
  }

  /** The ring's day and the one that ends with `hour` differ by what left, what was dropped and what lies ahead. */
  lemma DaysDiffer(log: seq<Sample>, hour: int)
    requires log != []
    ensures DayCount(log, LastHour(log)) + Dropped(log, hour) ==
        DayCount(log, hour) + Left(log, hour) + Ahead(log, hour)
    ensures hour >= LastHour(log) ==> Dropped(log, hour) == 0 == Ahead(log, hour)
    ensures hour < LastHour(log) ==> Left(log, hour) == 0
  {
    hide CountedIn;
    var first, n, last := FirstHour(log), |log|, LastHour(log);
    if hour >= last {
      DayMoves(first, log, last, hour);
      NoHours(first, log, n, hour - 23, last - 23);
      NoHours(first, log, n, hour + 1, last + 1);
    } else {
      NoHours(first, log, n, last - 23, hour - 23);
      CountSplits(first, log, n, hour - 23, last - 23, last + 1);
      CountSplits(first, log, n, hour - 23, hour + 1, last + 1);
    }
  }

  /**
   * A read does not advance the ring, and a window may end later than it is read: once there are
   * errors, the row counts exactly the 24 hours up to `hour`, whatever hour that is, if and only if
   * what those hours count and the ring has dropped is as much as what the ring still shows of hours
   * that have left the day or have not begun. A reader who is not behind the ring never sees fewer,
   * and sees exactly them if and only if no error has left.
   */
  lemma StaleHoursStay(row: Row, snapshots: seq<Snapshot>, metrics: seq<Metrics>, hour: int)
    requires RowShows(row, snapshots, metrics) && ErrorCounts(metrics) != []
    ensures var log := ErrorCounts(metrics);
            && row.errors24h + Dropped(log, hour) == DayCount(log, hour) + Left(log, hour) + Ahead(log, hour)
            && (row.errors24h == DayCount(log, hour) <==>
                  if hour >= LastHour(log) then NoneLeft(log, hour) else Dropped(log, hour) == Ahead(log, hour))
            && (hour >= LastHour(log) ==> row.errors24h >= DayCount(log, hour))
  {
    hide CountedIn;
    ErrorsArePositive(metrics);
    DaysDiffer(ErrorCounts(metrics), hour);
    if hour >= LastHour(ErrorCounts(metrics)) {
      DayLeft(ErrorCounts(metrics), hour);
    }
  }

  /** Five errors at hour 0, and one in a window that its sender's clock ends at hour 24. */
  const EARLY_WINDOW := [Metrics(Some(0), 5, 0, 0), Metrics(Some(24 * HOUR_MS), 1, 0, 0)]

  lemma EarlyLog()
    ensures ErrorCounts(EARLY_WINDOW) == [Sample(0, 5), Sample(24 * HOUR_MS, 1)]
  {
    var early := Metrics(Some(0), 5, 0, 0);
    MetricsGrow([], early);
    MetricsGrow([early], Metrics(Some(24 * HOUR_MS), 1, 0, 0));
    assert [] + [early] == [early] && [early] + [EARLY_WINDOW[1]] == EARLY_WINDOW;
  }

  lemma EarlyCounts()
    ensures var log := [Sample(0, 5), Sample(24 * HOUR_MS, 1)];
            DayCount(log, 24) == 1 && DayCount(log, 23) == 5 && LastHour(log) == 24
  {
    var log := [Sample(0, 5), Sample(24 * HOUR_MS, 1)];
    assert RingHour(0, log, 0) == 0 && RingHour(0, log, 1) == 0 && RingHour(0, log, 2) == 24;
    assert CountedIn(0, log, 1, 1, 25) == 0 && CountedIn(0, log, 2, 1, 25) == 1;
    assert CountedIn(0, log, 1, 0, 24) == 5 && CountedIn(0, log, 2, 0, 24) == 5;
  }

  /** Read at hour 23 the row shows one error, though the day holds five and none of them has left it. */
  lemma EarlyWindowHidesErrors(row: Row, snapshots: seq<Snapshot>)
    requires RowShows(row, snapshots, EARLY_WINDOW)
    ensures row.errors24h == 1 && DayCount(ErrorCounts(EARLY_WINDOW), 23) == 5
    ensures NoneLeft(ErrorCounts(EARLY_WINDOW), 23)
  {
    hide Scores, ErrorCounts, Latencies, Table, DayCount, LastHour, RingHour;
    EarlyLog();
    EarlyCounts();
  }

  lemma {:induction false} SumIsBounded(series: seq<int>, top: nat)
    requires forall i :: 0 <= i < |series| ==> 0 <= series[i] <= top
    ensures 0 <= SumOf(series) <= top * |series|
    ensures SumOf(series) == top * |series| <==> forall i :: 0 <= i < |series| ==> series[i] == top
  {
    if series != [] {
      SumIsBounded(series[..|series| - 1], top);
      assert top * |series| == top * (|series| - 1) + top;
    }
  }

  predicate IsScore(score: int) {
    0 <= score <= 100
  }

  lemma {:induction false} ScoresInRange(seen: seq<Snapshot>)
    requires forall k :: 0 <= k < |seen| ==> IsScore(seen[k].score)
    ensures forall k :: 0 <= k < |Scores(seen)| ==> IsScore(Scores(seen)[k].value)
  {
    if seen != [] {
      ScoresInRange(seen[..|seen| - 1]);
    }
  }

  /**
   * Snapshots with scores of 0 to 100, in any order and at any times, make a series of 0 to 100 and an
   * uptime of 0 to 100 percent, which is 100 exactly when every hour shows 100.
   */
  lemma UptimeIsPercent(row: Row, snapshots: seq<Snapshot>, metrics: seq<Metrics>)
    requires RowShows(row, snapshots, metrics)
    requires forall k :: 0 <= k < |snapshots| ==> IsScore(snapshots[k].score)
    ensures forall j :: 0 <= j < SLOTS ==> IsScore(row.series[j])
    ensures 0 <= row.uptime <= 100_00
    ensures row.uptime == 100_00 <==> forall j :: 0 <= j < SLOTS ==> row.series[j] == 100
  {
    hide Scores, Latencies, ErrorCounts, Table, SumOf;
    var scores := Scores(snapshots);
    ScoresInRange(snapshots);
    forall j | 0 <= j < SLOTS
      ensures IsScore(row.series[j])
    {
      if scores != [] {
        TableIsWorst(100, FirstHour(scores), scores, |scores|, LastHour(scores) - 23 + j);
      }
    }
    SumIsBounded(row.series, 100);
  }

  /** A fresh error shown by the last-window fallback is one whose window end does not parse. */
  lemma {:induction false} FallbackIsUntimed(metrics: seq<Metrics>)
    ensures ErrorCounts(metrics) == [] <==>
        forall k :: 0 <= k < |metrics| && metrics[k].errorCount > 0 ==> metrics[k].windowEnd.None?
  {
    if metrics != [] {
      FallbackIsUntimed(metrics[..|metrics| - 1]);
    }
  }
}
