/**
 * The rolling 24-hour rings behind a health row: an array of 24 one-hour slots advanced in place,
 * and the table by hour it stands for.
 */
module HealthRing {
  const SLOTS := 24
  const HOUR_MS := 3_600_000

  /** How a slot takes in one more value: error counts add up, scores and latencies keep the worst. */
  datatype Rule = Sum | Max

  /** One value and the time in milliseconds it carries. */
  datatype Sample = Sample(at: int, value: int)

  function HourOf(at: int): int {
    at / HOUR_MS
  }

  function Taken(rule: Rule, slot: int, value: int): int {
    match rule
    case Sum => slot + value
    case Max => if slot >= value then slot else value
  }

  /** The latest hour among `first` and the first n samples: the ring's own hour. */
  function RingHour(first: int, log: seq<Sample>, n: nat): int
    requires n <= |log|
  {
    if n == 0 then first
    else
      var before := RingHour(first, log, n - 1);
      if HourOf(log[n - 1].at) > before then HourOf(log[n - 1].at) else before
  }

  /** The hour sample k counts in: the ring's hour once it has arrived. */
  function CountedHour(first: int, log: seq<Sample>, k: nat): int
    requires k < |log|
  {
    RingHour(first, log, k + 1)
  }

  /**
   * The table by hour: sample k counts in the later of its own hour and the ring's hour on arrival;
   * `fill` is what every hour up to the first one starts from.
   */
  function Table(rule: Rule, fill: int, first: int, log: seq<Sample>, n: nat, hour: int): int
    requires n <= |log|
  {
    if n == 0 then (if hour <= first then fill else 0)
    else
      var before := Table(rule, fill, first, log, n - 1, hour);
      if hour == RingHour(first, log, n) then Taken(rule, before, log[n - 1].value) else before
  }

  /** The slot that holds the hour `age` hours before the ring's own. */
  function SlotOf(cursor: int, age: int): int
    requires 0 <= cursor < SLOTS && 0 <= age < SLOTS
  {
    (cursor - age) % SLOTS
  }

  lemma {:induction false} NothingAhead(rule: Rule, fill: int, first: int, log: seq<Sample>, n: nat, hour: int)
    requires n <= |log| && hour > RingHour(first, log, n)
    ensures Table(rule, fill, first, log, n, hour) == 0
  {
    if n > 0 {
      NothingAhead(rule, fill, first, log, n - 1, hour);
    } else {
      assert hour > first;
    }
  }

  lemma {:induction false} SameStart(rule: Rule, fill: int, first: int, log: seq<Sample>, next: Sample, n: nat,
      hour: int)
    requires n <= |log|
    ensures RingHour(first, log + [next], n) == RingHour(first, log, n)
    ensures Table(rule, fill, first, log + [next], n, hour) == Table(rule, fill, first, log, n, hour)
  {
    if n > 0 {
      SameStart(rule, fill, first, log, next, n - 1, hour);
    }
  }

  /** The slots hold the table's 24 hours up to `hour`, the newest under the cursor. */
  ghost predicate Shows(slots: seq<int>, cursor: int, rule: Rule, fill: int, first: int, log: seq<Sample>, hour: int) {
    && |slots| == SLOTS
    && 0 <= cursor < SLOTS
    && forall age :: 0 <= age < SLOTS ==>
         slots[SlotOf(cursor, age)] == Table(rule, fill, first, log, |log|, hour - age)
  }

  /** Clearing the slot after the cursor shows the next hour. */
  lemma HourPasses(slots: seq<int>, cursor: int, rule: Rule, fill: int, first: int, log: seq<Sample>, hour: int)
    requires Shows(slots, cursor, rule, fill, first, log, hour) && hour >= RingHour(first, log, |log|)
    ensures Shows(slots[(cursor + 1) % SLOTS := 0], (cursor + 1) % SLOTS, rule, fill, first, log, hour + 1)
  {
    var moved := (cursor + 1) % SLOTS;
    forall age | 0 <= age < SLOTS
      ensures slots[moved := 0][SlotOf(moved, age)] == Table(rule, fill, first, log, |log|, hour + 1 - age)
    {
      if age == 0 {
        NothingAhead(rule, fill, first, log, |log|, hour + 1);
      } else {
        assert SlotOf(moved, age) == SlotOf(cursor, age - 1) != moved;
        assert hour - (age - 1) == hour + 1 - age;
      }
    }
  }

  /** Once every slot is past the last sample, the slots show any later hour as well. */
  lemma DayPasses(slots: seq<int>, cursor: int, rule: Rule, fill: int, first: int, log: seq<Sample>, hour: int,
      later: int)
    requires Shows(slots, cursor, rule, fill, first, log, hour)
    requires hour - SLOTS >= RingHour(first, log, |log|) && later >= hour
    ensures Shows(slots, cursor, rule, fill, first, log, later)
  {
    forall age | 0 <= age < SLOTS
      ensures slots[SlotOf(cursor, age)] == Table(rule, fill, first, log, |log|, later - age)
    {
      NothingAhead(rule, fill, first, log, |log|, hour - age);
      NothingAhead(rule, fill, first, log, |log|, later - age);
    }
  }

  /** A value taken in under the cursor shows the longer log. */
  lemma SampleShows(slots: seq<int>, cursor: int, rule: Rule, fill: int, first: int, log: seq<Sample>, next: Sample,
      hour: int)
    requires Shows(slots, cursor, rule, fill, first, log, hour)
    requires hour == RingHour(first, log + [next], |log| + 1)
    ensures Shows(slots[cursor := Taken(rule, slots[cursor], next.value)], cursor, rule, fill, first, log + [next],
        hour)
  {
    var updated := slots[cursor := Taken(rule, slots[cursor], next.value)];
    assert SlotOf(cursor, 0) == cursor;
    forall age | 0 <= age < SLOTS
      ensures updated[SlotOf(cursor, age)] == Table(rule, fill, first, log + [next], |log + [next]|, hour - age)
    {
      SameStart(rule, fill, first, log, next, |log|, hour - age);
      assert age > 0 ==> SlotOf(cursor, age) != cursor;
    }
  }

  // ------------------------------------------------------------------------------------------
  // What the table means.

  /** The total of the first n values that count in one of the hours `from` up to but not including `to`. */
  function CountedIn(first: int, log: seq<Sample>, n: nat, from: int, to: int): int
    requires n <= |log|
  {
    if n == 0 then 0
    else
      CountedIn(first, log, n - 1, from, to) +
      (if from <= RingHour(first, log, n) < to then log[n - 1].value else 0)
  }

  /** A time falls in its hour, before the epoch as after it. */
  lemma HourHolds(at: int, hour: int)
    ensures HourOf(at) == hour <==> 3_600_000 * hour <= at < 3_600_000 * hour + 3_600_000
  {
  }

  /** The first n values added up, whatever their hours. */
  function AddedUp(log: seq<Sample>, n: nat): int
    requires n <= |log|
  {
    if n == 0 then 0 else AddedUp(log, n - 1) + log[n - 1].value
  }

  /** Every value counts in one hour: hours from the first to the ring's own count all there is. */
  lemma {:induction false} AllCounted(first: int, log: seq<Sample>, n: nat, from: int, to: int)
    requires n <= |log| && from <= first && RingHour(first, log, n) < to
    ensures CountedIn(first, log, n, from, to) == AddedUp(log, n)
  {
    if n > 0 {
      RingHourIsLatest(first, log, n);
      AllCounted(first, log, n - 1, from, to);
    }
  }

  /** `len` hours of the summing table from `from` on, added up. */
  function Window(first: int, log: seq<Sample>, n: nat, from: int, len: nat): int
    requires n <= |log|
  {
    if len == 0 then 0
    else Window(first, log, n, from, len - 1) + Table(Sum, 0, first, log, n, from + len - 1)
  }

  lemma {:induction false} WindowSplits(first: int, log: seq<Sample>, n: nat, from: int, a: nat, b: nat)
    requires n <= |log|
    ensures Window(first, log, n, from, a + b) == Window(first, log, n, from, a) + Window(first, log, n, from + a, b)
  {
    if b > 0 {
      WindowSplits(first, log, n, from, a, b - 1);
      assert from + a + b - 1 == from + (a + b) - 1;
    }
  }

  lemma {:induction false} WindowTakes(first: int, log: seq<Sample>, n: nat, from: int, len: nat)
    requires 0 < n <= |log|
    ensures Window(first, log, n, from, len) ==
            Window(first, log, n - 1, from, len) +
            (if from <= RingHour(first, log, n) < from + len then log[n - 1].value else 0)
  {
    if len > 0 {
      WindowTakes(first, log, n, from, len - 1);
    }
  }

  lemma {:induction false} NothingYet(first: int, log: seq<Sample>, from: int, len: nat)
    ensures Window(first, log, 0, from, len) == 0
  {
    if len > 0 {
      NothingYet(first, log, from, len - 1);
    }
  }

  /** The hours of the summing table add up to the values counted in them, each once. */
  lemma {:induction false} WindowCounts(first: int, log: seq<Sample>, n: nat, from: int, len: nat)
    requires n <= |log|
    ensures Window(first, log, n, from, len) == CountedIn(first, log, n, from, from + len)
  {
    if n == 0 {
      NothingYet(first, log, from, len);
    } else {
      WindowTakes(first, log, n, from, len);
      WindowCounts(first, log, n - 1, from, len);
    }
  }

  /** The ring's hour is the latest it has seen. */
  lemma {:induction false} RingHourIsLatest(first: int, log: seq<Sample>, n: nat)
    requires n <= |log|
    ensures RingHour(first, log, n) >= first
    ensures forall k :: 0 <= k < n ==> RingHour(first, log, n) >= HourOf(log[k].at)
    ensures RingHour(first, log, n) == first || exists k :: 0 <= k < n && RingHour(first, log, n) == HourOf(log[k].at)
  {
    if n > 0 {
      RingHourIsLatest(first, log, n - 1);
      assert RingHour(first, log, n) == HourOf(log[n - 1].at) || RingHour(first, log, n) == RingHour(first, log, n - 1);
    }
  }

  /** A sample counts in its own hour exactly when nothing later came before it. */
  lemma OwnHourUnlessLate(first: int, log: seq<Sample>, k: nat)
    requires k < |log|
    ensures CountedHour(first, log, k) == HourOf(log[k].at) <==>
            first <= HourOf(log[k].at) && forall i :: 0 <= i < k ==> HourOf(log[i].at) <= HourOf(log[k].at)
  {
    RingHourIsLatest(first, log, k);
    RingHourIsLatest(first, log, k + 1);
  }

  /** The worst-case table holds, for each hour, the largest of its starting value and the values counted in it. */
  lemma {:induction false} TableIsWorst(fill: int, first: int, log: seq<Sample>, n: nat, hour: int)
    requires n <= |log|
    ensures var worst := Table(Max, fill, first, log, n, hour);
            var start := if hour <= first then fill else 0;
            && worst >= start
            && (forall k :: 0 <= k < n && CountedHour(first, log, k) == hour ==> worst >= log[k].value)
            && (worst == start || exists k :: 0 <= k < n && CountedHour(first, log, k) == hour && worst == log[k].value)
  {
    if n > 0 {
      TableIsWorst(fill, first, log, n - 1, hour);
      var worst, before := Table(Max, fill, first, log, n, hour), Table(Max, fill, first, log, n - 1, hour);
      assert CountedHour(first, log, n - 1) == RingHour(first, log, n);
      assert worst == before || (CountedHour(first, log, n - 1) == hour && worst == log[n - 1].value);
    }
  }

  class Ring {
    const rule: Rule
    const fill: int
    const buckets: array<int>
    var bucketStart: int
    var cursor: int
    ghost const first: int
    ghost var log: seq<Sample>

    /** The ring stands at `hour`, at or past the last hour it took a value in. */
    ghost predicate At(hour: int)
      reads this, buckets
    {
      && bucketStart == hour * HOUR_MS
      && hour >= Hour()
      && Shows(buckets[..], cursor, rule, fill, first, log, hour)
    }

    ghost function Hour(): int
      reads this
    {
      RingHour(first, log, |log|)
    }

    ghost function TableAt(hour: int): int
      reads this
    {
      Table(rule, fill, first, log, |log|, hour)
    }

    /** The ring stands at the latest hour it has seen. */
    ghost predicate Valid()
      reads this, buckets
    {
      At(Hour())
    }

    constructor (rule: Rule, fill: int, now: int)
      ensures Valid() && fresh(buckets)
      ensures log == [] && first == HourOf(now)
      ensures this.rule == rule && this.fill == fill
    {
      this.rule := rule;
      this.fill := fill;
      first := HourOf(now);
      log := [];
      bucketStart := HourOf(now) * HOUR_MS;
      cursor := 0;
      buckets := new int[SLOTS](_ => fill);
    }

    /** Moves the cursor on, clearing one slot for each hour passed and never more than all of them. */
    method Advance(now: int)
      requires Valid()
      modifies this`cursor, this`bucketStart, buckets
      ensures At(if HourOf(now) > Hour() then HourOf(now) else Hour())
    {
      ghost var was, target := Hour(), HourOf(now);
      var currentBucketStart := HourOf(now) * HOUR_MS;
      var hours := (currentBucketStart - bucketStart) / HOUR_MS;
      assert hours == target - was;
      if hours <= 0 {
        return;
      }
      if hours > SLOTS {
        hours := SLOTS;
      }
      var i := 0;
      while i < hours
        invariant 0 <= i <= hours
        invariant Shows(buckets[..], cursor, rule, fill, first, log, was + i)
      {
        HourPasses(buckets[..], cursor, rule, fill, first, log, was + i);
        ghost var slots := buckets[..];
        cursor := (cursor + 1) % SLOTS;
        buckets[cursor] := 0;
        assert buckets[..] == slots[cursor := 0];
        i := i + 1;
      }
      bucketStart := currentBucketStart;
      if target != was + hours {
        DayPasses(buckets[..], cursor, rule, fill, first, log, was + hours, target);
      }
    }

    /** Takes one value in at its own hour, or at the ring's when that is later. */
    method Put(at: int, value: int)
      requires Valid()
      modifies this, buckets
      ensures Valid()
      ensures log == old(log) + [Sample(at, value)]
    {
      Advance(at);
      ghost var next := Sample(at, value);
      ghost var slots, hour := buckets[..], if HourOf(at) > Hour() then HourOf(at) else Hour();
      SameStart(rule, fill, first, log, next, |log|, hour);
      SampleShows(slots, cursor, rule, fill, first, log, next, hour);
      buckets[cursor] := Taken(rule, buckets[cursor], value);
      assert buckets[..] == slots[cursor := Taken(rule, slots[cursor], value)];
      log := log + [next];
    }

    /** The slots from the oldest hour to the ring's own. */
    method Ordered() returns (series: seq<int>)
      requires Valid()
      ensures |series| == SLOTS
      ensures forall j :: 0 <= j < SLOTS ==> series[j] == TableAt(Hour() - 23 + j)
    {
      series := [];
      var i := 1;
      while i <= SLOTS
        invariant 1 <= i <= SLOTS + 1 && |series| == i - 1
        invariant forall j :: 0 <= j < i - 1 ==> series[j] == TableAt(Hour() - 23 + j)
      {
        assert (cursor + i) % SLOTS == SlotOf(cursor, SLOTS - i);
        series := series + [buckets[(cursor + i) % SLOTS]];
        i := i + 1;
      }
    }

    /** All slots added up: what was counted in the 24 hours that end with the ring's own. */
    method Total() returns (total: int)
      requires Valid() && rule == Sum && fill == 0
      ensures total == CountedIn(first, log, |log|, Hour() - 23, Hour() + 1)
    {
      total := 0;
      ghost var n, oldest := |log|, Hour() - cursor;
      var i := 0;
      while i < SLOTS
        invariant 0 <= i <= SLOTS
        invariant total == if i <= cursor + 1 then Window(first, log, n, oldest, i)
                           else Window(first, log, n, oldest, cursor + 1) +
                                Window(first, log, n, Hour() - 23, i - cursor - 1)
      {
        ghost var age := if i <= cursor then cursor - i else cursor + SLOTS - i;
        assert SlotOf(cursor, age) == i;
        assert buckets[..][SlotOf(cursor, age)] == TableAt(Hour() - age);
        total := total + buckets[i];
        i := i + 1;
      }
      WindowSplits(first, log, n, Hour() - 23, 23 - cursor, cursor + 1);
      WindowCounts(first, log, n, Hour() - 23, SLOTS);
    }
  }
}
