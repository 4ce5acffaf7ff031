/** Business numbers: one counter for each prefix and year, and the text a minted number reads as. */
module NumberSequence {
  import opened Decimal

  datatype Series = Series(prefix: string, year: nat)

  /** The `business_number_sequences` table. */
  type Counters = map<Series, nat>

  function LastValue(counters: Counters, series: Series): nat {
    if series in counters then counters[series] else 0
  }

  function Formatted(series: Series, value: nat): string {
    series.prefix + "-" + Digits(series.year) + "-" + PadStart(Digits(value), 5)
  }

  class BusinessNumbers {
    var counters: Counters

    constructor ()
      ensures counters == map[]
    {
      counters := map[];
    }

    /** Inserts the counter at 1, or adds one to it. */
    method Upsert(series: Series)
      modifies this
      ensures counters == old(counters)[series := LastValue(old(counters), series) + 1]
    {
      if series in counters {
        counters := counters[series := counters[series] + 1];
      } else {
        counters := counters[series := 1];
      }
    }

    /** One mint with nothing in between: Postgres reads in the statement that adds, SQLite in a second one. */
    method NextBusinessNumber(series: Series, isPostgres: bool) returns (number: string, value: nat)
      modifies this
      ensures counters == old(counters)[series := LastValue(old(counters), series) + 1]
      ensures value == LastValue(old(counters), series) + 1 && number == Formatted(series, value)
    {
      if isPostgres {
        value := if series in counters then counters[series] + 1 else 1;
        Upsert(series);
      } else {
        Upsert(series);
        value := counters[series];
      }
      number := series.prefix + "-" + Digits(series.year) + "-" + PadStart(Digits(value), 5);
    }
  }

  lemma NoHyphenInDigits(s: string)
    requires AllDigits(s)
    ensures '-' !in s
  {
  }

  /** A number's text tells its prefix, year and value, also beyond 99999 and with hyphens in the prefix. */
  lemma FormattedInjective(s: Series, m: nat, t: Series, n: nat)
    requires Formatted(s, m) == Formatted(t, n)
    ensures s == t && m == n
  {
    NoHyphenInDigits(PadStart(Digits(m), 5));
    NoHyphenInDigits(PadStart(Digits(n), 5));
    SplitAtLastHyphen(s.prefix + "-" + Digits(s.year), PadStart(Digits(m), 5),
                      t.prefix + "-" + Digits(t.year), PadStart(Digits(n), 5));
    NoHyphenInDigits(Digits(s.year));
    NoHyphenInDigits(Digits(t.year));
    SplitAtLastHyphen(s.prefix, Digits(s.year), t.prefix, Digits(t.year));
    PaddedInjective(m, n, 5);
    ReadsDigits(s.year);
    ReadsDigits(t.year);
  }

  lemma {:induction false} NoLeadingZero(n: nat)
    requires n > 0
    ensures Digits(n)[0] != '0'
  {
    if n >= 10 {
      NoLeadingZero(n / 10);
    }
  }

  /** A number's text: prefix, year and value between hyphens, the value in five digits or in as many as it has. */
  lemma NumberReads(series: Series, value: nat) returns (year: string, number: string)
    ensures Formatted(series, value) == series.prefix + "-" + year + "-" + number
    ensures AllDigits(year) && ReadDigits(year) == series.year && (series.year > 0 ==> year[0] != '0')
    ensures AllDigits(number) && ReadDigits(number) == value && |number| >= 5
    ensures |number| > 5 ==> number[0] != '0'
  {
    year, number := Digits(series.year), PadStart(Digits(value), 5);
    ReadsDigits(series.year);
    ReadsDigits(value);
    ReadsPadded(Digits(value), 5);
    if series.year > 0 { NoLeadingZero(series.year); }
    if value > 0 { NoLeadingZero(value); }
  }

  // ------------------------------------------------------------------------------------------
  // Atomic mints, in whatever order the callers get their turn.

  /** The counters after the first n mints. */
  function AfterMints(mints: seq<Series>, n: nat): Counters
    requires n <= |mints|
  {
    if n == 0 then map[]
    else
      var before := AfterMints(mints, n - 1);
      before[mints[n - 1] := LastValue(before, mints[n - 1]) + 1]
  }

  /** The value the k-th mint returns. */
  function Minted(mints: seq<Series>, k: nat): nat
    requires k < |mints|
  {
    LastValue(AfterMints(mints, k), mints[k]) + 1
  }

  /** How many of the first n mints are for the series. */
  function CountOf(mints: seq<Series>, n: nat, series: Series): nat
    requires n <= |mints|
  {
    if n == 0 then 0 else CountOf(mints, n - 1, series) + (if mints[n - 1] == series then 1 else 0)
  }

  lemma {:induction false} CounterCounts(mints: seq<Series>, n: nat, series: Series)
    requires n <= |mints|
    ensures LastValue(AfterMints(mints, n), series) == CountOf(mints, n, series)
  {
    if n > 0 {
      CounterCounts(mints, n - 1, series);
      CounterCounts(mints, n - 1, mints[n - 1]);
    }
  }

  lemma {:induction false} CountGrows(mints: seq<Series>, m: nat, n: nat, series: Series)
    requires m <= n <= |mints|
    ensures CountOf(mints, m, series) <= CountOf(mints, n, series)
    decreases n
  {
    if m < n {
      CountGrows(mints, m, n - 1, series);
    }
  }

  /** Every value up to the count was minted, by one mint. */
  lemma {:induction false} MintOf(mints: seq<Series>, n: nat, series: Series, value: int) returns (k: nat)
    requires n <= |mints| && 0 < value <= CountOf(mints, n, series)
    ensures k < n && mints[k] == series && Minted(mints, k) == value
  {
    CounterCounts(mints, n - 1, series);
    if value <= CountOf(mints, n - 1, series) {
      k := MintOf(mints, n - 1, series, value);
    } else {
      k := n - 1;
    }
  }

  /** Of two mints of a series the later one returns the larger value. */
  lemma MintsAscend(mints: seq<Series>, j: nat, k: nat)
    requires j < k < |mints| && mints[j] == mints[k]
    ensures 0 < Minted(mints, j) < Minted(mints, k)
  {
    CounterCounts(mints, j, mints[j]);
    CounterCounts(mints, k, mints[k]);
    CountGrows(mints, j + 1, k, mints[k]);
  }

  /** No two mints return one text. */
  lemma NeverMintedTwice(mints: seq<Series>, j: nat, k: nat)
    requires j < k < |mints|
    ensures Formatted(mints[j], Minted(mints, j)) != Formatted(mints[k], Minted(mints, k))
  {
    if Formatted(mints[j], Minted(mints, j)) == Formatted(mints[k], Minted(mints, k)) {
      FormattedInjective(mints[j], Minted(mints, j), mints[k], Minted(mints, k));
      MintsAscend(mints, j, k);
    }
  }

  /** The values minted for a series are 1, 2, … up to its count, with none left out. */
  lemma MintedWithoutGaps(mints: seq<Series>, series: Series, value: nat)
    ensures 0 < value <= CountOf(mints, |mints|, series) <==>
            exists k :: 0 <= k < |mints| && mints[k] == series && Minted(mints, k) == value
  {
    forall k | 0 <= k < |mints| && mints[k] == series
      ensures 0 < Minted(mints, k) <= CountOf(mints, |mints|, series)
    {
      CounterCounts(mints, k, series);
      CountGrows(mints, k + 1, |mints|, series);
    }
    if 0 < value <= CountOf(mints, |mints|, series) {
      var k := MintOf(mints, |mints|, series, value);
    }
  }

  // ------------------------------------------------------------------------------------------
  // The two statements of the SQLite path, interleaved.

  datatype Statement = Add(series: Series) | Read(series: Series)

  /** How many of the statements from `a` up to but not including `b` add to the series. */
  function Adds(run: seq<Statement>, a: nat, b: nat, series: Series): nat
    requires a <= b <= |run|
    decreases b
  {
    if a == b then 0 else Adds(run, a, b - 1, series) + (if run[b - 1] == Add(series) then 1 else 0)
  }

  /** The counter a statement finds: what all statements before it have added. */
  function Found(run: seq<Statement>, at: nat, series: Series): nat
    requires at <= |run|
  {
    Adds(run, 0, at, series)
  }

  lemma {:induction false} AddsSplit(run: seq<Statement>, a: nat, b: nat, c: nat, series: Series)
    requires a <= b <= c <= |run|
    ensures Adds(run, a, c, series) == Adds(run, a, b, series) + Adds(run, b, c, series)
    decreases c
  {
    if b < c {
      AddsSplit(run, a, b, c - 1, series);
    }
  }

  lemma {:induction false} NoAdds(run: seq<Statement>, a: nat, b: nat, series: Series)
    requires a <= b <= |run|
    ensures Adds(run, a, b, series) == 0 <==> forall i :: a <= i < b ==> run[i] != Add(series)
    decreases b
  {
    if a < b {
      NoAdds(run, a, b - 1, series);
    }
  }

  /** A mint reads its own number back exactly when no other mint of the series added in between. */
  lemma ReadsOwnNumber(run: seq<Statement>, add: nat, read: nat, series: Series)
    requires add < read < |run| && run[add] == Add(series) && run[read] == Read(series)
    ensures Found(run, read, series) == Found(run, add, series) + 1 <==>
            forall i :: add < i < read ==> run[i] != Add(series)
  {
    AddsSplit(run, 0, add + 1, read, series);
    NoAdds(run, add + 1, read, series);
  }

  /** Two reads return one number exactly when nothing adds between them. */
  lemma SameNumberTwice(run: seq<Statement>, first: nat, second: nat, series: Series)
    requires first < second < |run| && run[first] == Read(series) && run[second] == Read(series)
    ensures Formatted(series, Found(run, first, series)) == Formatted(series, Found(run, second, series)) <==>
            forall i :: first < i < second ==> run[i] != Add(series)
  {
    AddsSplit(run, 0, first, second, series);
    NoAdds(run, first, second, series);
    if Formatted(series, Found(run, first, series)) == Formatted(series, Found(run, second, series)) {
      FormattedInjective(series, Found(run, first, series), series, Found(run, second, series));
    }
  }

  /** Two crossing mints on that path: both are given number 2, and nobody number 1. */
  lemma CrossingMints(series: Series)
    ensures var run := [Add(series), Add(series), Read(series), Read(series)];
            && Formatted(series, Found(run, 2, series)) == Formatted(series, Found(run, 3, series))
            && forall at :: 2 <= at < 4 ==> Formatted(series, Found(run, at, series)) != Formatted(series, 1)
  {
    var run := [Add(series), Add(series), Read(series), Read(series)];
    assert Adds(run, 0, 2, series) == 2 && Adds(run, 0, 3, series) == 2;
    if Formatted(series, 2) == Formatted(series, 1) {
      FormattedInjective(series, 2, series, 1);
    }
  }
}
