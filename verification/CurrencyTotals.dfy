/** Totals by currency: added, netted and clamped currency by currency, never across. */
module CurrencyTotals {

  type Totals = map<string, int>

  function Get(totals: Totals, currency: string): int {
    if currency in totals then totals[currency] else 0
  }

  function Added(a: Totals, b: Totals): Totals {
    map c | c in a.Keys + b.Keys :: Get(a, c) + Get(b, c)
  }

  function Netted(a: Totals, b: Totals): Totals {
    map c | c in a.Keys + b.Keys :: Get(a, c) - Get(b, c)
  }

  /** The amounts of one currency among the first n rows. */
  function SumOf(rows: seq<(int, string)>, n: nat, currency: string): int
    requires n <= |rows|
  {
    if n == 0 then 0 else SumOf(rows, n - 1, currency) + (if rows[n - 1].1 == currency then rows[n - 1].0 else 0)
  }

  lemma {:induction false} SumSame(rows: seq<(int, string)>, longer: seq<(int, string)>, n: nat, c: string)
    requires n <= |rows| && rows <= longer
    ensures SumOf(longer, n, c) == SumOf(rows, n, c)
  {
    if n > 0 {
      SumSame(rows, longer, n - 1, c);
    }
  }

  /** The sum of two lists of rows is that of both; one row counts in its own currency alone. */
  lemma {:induction false} SumsSplit(a: seq<(int, string)>, b: seq<(int, string)>, amount: int, currency: string,
      c: string)
    ensures SumOf(a + b, |a + b|, c) == SumOf(a, |a|, c) + SumOf(b, |b|, c)
    ensures SumOf([(amount, currency)], 1, c) == if c == currency then amount else 0
  {
    if b == [] {
      assert a + b == a;
    } else {
      var n := |b| - 1;
      SumsSplit(a, b[..n], amount, currency, c);
      assert (a + b)[|a + b| - 1] == b[n];
      SumSame(a + b[..n], a + b, |a| + n, c);
      SumSame(b[..n], b, n, c);
    }
  }

  /** Rows of one currency combine, rows of different currencies never do. */
  method SumByCurrency(rows: seq<(int, string)>) returns (totals: Totals)
    ensures forall c :: Get(totals, c) == SumOf(rows, |rows|, c)
    ensures forall c :: c in totals <==> exists i :: 0 <= i < |rows| && rows[i].1 == c
  {
    totals := map[];
    var i := 0;
    while i < |rows|
      invariant 0 <= i <= |rows|
      invariant forall c :: Get(totals, c) == SumOf(rows, i, c)
      invariant forall c :: c in totals <==> exists j :: 0 <= j < i && rows[j].1 == c
    {
      var (amount, currency) := rows[i];
      totals := totals[currency := Get(totals, currency) + amount];
      i := i + 1;
    }
  }

  lemma AddedIs(a: Totals, b: Totals, out: Totals)
    requires forall c :: c in out <==> c in a || c in b
    requires forall c :: c in out ==> out[c] == Get(a, c) + Get(b, c)
    ensures out == Added(a, b)
  {
  }

  lemma NettedIs(a: Totals, b: Totals, out: Totals)
    requires forall c :: c in out <==> c in a || c in b
    requires forall c :: c in out ==> out[c] == Get(a, c) - Get(b, c)
    ensures out == Netted(a, b)
  {
  }

  method AddByCurrency(a: Totals, b: Totals) returns (out: Totals)
    ensures out == Added(a, b)
  {
    hide Added;
    out := a;
    var left := b.Keys;
    while left != {}
      invariant left <= b.Keys
      invariant forall c :: c in out <==> c in a || (c in b && c !in left)
      invariant forall c :: c in out ==> out[c] == Get(a, c) + (if c in left then 0 else Get(b, c))
      decreases left
    {
      var currency :| currency in left;
      out := out[currency := Get(out, currency) + b[currency]];
      left := left - {currency};
    }
    AddedIs(a, b, out);
  }

  method NetByCurrency(a: Totals, b: Totals) returns (out: Totals)
    ensures out == Netted(a, b)
  {
    hide Netted;
    var left := a.Keys + b.Keys;
    out := map[];
    while left != {}
      invariant forall c :: c in left ==> c in a || c in b
      invariant forall c :: c in out <==> (c in a || c in b) && c !in left
      invariant forall c :: c in out ==> out[c] == Get(a, c) - Get(b, c)
      decreases left
    {
      var currency :| currency in left;
      out := out[currency := Get(a, currency) - Get(b, currency)];
      left := left - {currency};
    }
    NettedIs(a, b, out);
  }

  function Clamped(totals: Totals): Totals {
    map c | c in totals :: if totals[c] > 0 then totals[c] else 0
  }

  /** Netting undoes adding, and the clamped net is what `a` exceeds `b` by. */
  lemma NetUndoesAdd(a: Totals, b: Totals, currency: string)
    ensures Get(Netted(Added(a, b), b), currency) == Get(a, currency)
    ensures Get(Added(Netted(a, b), b), currency) == Get(a, currency)
    ensures Get(Clamped(Netted(a, b)), currency) ==
            if Get(a, currency) > Get(b, currency) then Get(a, currency) - Get(b, currency) else 0
  {
  }
}
