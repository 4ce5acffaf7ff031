/** The monthly cashflow: paid and outstanding invoices in, expenses and labour out, currency by currency. */
module Cashflow {
  import opened Wrappers
  import opened CurrencyTotals
  import Invoices
  import Money

  /** Dates are counted in months since year zero: no more of them is ever looked at. */
  datatype InvoiceRow = InvoiceRow(
    status: Invoices.Status,
    amount: nat,
    paid: nat,
    currency: string,
    issuedOn: int,
    dueOn: int,
    paidAt: Option<int>)

  datatype ExpenseRow = ExpenseRow(rejected: bool, amount: nat, currency: string, incurredOn: int)

  datatype TimeRow = TimeRow(minutes: nat, hourlyRate: nat, currency: string, workDate: int)

  /** Money that moves in one month. */
  datatype Entry = Entry(month: int, currency: string, amount: int)

  /** One column of the buckets each, oldest month first, and the totals over the window; outflow includes labour. */
  datatype Report = Report(
    inflow: seq<Totals>,
    outflow: seq<Totals>,
    laborCost: seq<Totals>,
    net: seq<Totals>,
    cumulative: seq<Totals>,
    totalInflow: Totals,
    totalOutflow: Totals,
    totalNet: Totals)

  predicate IsLive(invoice: InvoiceRow) {
    !invoice.status.Draft? && !invoice.status.Cancelled?
  }

  /** What a live invoice brings in: what has been paid when it was, and the rest when it is due. */
  function InvoiceEntries(invoice: InvoiceRow): seq<Entry> {
    if !IsLive(invoice) then []
    else
      var rest := if invoice.amount > invoice.paid then invoice.amount - invoice.paid else 0;
      (if invoice.paid > 0 then
         [Entry(invoice.paidAt.Or(Some(invoice.issuedOn)).value, invoice.currency, invoice.paid)]
       else []) +
      [Entry(invoice.dueOn, invoice.currency, rest)]
  }

  function Inflows(invoices: seq<InvoiceRow>, n: nat): seq<Entry>
    requires n <= |invoices|
  {
    if n == 0 then [] else Inflows(invoices, n - 1) + InvoiceEntries(invoices[n - 1])
  }

  function Expenses(expenses: seq<ExpenseRow>, n: nat): seq<Entry>
    requires n <= |expenses|
  {
    if n == 0 then []
    else
      var last := expenses[n - 1];
      Expenses(expenses, n - 1) + (if last.rejected then [] else [Entry(last.incurredOn, last.currency, last.amount)])
  }

  function Labour(time: seq<TimeRow>, n: nat): seq<Entry>
    requires n <= |time|
  {
    if n == 0 then []
    else
      var last := time[n - 1];
      Labour(time, n - 1) + [Entry(last.workDate, last.currency, Money.Round(last.minutes * last.hourlyRate, 60))]
  }

  /** The bucket of a month: all that lies before the window goes to the first, what lies after it to none. */
  function SlotOf(start: int, months: nat, month: int): Option<nat>
    requires months > 0
  {
    if month < start then Some(0)
    else if month < start + months then Some(month - start)
    else None
  }

  /** What the entries bring to one bucket in one currency. */
  function SumIn(entries: seq<Entry>, start: int, months: nat, k: int, currency: string): int
    requires months > 0
  {
    if entries == [] then 0
    else
      var last := entries[|entries| - 1];
      SumIn(entries[..|entries| - 1], start, months, k, currency) +
      (if SlotOf(start, months, last.month) == Some(k) && last.currency == currency then last.amount else 0)
  }

  lemma SumGrows(entries: seq<Entry>, next: Entry, start: int, months: nat, k: int, currency: string)
    requires months > 0
    ensures SumIn(entries + [next], start, months, k, currency) ==
            SumIn(entries, start, months, k, currency) +
            (if SlotOf(start, months, next.month) == Some(k) && next.currency == currency then next.amount else 0)
  {
    assert (entries + [next])[..|entries|] == entries;
  }

  /** Net movement of the first n buckets. */
  function NetUpTo(inflows: seq<Entry>, outflows: seq<Entry>, start: int, months: nat, n: nat, currency: string): int
    requires months > 0
  {
    if n == 0 then 0
    else
      NetUpTo(inflows, outflows, start, months, n - 1, currency) +
      SumIn(inflows, start, months, n - 1, currency) - SumIn(outflows, start, months, n - 1, currency)
  }

  /** The totals of each bucket are what the entries bring to it. */
  ghost predicate Holds(column: seq<Totals>, entries: seq<Entry>, start: int) {
    |column| > 0 &&
    forall k, c :: 0 <= k < |column| ==> Get(column[k], c) == SumIn(entries, start, |column|, k, c)
  }

  /** Adds one entry to its bucket, if it has one. */
  method Add(column: array<Totals>, start: int, entry: Entry, ghost entries: seq<Entry>)
    requires Holds(column[..], entries, start)
    modifies column
    ensures Holds(column[..], entries + [entry], start)
  {
    var target := SlotOf(start, column.Length, entry.month);
    ghost var was := column[..];
    if target.Some? {
      var totals := column[target.value];
      column[target.value] := totals[entry.currency := Get(totals, entry.currency) + entry.amount];
    }
    forall k, c | 0 <= k < column.Length
      ensures Get(column[k], c) == SumIn(entries + [entry], start, column.Length, k, c)
    {
      SumGrows(entries, entry, start, column.Length, k, c);
      assert Get(was[k], c) == SumIn(entries, start, column.Length, k, c);
    }
  }

  lemma NothingAdded(column: seq<Totals>, start: int)
    requires |column| > 0 && forall k :: 0 <= k < |column| ==> column[k] == map[]
    ensures Holds(column, [], start)
  {
  }

  method AddInvoices(invoices: seq<InvoiceRow>, start: int, inflow: array<Totals>)
    requires Holds(inflow[..], [], start)
    modifies inflow
    ensures Holds(inflow[..], Inflows(invoices, |invoices|), start)
  {
    hide Holds;
    var i := 0;
    while i < |invoices|
      invariant 0 <= i <= |invoices|
      invariant Holds(inflow[..], Inflows(invoices, i), start)
    {
      ghost var entries := Inflows(invoices, i);
      var invoice := invoices[i];
      if invoice.status != Invoices.Draft && invoice.status != Invoices.Cancelled {
        if invoice.paid > 0 {
          var paidOn := if invoice.paidAt.Some? then invoice.paidAt.value else invoice.issuedOn;
          Add(inflow, start, Entry(paidOn, invoice.currency, invoice.paid), entries);
          entries := entries + [Entry(paidOn, invoice.currency, invoice.paid)];
        }
        var outstanding := if invoice.amount > invoice.paid then invoice.amount - invoice.paid else 0;
        Add(inflow, start, Entry(invoice.dueOn, invoice.currency, outstanding), entries);
        entries := entries + [Entry(invoice.dueOn, invoice.currency, outstanding)];
      }
      assert entries == Inflows(invoices, i) + InvoiceEntries(invoice);
      i := i + 1;
    }
  }

  method AddExpenses(expenses: seq<ExpenseRow>, start: int, outflow: array<Totals>)
    requires Holds(outflow[..], [], start)
    modifies outflow
    ensures Holds(outflow[..], Expenses(expenses, |expenses|), start)
  {
    hide Holds;
    var i := 0;
    while i < |expenses|
      invariant 0 <= i <= |expenses|
      invariant Holds(outflow[..], Expenses(expenses, i), start)
    {
      if !expenses[i].rejected {
        Add(outflow, start, Entry(expenses[i].incurredOn, expenses[i].currency, expenses[i].amount),
            Expenses(expenses, i));
      }
      assert expenses[i].rejected ==> Expenses(expenses, i + 1) == Expenses(expenses, i);
      i := i + 1;
    }
  }

  method AddLabour(time: seq<TimeRow>, start: int, laborCost: array<Totals>)
    requires Holds(laborCost[..], [], start)
    modifies laborCost
    ensures Holds(laborCost[..], Labour(time, |time|), start)
  {
    hide Holds;
    var i := 0;
    while i < |time|
      invariant 0 <= i <= |time|
      invariant Holds(laborCost[..], Labour(time, i), start)
    {
      var cost := Money.Round(time[i].minutes * time[i].hourlyRate, 60);
      Add(laborCost, start, Entry(time[i].workDate, time[i].currency, cost), Labour(time, i));
      i := i + 1;
    }
  }

  /** What a month's columns show: what goes out in it, its net, and the net of all months up to it. */
  ghost predicate MonthIs(out: Totals, net: Totals, cumulative: Totals, ins: seq<Entry>, outs: seq<Entry>, start: int,
      months: nat, k: nat)
    requires months > 0
  {
    forall c ::
      && Get(out, c) == SumIn(outs, start, months, k, c)
      && Get(net, c) == SumIn(ins, start, months, k, c) - SumIn(outs, start, months, k, c)
      && Get(cumulative, c) == NetUpTo(ins, outs, start, months, k + 1, c)
  }

  lemma MonthCloses(inflow: Totals, expenses: Totals, labor: Totals, running: Totals,
                    ins: seq<Entry>, exps: seq<Entry>, labs: seq<Entry>, start: int, months: nat, k: nat)
    requires months > 0
    requires forall c :: Get(inflow, c) == SumIn(ins, start, months, k, c)
    requires forall c :: Get(expenses, c) == SumIn(exps, start, months, k, c)
    requires forall c :: Get(labor, c) == SumIn(labs, start, months, k, c)
    requires forall c :: Get(running, c) == NetUpTo(ins, exps + labs, start, months, k, c)
    ensures var out := Added(expenses, labor);
            var net := Netted(inflow, out);
            var cumulative := Added(running, net);
            && MonthIs(out, net, cumulative, ins, exps + labs, start, months, k)
            && forall c :: Get(cumulative, c) == NetUpTo(ins, exps + labs, start, months, k + 1, c)
  {
    var out := Added(expenses, labor);
    forall c
      ensures Get(out, c) == SumIn(exps + labs, start, months, k, c)
    {
      SumsJoin(exps, labs, start, months, k, c);
    }
  }

  /** Labour joins the outflow, and each month's net the running total. */
  method Close(start: int, inflow: seq<Totals>, expenses: seq<Totals>, labor: seq<Totals>,
               ghost ins: seq<Entry>, ghost exps: seq<Entry>, ghost labs: seq<Entry>)
    returns (outflow: seq<Totals>, net: seq<Totals>, cumulative: seq<Totals>)
    requires |inflow| == |expenses| == |labor| > 0
    requires Holds(inflow, ins, start) && Holds(expenses, exps, start) && Holds(labor, labs, start)
    ensures |outflow| == |net| == |cumulative| == |inflow|
    ensures forall k :: 0 <= k < |inflow| ==>
              MonthIs(outflow[k], net[k], cumulative[k], ins, exps + labs, start, |inflow|, k)
  {
    hide MonthIs, SumIn, Added, Netted;
    outflow, net, cumulative := [], [], [];
    var running: Totals := map[];
    var i := 0;
    while i < |inflow|
      invariant 0 <= i <= |inflow| && |outflow| == |net| == |cumulative| == i
      invariant forall k :: 0 <= k < i ==>
                  MonthIs(outflow[k], net[k], cumulative[k], ins, exps + labs, start, |inflow|, k)
      invariant forall c :: Get(running, c) == NetUpTo(ins, exps + labs, start, |inflow|, i, c)
    {
      MonthCloses(inflow[i], expenses[i], labor[i], running, ins, exps, labs, start, |inflow|, i);
      var out := AddByCurrency(expenses[i], labor[i]);
      var netted := NetByCurrency(inflow[i], out);
      running := AddByCurrency(running, netted);
      outflow, net, cumulative := outflow + [out], net + [netted], cumulative + [running];
      i := i + 1;
    }
  }

  lemma {:induction false} SumsJoin(a: seq<Entry>, b: seq<Entry>, start: int, months: nat, k: int, currency: string)
    requires months > 0
    ensures SumIn(a + b, start, months, k, currency) ==
        SumIn(a, start, months, k, currency) + SumIn(b, start, months, k, currency)
  {
    if b == [] {
      assert a + b == a;
    } else {
      assert (a + b)[..|a + b| - 1] == a + b[..|b| - 1];
      SumsJoin(a, b[..|b| - 1], start, months, k, currency);
    }
  }

  /** One currency's column added up. */
  function ColumnSum(column: seq<Totals>, currency: string): int {
    if column == [] then 0 else ColumnSum(column[..|column| - 1], currency) + Get(column[|column| - 1], currency)
  }

  method Total(column: seq<Totals>) returns (total: Totals)
    ensures forall c :: Get(total, c) == ColumnSum(column, c)
  {
    total := map[];
    var i := 0;
    while i < |column|
      invariant 0 <= i <= |column|
      invariant forall c :: Get(total, c) == ColumnSum(column[..i], c)
    {
      total := AddByCurrency(total, column[i]);
      assert column[..i + 1][..i] == column[..i];
      i := i + 1;
    }
    assert column[..|column|] == column;
  }

  /**
   * The months of the window from `start` on. Its columns and totals are told on the rows themselves:
   * what the months up to the k-th hold is what the rows dated by the end of that month bring, in every
   * currency.
   */
  method MonthlyReport(start: int, months: nat, invoices: seq<InvoiceRow>, expenses: seq<ExpenseRow>,
      time: seq<TimeRow>)
    returns (report: Report)
    requires months > 0
    ensures |report.inflow| == |report.outflow| == |report.laborCost| == |report.net| == |report.cumulative| == months
    ensures Reports(report, start, months, Inflows(invoices, |invoices|),
        Expenses(expenses, |expenses|) + Labour(time, |time|))
    ensures forall k, c :: 0 <= k < months ==> MonthsTell(report, start, k, c, invoices, expenses, time)
    ensures forall c ::
              && Get(report.totalInflow, c) == Expected(invoices, |invoices|, start + months - 1, c)
              && Get(report.totalOutflow, c) ==
                   Spent(expenses, |expenses|, start + months - 1, c) + Worked(time, |time|, start + months - 1, c)
              && Get(report.totalNet, c) == Get(report.totalInflow, c) - Get(report.totalOutflow, c)
              && Get(report.cumulative[months - 1], c) == Get(report.totalNet, c)
  {
    hide MonthIs, SumIn, Expected, Spent, Worked, Inflows, Expenses, Labour, Until, ColumnSum, Holds, MonthsTell;
    var inflow := new Totals[months](_ => map[]);
    var outflow := new Totals[months](_ => map[]);
    var laborCost := new Totals[months](_ => map[]);
    NothingAdded(inflow[..], start);
    NothingAdded(outflow[..], start);
    NothingAdded(laborCost[..], start);
    AddInvoices(invoices, start, inflow);
    AddExpenses(expenses, start, outflow);
    AddLabour(time, start, laborCost);
    var out, net, cumulative := Close(start, inflow[..], outflow[..], laborCost[..],
      Inflows(invoices, |invoices|), Expenses(expenses, |expenses|), Labour(time, |time|));
    var totalInflow := Total(inflow[..]);
    var totalOutflow := Total(out);
    var totalNet := Total(net);
    report := Report(inflow[..], out, laborCost[..], net, cumulative, totalInflow, totalOutflow, totalNet);
    ghost var ins, outs := Inflows(invoices, |invoices|), Expenses(expenses, |expenses|) + Labour(time, |time|);
    forall k, c | 0 <= k < months
      ensures MonthsTell(report, start, k, c, invoices, expenses, time)
    {
      RowsTell(report, start, months, k, c, invoices, expenses, time);
    }
    forall c
      ensures && Get(report.totalInflow, c) == Expected(invoices, |invoices|, start + months - 1, c)
              && Get(report.totalOutflow, c) ==
                   Spent(expenses, |expenses|, start + months - 1, c) + Worked(time, |time|, start + months - 1, c)
              && Get(report.totalNet, c) == Get(report.totalInflow, c) - Get(report.totalOutflow, c)
              && Get(report.cumulative[months - 1], c) == Get(report.totalNet, c)
    {
      Conserved(report, start, months, ins, outs, c);
      InflowsAreExpected(invoices, |invoices|, start + months - 1, c);
      OutflowsAreSpent(expenses, time, start + months - 1, c);
    }
  }

  /** The report shows these entries in this window. */
  ghost predicate Reports(report: Report, start: int, months: nat, ins: seq<Entry>, outs: seq<Entry>)
    requires months > 0
  {
    && |report.inflow| == |report.outflow| == |report.laborCost| == |report.net| == |report.cumulative| == months
    && Holds(report.inflow, ins, start)
    && (forall k :: 0 <= k < months ==>
          MonthIs(report.outflow[k], report.net[k], report.cumulative[k], ins, outs, start, months, k))
    && forall c ::
         && Get(report.totalInflow, c) == ColumnSum(report.inflow, c)
         && Get(report.totalOutflow, c) == ColumnSum(report.outflow, c)
         && Get(report.totalNet, c) == ColumnSum(report.net, c)
  }

  // ------------------------------------------------------------------------------------------
  // Conservation.

  /** What the entries up to the last month of the window bring in one currency. */
  function Until(entries: seq<Entry>, last: int, currency: string): int {
    if entries == [] then 0
    else
      var entry := entries[|entries| - 1];
      Until(entries[..|entries| - 1], last, currency) +
      (if entry.month <= last && entry.currency == currency then entry.amount else 0)
  }

  /** The first n buckets of a column added up. */
  function SlotSum(entries: seq<Entry>, start: int, months: nat, n: nat, currency: string): int
    requires months > 0
  {
    if n == 0 then 0
    else SlotSum(entries, start, months, n - 1, currency) + SumIn(entries, start, months, n - 1, currency)
  }

  lemma {:induction false} EmptySlots(start: int, months: nat, n: nat, currency: string)
    requires months > 0
    ensures SlotSum([], start, months, n, currency) == 0
  {
    if n > 0 {
      EmptySlots(start, months, n - 1, currency);
    }
  }

  lemma {:induction false} EntryOnce(entries: seq<Entry>, entry: Entry, start: int, months: nat, n: nat,
      currency: string)
    requires n <= months && months > 0
    ensures SlotSum(entries + [entry], start, months, n, currency) ==
            SlotSum(entries, start, months, n, currency) +
            (var slot := SlotOf(start, months, entry.month);
             if slot.Some? && slot.value < n && entry.currency == currency then entry.amount else 0)
  {
    if n > 0 {
      EntryOnce(entries, entry, start, months, n - 1, currency);
      SumGrows(entries, entry, start, months, n - 1, currency);
    }
  }

  /**
   * Every entry up to the end of the n-th month is in exactly one of the first n buckets, and no other
   * entry in any.
   */
  lemma {:induction false} EachEntryOnce(entries: seq<Entry>, start: int, months: nat, n: nat, currency: string)
    requires 0 < n <= months
    ensures SlotSum(entries, start, months, n, currency) == Until(entries, start + n - 1, currency)
  {
    if entries == [] {
      EmptySlots(start, months, n, currency);
    } else {
      var before, last := entries[..|entries| - 1], entries[|entries| - 1];
      EachEntryOnce(before, start, months, n, currency);
      assert before + [last] == entries;
      EntryOnce(before, last, start, months, n, currency);
    }
  }

  lemma {:induction false} ColumnIsSlots(column: seq<Totals>, entries: seq<Entry>, start: int, months: nat, n: nat,
      currency: string)
    requires n <= |column| && months > 0
    requires forall k :: 0 <= k < n ==> Get(column[k], currency) == SumIn(entries, start, months, k, currency)
    ensures ColumnSum(column[..n], currency) == SlotSum(entries, start, months, n, currency)
  {
    if n > 0 {
      assert column[..n][..n - 1] == column[..n - 1];
      ColumnIsSlots(column, entries, start, months, n - 1, currency);
    }
  }

  lemma {:induction false} NetIsSlots(net: seq<Totals>, ins: seq<Entry>, outs: seq<Entry>, start: int, months: nat,
      n: nat, currency: string)
    requires n <= |net| && months > 0
    requires forall k :: 0 <= k < n ==>
               Get(net[k], currency) == SumIn(ins, start, months, k, currency) - SumIn(outs, start, months, k, currency)
    ensures ColumnSum(net[..n], currency) == NetUpTo(ins, outs, start, months, n, currency)
    ensures NetUpTo(ins, outs, start, months, n, currency) ==
            SlotSum(ins, start, months, n, currency) - SlotSum(outs, start, months, n, currency)
  {
    if n > 0 {
      assert net[..n][..n - 1] == net[..n - 1];
      NetIsSlots(net, ins, outs, start, months, n - 1, currency);
    }
  }

  /** The columns of the months up to the k-th: what the entries up to its end bring, and their difference. */
  lemma FirstMonths(report: Report, start: int, months: nat, ins: seq<Entry>, outs: seq<Entry>, k: nat,
      currency: string)
    requires k < months && Reports(report, start, months, ins, outs)
    ensures ColumnSum(report.inflow[..k + 1], currency) == Until(ins, start + k, currency)
    ensures ColumnSum(report.outflow[..k + 1], currency) == Until(outs, start + k, currency)
    ensures ColumnSum(report.net[..k + 1], currency) ==
            Until(ins, start + k, currency) - Until(outs, start + k, currency)
    ensures Get(report.cumulative[k], currency) == ColumnSum(report.net[..k + 1], currency)
  {
    hide SumIn, ColumnSum, Until, SlotSum;
    ColumnIsSlots(report.inflow, ins, start, months, k + 1, currency);
    ColumnIsSlots(report.outflow, outs, start, months, k + 1, currency);
    NetIsSlots(report.net, ins, outs, start, months, k + 1, currency);
    EachEntryOnce(ins, start, months, k + 1, currency);
    EachEntryOnce(outs, start, months, k + 1, currency);
  }

  /**
   * Money is conserved in every currency: the totals are those of all entries up to the end of the
   * window, the k-th cumulative is the net of the first months, and the last one is the total net,
   * which is total inflow less total outflow.
   */
  lemma Conserved(report: Report, start: int, months: nat, ins: seq<Entry>, outs: seq<Entry>, currency: string)
    requires months > 0 && Reports(report, start, months, ins, outs)
    ensures Get(report.totalInflow, currency) == Until(ins, start + months - 1, currency)
    ensures Get(report.totalOutflow, currency) == Until(outs, start + months - 1, currency)
    ensures Get(report.totalNet, currency) == Get(report.totalInflow, currency) - Get(report.totalOutflow, currency)
    ensures Get(report.cumulative[months - 1], currency) == Get(report.totalNet, currency)
    ensures forall k :: 0 <= k < months ==>
              Get(report.cumulative[k], currency) == ColumnSum(report.net[..k + 1], currency)
  {
    hide SumIn, ColumnSum, Until, SlotSum, MonthIs, Holds;
    assert report.inflow[..months] == report.inflow && report.outflow[..months] == report.outflow
        && report.net[..months] == report.net;
    FirstMonths(report, start, months, ins, outs, months - 1, currency);
    forall k | 0 <= k < months
      ensures Get(report.cumulative[k], currency) == ColumnSum(report.net[..k + 1], currency)
    {
      FirstMonths(report, start, months, ins, outs, k, currency);
    }
  }

  // ------------------------------------------------------------------------------------------
  // What the rows themselves bring.

  /**
   * What an invoice brings in up to a month: its paid part if paid by then, the rest if due by then;
   * nothing unless it is live.
   */
  function Brings(invoice: InvoiceRow, last: int, currency: string): int {
    var paidOn := if invoice.paidAt.Some? then invoice.paidAt.value else invoice.issuedOn;
    if invoice.status.Draft? || invoice.status.Cancelled? || invoice.currency != currency then 0
    else
      (if paidOn <= last then invoice.paid else 0) +
      (if invoice.dueOn <= last && invoice.amount > invoice.paid then invoice.amount - invoice.paid else 0)
  }

  function Expected(invoices: seq<InvoiceRow>, n: nat, last: int, currency: string): int
    requires n <= |invoices|
  {
    if n == 0 then 0 else Expected(invoices, n - 1, last, currency) + Brings(invoices[n - 1], last, currency)
  }

  lemma {:induction false} UntilJoins(a: seq<Entry>, b: seq<Entry>, last: int, currency: string)
    ensures Until(a + b, last, currency) == Until(a, last, currency) + Until(b, last, currency)
  {
    if b == [] {
      assert a + b == a;
    } else {
      assert (a + b)[..|a + b| - 1] == a + b[..|b| - 1];
      UntilJoins(a, b[..|b| - 1], last, currency);
    }
  }

  lemma PartsAreBrought(invoice: InvoiceRow, last: int, currency: string)
    ensures Until(InvoiceEntries(invoice), last, currency) == Brings(invoice, last, currency)
  {
    var parts := InvoiceEntries(invoice);
    if |parts| == 2 {
      UntilJoins([parts[0]], [parts[1]], last, currency);
      assert parts == [parts[0]] + [parts[1]];
    }
  }

  /** The inflow entries hold exactly the paid and the outstanding part of every live invoice. */
  lemma {:induction false} InflowsAreExpected(invoices: seq<InvoiceRow>, n: nat, last: int, currency: string)
    requires n <= |invoices|
    ensures Until(Inflows(invoices, n), last, currency) == Expected(invoices, n, last, currency)
  {
    hide Brings, InvoiceEntries, Until, IsLive;
    if n == 0 {
      NothingUntil(last, currency);
    } else {
      InflowsAreExpected(invoices, n - 1, last, currency);
      UntilJoins(Inflows(invoices, n - 1), InvoiceEntries(invoices[n - 1]), last, currency);
      PartsAreBrought(invoices[n - 1], last, currency);
    }
  }

  lemma NothingUntil(last: int, currency: string)
    ensures Until([], last, currency) == 0
  {
  }

  /** What the first n expenses cost that are not rejected and dated no later than `last`. */
  function Spent(expenses: seq<ExpenseRow>, n: nat, last: int, currency: string): int
    requires n <= |expenses|
  {
    if n == 0 then 0
    else
      Spent(expenses, n - 1, last, currency) +
      (if !expenses[n - 1].rejected && expenses[n - 1].incurredOn <= last && expenses[n - 1].currency == currency
       then expenses[n - 1].amount else 0)
  }

  /** What the first n time entries cost that are dated no later than `last`: minutes at an hourly rate, half up. */
  function Worked(time: seq<TimeRow>, n: nat, last: int, currency: string): int
    requires n <= |time|
  {
    if n == 0 then 0
    else
      Worked(time, n - 1, last, currency) +
      (if time[n - 1].workDate <= last && time[n - 1].currency == currency
       then (2 * time[n - 1].minutes * time[n - 1].hourlyRate + 60) / 120 else 0)
  }

  lemma UntilOne(entry: Entry, last: int, currency: string)
    ensures Until([entry], last, currency) ==
            if entry.month <= last && entry.currency == currency then entry.amount else 0
    ensures Until([], last, currency) == 0
  {
    assert [entry][..0] == [];
  }

  lemma {:induction false} ExpensesAreSpent(expenses: seq<ExpenseRow>, n: nat, last: int, currency: string)
    requires n <= |expenses|
    ensures Until(Expenses(expenses, n), last, currency) == Spent(expenses, n, last, currency)
  {
    if n > 0 {
      hide Until;
      var row := expenses[n - 1];
      var entry := Entry(row.incurredOn, row.currency, row.amount);
      ExpensesAreSpent(expenses, n - 1, last, currency);
      UntilOne(entry, last, currency);
      UntilJoins(Expenses(expenses, n - 1), if row.rejected then [] else [entry], last, currency);
    }
  }

  lemma {:induction false} LabourIsWorked(time: seq<TimeRow>, n: nat, last: int, currency: string)
    requires n <= |time|
    ensures Until(Labour(time, n), last, currency) == Worked(time, n, last, currency)
  {
    if n > 0 {
      hide Until;
      var row := time[n - 1];
      var entry := Entry(row.workDate, row.currency, Money.Round(row.minutes * row.hourlyRate, 60));
      assert 2 * (row.minutes * row.hourlyRate) == 2 * row.minutes * row.hourlyRate;
      LabourIsWorked(time, n - 1, last, currency);
      UntilOne(entry, last, currency);
      UntilJoins(Labour(time, n - 1), [entry], last, currency);
    }
  }

  /** The outflow entries hold exactly the expenses not rejected and the cost of the time worked. */
  lemma OutflowsAreSpent(expenses: seq<ExpenseRow>, time: seq<TimeRow>, last: int, currency: string)
    ensures Until(Expenses(expenses, |expenses|) + Labour(time, |time|), last, currency) ==
            Spent(expenses, |expenses|, last, currency) + Worked(time, |time|, last, currency)
  {
    ExpensesAreSpent(expenses, |expenses|, last, currency);
    LabourIsWorked(time, |time|, last, currency);
    UntilJoins(Expenses(expenses, |expenses|), Labour(time, |time|), last, currency);
  }

  /** The months up to the k-th hold what the rows bring that are dated by its end, earlier ones included. */
  ghost predicate MonthsTell(report: Report, start: int, k: nat, currency: string, invoices: seq<InvoiceRow>,
      expenses: seq<ExpenseRow>, time: seq<TimeRow>)
    requires k < |report.inflow| == |report.outflow| == |report.laborCost| == |report.net| == |report.cumulative|
  {
    var ins := Expected(invoices, |invoices|, start + k, currency);
    var spent, worked := Spent(expenses, |expenses|, start + k, currency), Worked(time, |time|, start + k, currency);
    && ColumnSum(report.inflow[..k + 1], currency) == ins
    && ColumnSum(report.outflow[..k + 1], currency) == spent + worked
    && ColumnSum(report.laborCost[..k + 1], currency) == worked
    && ColumnSum(report.net[..k + 1], currency) == ins - spent - worked
    && Get(report.cumulative[k], currency) == ins - spent - worked
  }

  lemma LabourTells(column: seq<Totals>, time: seq<TimeRow>, start: int, months: nat, k: nat, currency: string)
    requires k < months == |column| && Holds(column, Labour(time, |time|), start)
    ensures ColumnSum(column[..k + 1], currency) == Worked(time, |time|, start + k, currency)
  {
    hide SumIn, ColumnSum, Until, SlotSum, Worked, Labour;
    ColumnIsSlots(column, Labour(time, |time|), start, months, k + 1, currency);
    EachEntryOnce(Labour(time, |time|), start, months, k + 1, currency);
    LabourIsWorked(time, |time|, start + k, currency);
  }

  lemma RowsTell(report: Report, start: int, months: nat, k: nat, currency: string, invoices: seq<InvoiceRow>,
      expenses: seq<ExpenseRow>, time: seq<TimeRow>)
    requires k < months
    requires Reports(report, start, months, Inflows(invoices, |invoices|),
        Expenses(expenses, |expenses|) + Labour(time, |time|))
    requires Holds(report.laborCost, Labour(time, |time|), start)
    ensures MonthsTell(report, start, k, currency, invoices, expenses, time)
  {
    hide SumIn, ColumnSum, Until, SlotSum, MonthIs, Expected, Spent, Worked, Inflows, Expenses, Labour, Holds, Get;
    var ins, outs := Inflows(invoices, |invoices|), Expenses(expenses, |expenses|) + Labour(time, |time|);
    FirstMonths(report, start, months, ins, outs, k, currency);
    InflowsAreExpected(invoices, |invoices|, start + k, currency);
    OutflowsAreSpent(expenses, time, start + k, currency);
    LabourTells(report.laborCost, time, start, months, k, currency);
  }
}
