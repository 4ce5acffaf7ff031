/** Quotes, and the invoices they are converted into: two sums of one set of lines that must agree. */
module Quotes {
  import opened Wrappers
  import opened Money
  import Invoices

  datatype Status = Draft | Sent | Accepted | Rejected | Expired

  /** A quote; its tax rate is in whole percents. */
  datatype Quote = Quote(
    projectId: Option<string>,
    status: Status,
    taxRate: nat,
    lines: seq<Line>,
    subtotal: nat,
    tax: nat,
    total: nat)

  datatype Totals = Totals(lines: seq<Line>, subtotal: nat, tax: nat, total: nat)

  datatype Patch = Patch(
    projectId: Invoices.Field<string>,
    status: Invoices.Field<Status>,
    taxRate: Invoices.Field<nat>,
    lines: Invoices.Field<seq<LineInput>>)

  function TotalsOf(inputs: seq<LineInput>, taxRate: nat): Totals {
    var lines := Normalized(inputs);
    var subtotal := Subtotal(lines);
    var tax := Round(subtotal * taxRate, 100);
    Totals(lines, subtotal, tax, subtotal + tax)
  }

  function Created(projectId: Option<string>, status: Option<Status>, taxRate: Option<nat>,
      inputs: seq<LineInput>): Quote {
    var rate := taxRate.Or(Some(0)).value;
    var totals := TotalsOf(inputs, rate);
    Quote(projectId, status.Or(Some(Draft)).value, rate, totals.lines, totals.subtotal, totals.tax, totals.total)
  }

  /** An update of the stored quote; the column of the status refuses a null one. */
  function Updated(quote: Quote, patch: Patch, linksHold: bool): Invoices.Result<Quote> {
    var rate := Invoices.Or(patch.taxRate, quote.taxRate);
    var totals := TotalsOf(Invoices.Or(patch.lines, InputsOf(quote.lines)), rate);
    if !linksHold then Invoices.Refused(Invoices.LinksBroken)
    else if patch.status.Null? then Invoices.Refused(Invoices.StatusMissing)
    else
      Invoices.Ok(Quote(if patch.projectId.Given? then Some(patch.projectId.value) else quote.projectId,
                        Invoices.Or(patch.status, quote.status),
                        rate,
                        if patch.lines.Given? then totals.lines else quote.lines,
                        totals.subtotal, totals.tax, totals.total))
  }

  /** The request a quote becomes: its own total, its lines when it has any, its rate in hundredths. */
  function RequestOf(quote: Quote, status: Invoices.Status): Invoices.Request {
    Invoices.Request(
      quote.total,
      None,
      Some(100 * quote.taxRate),
      if quote.lines == [] then None else Some(InputsOf(quote.lines)),
      Some(status))
  }

  const ACCEPTANCE := Patch(Invoices.Absent, Invoices.Given(Accepted), Invoices.Absent, Invoices.Absent)

  class QuoteRecord {
    var projectId: Option<string>
    var status: Status
    var taxRate: nat
    var lines: seq<Line>
    var subtotal: nat
    var tax: nat
    var total: nat

    function State(): Quote
      reads this
    {
      Quote(projectId, status, taxRate, lines, subtotal, tax, total)
    }

    constructor (projectId: Option<string>, status: Option<Status>, taxRate: Option<nat>, inputs: seq<LineInput>)
      ensures State() == Created(projectId, status, taxRate, inputs)
    {
      var rate := if taxRate.Some? then taxRate.value else 0;
      var computed := TotalsOf(inputs, rate);
      this.projectId := projectId;
      this.status := if status.Some? then status.value else Draft;
      this.taxRate := rate;
      lines, subtotal, tax, total := computed.lines, computed.subtotal, computed.tax, computed.total;
    }

    /** Totals are computed anew from the lines of the patch, or from the stored ones. */
    method UpdateQuote(patch: Patch, linksHold: bool) returns (refusal: Option<Invoices.Reason>)
      modifies this
      ensures var result := Updated(old(State()), patch, linksHold);
              && State() == Invoices.Kept(old(State()), result)
              && refusal == if result.Ok? then None else Some(result.reason)
    {
      if !linksHold {
        return Some(Invoices.LinksBroken);
      }
      if patch.status.Null? {
        return Some(Invoices.StatusMissing);
      }
      var inputs := Invoices.Or(patch.lines, InputsOf(lines));
      taxRate := Invoices.Or(patch.taxRate, taxRate);
      var computed := TotalsOf(inputs, taxRate);
      if patch.projectId.Given? {
        projectId := Some(patch.projectId.value);
      }
      status := Invoices.Or(patch.status, status);
      subtotal, tax, total := computed.subtotal, computed.tax, computed.total;
      if patch.lines.Given? {
        lines := computed.lines;
      }
      refusal := None;
    }

    /**
     * Creates the invoice and, when that is done, accepts the quote. The acceptance is an update with
     * its own checks: when they fail the invoice stays stored and the quote as it was.
     */
    method ConvertQuote(requested: Invoices.Status, invoiceLinksHold: bool, quoteLinksHold: bool, now: int)
      returns (invoice: Invoices.InvoiceRecord?, refusal: Option<Invoices.Reason>)
      requires Consistent(State())
      modifies this
      ensures invoice != null <==>
                old(projectId).Some? && invoiceLinksHold && (old(lines) != [] || old(taxRate) == 0)
      ensures invoice == null ==> State() == old(State())
      ensures invoice != null ==>
                && fresh(invoice)
                && invoice.amount == old(total) && invoice.tax == old(tax) && invoice.lines == old(lines)
                && invoice.paid == 0 && invoice.taxRate == 100 * old(taxRate) && invoice.receipt == None
                && Invoices.StatusTells(invoice.status, requested, invoice.amount, 0)
                && (State() == if refusal.None? then old(State()).(status := Accepted) else old(State()))
      ensures refusal.None? <==> invoice != null && (old(status) == Accepted || quoteLinksHold)
    {
      if projectId.None? {
        return null, Some(Invoices.NoProject);
      }
      ConversionAgrees(State(), requested, invoiceLinksHold, now);
      ghost var quote := State();
      invoice, refusal := Invoices.InvoiceRecord.CreateInvoice(RequestOf(State(), requested), invoiceLinksHold, true,
          now);
      if invoice == null {
        return;
      }
      assert invoice.State() == Invoices.Created(RequestOf(quote, requested), invoiceLinksHold, true, now).value;
      if status != Accepted {
        AcceptKeepsTotals(State());
        refusal := UpdateQuote(ACCEPTANCE, quoteLinksHold);
      }
    }
  }

  // ------------------------------------------------------------------------------------------
  // What is stored, field by field.

  /** The sums of the lines at a rate in whole percents. */
  ghost predicate SumsTell(quote: Quote, rate: nat) {
    && quote.subtotal == Subtotal(quote.lines)
    && RoundsTo(quote.subtotal * rate, 100, quote.tax)
    && quote.total == quote.subtotal + quote.tax
  }

  lemma TotalsTell(inputs: seq<LineInput>, rate: nat)
    ensures var totals := TotalsOf(inputs, rate);
            && LinesTell(totals.lines, inputs)
            && totals.subtotal == Subtotal(totals.lines)
            && RoundsTo(totals.subtotal * rate, 100, totals.tax)
            && totals.total == totals.subtotal + totals.tax
  {
    hide Round, RoundsTo, Normalized, LinesTell;
    NormalizedTells(inputs);
    RoundIs(TotalsOf(inputs, rate).subtotal * rate, 100, TotalsOf(inputs, rate).tax);
  }

  lemma CreatedTells(projectId: Option<string>, status: Option<Status>, taxRate: Option<nat>, inputs: seq<LineInput>)
    ensures var quote := Created(projectId, status, taxRate, inputs);
            && quote.projectId == projectId
            && quote.status == (if status.Some? then status.value else Draft)
            && quote.taxRate == (if taxRate.Some? then taxRate.value else 0)
            && LinesTell(quote.lines, inputs) && SumsTell(quote, quote.taxRate)
  {
    hide RoundsTo, LinesTell, TotalsOf;
    TotalsTell(inputs, taxRate.Or(Some(0)).value);
  }

  /** An updated quote, field by field; its sums are those of its present lines at its present rate. */
  lemma UpdatedTells(quote: Quote, patch: Patch, linksHold: bool)
    requires Consistent(quote)
    ensures var result := Updated(quote, patch, linksHold);
            && (result == Invoices.Refused(Invoices.LinksBroken) <==> !linksHold)
            && (result == Invoices.Refused(Invoices.StatusMissing) <==> linksHold && patch.status.Null?)
            && (linksHold && !patch.status.Null? ==>
                  && result.Ok?
                  && var after := result.value;
                     && after.projectId == (if patch.projectId.Given? then Some(patch.projectId.value)
                                            else quote.projectId)
                     && after.status == (if patch.status.Given? then patch.status.value else quote.status)
                     && after.taxRate == (if patch.taxRate.Given? then patch.taxRate.value else quote.taxRate)
                     && (if patch.lines.Given? then LinesTell(after.lines, patch.lines.value)
                         else after.lines == quote.lines)
                     && SumsTell(after, after.taxRate))
  {
    hide RoundsTo, LinesTell, Normalized, Subtotal, Round;
    var rate := Invoices.Or(patch.taxRate, quote.taxRate);
    TotalsTell(Invoices.Or(patch.lines, InputsOf(quote.lines)), rate);
  }

  // ------------------------------------------------------------------------------------------
  // The totals of a quote, and of its invoice.

  /** The stored lines and sums are those of the quote's own quantities, prices and rate. */
  ghost predicate Consistent(quote: Quote) {
    var totals := TotalsOf(InputsOf(quote.lines), quote.taxRate);
    && quote.lines == totals.lines
    && quote.subtotal == totals.subtotal && quote.tax == totals.tax && quote.total == totals.total
  }

  lemma CreatedIsConsistent(projectId: Option<string>, status: Option<Status>, taxRate: Option<nat>,
      inputs: seq<LineInput>)
    ensures Consistent(Created(projectId, status, taxRate, inputs))
  {
    NormalizedAgain(inputs);
  }

  lemma UpdatedIsConsistent(quote: Quote, patch: Patch, linksHold: bool)
    requires Consistent(quote)
    ensures Consistent(Invoices.Kept(quote, Updated(quote, patch, linksHold)))
  {
    hide Subtotal, Round;
    if patch.lines.Given? {
      NormalizedAgain(patch.lines.value);
    }
  }

  /** A patch as it is sent, and whether its links hold by then. */
  datatype Update = Update(patch: Patch, linksHold: bool)

  function AllUpdated(quote: Quote, updates: seq<Update>): Quote {
    if updates == [] then quote
    else
      var before, last := AllUpdated(quote, updates[..|updates| - 1]), updates[|updates| - 1];
      Invoices.Kept(before, Updated(before, last.patch, last.linksHold))
  }

  /** Rounding does not depend on the unit a rate is given in. */
  lemma RoundScales(n: nat, d: nat, k: nat)
    requires d > 0 && k > 0
    ensures d * k > 0 && Round(n * k, d * k) == Round(n, d)
  {
    var q, r := (2 * n + d) / (2 * d), (2 * n + d) % (2 * d);
    assert 2 * n + d == q * (2 * d) + r;
    assert 2 * (n * k) + d * k == q * (2 * (d * k)) + r * k by {
      assert (2 * n + d) * k == (q * (2 * d) + r) * k;
    }
    assert 0 <= r * k < 2 * (d * k);
    DivisionIs(2 * (n * k) + d * k, 2 * (d * k), q, r * k);
  }

  lemma DivisionIs(n: nat, d: nat, q: nat, r: nat)
    requires d > 0 && n == q * d + r && r < d
    ensures n / d == q
  {
    var p, s := n / d, n % d;
    assert n == p * d + s;
    assert (p - q) * d == r - s;
    assert p - q >= 1 ==> (p - q) * d >= d;
    assert p - q <= -1 ==> (p - q) * d <= -1 * d;
  }

  lemma TaxesAgree(subtotal: nat, percents: nat)
    ensures Tax(subtotal, 100 * percents) == Round(subtotal * percents, 100)
  {
    RoundScales(subtotal * percents, 100, 100);
    assert subtotal * (100 * percents) == subtotal * percents * 100;
  }

  lemma NothingTaxed(percents: nat)
    ensures Round(0 * percents, 100) == 0
  {
    assert 0 * percents == 0;
  }

  /** A consistent quote with a line always passes the invoice's own check, with the same lines, tax and total. */
  lemma ConversionAgrees(quote: Quote, requested: Invoices.Status, linksHold: bool, now: int)
    requires Consistent(quote)
    ensures var result := Invoices.Created(RequestOf(quote, requested), linksHold, true, now);
            && (result.Ok? <==> linksHold && (quote.lines != [] || quote.taxRate == 0))
            && (result.Ok? ==>
                  && result.value.amount == quote.total
                  && result.value.tax == quote.tax
                  && result.value.lines == quote.lines
                  && result.value.taxRate == 100 * quote.taxRate
                  && result.value.paid == 0 && result.value.receipt == None
                  && Invoices.StatusTells(result.value.status, requested, quote.total, 0))
  {
    hide Round;
    TaxesAgree(quote.subtotal, quote.taxRate);
    NothingTaxed(quote.taxRate);
  }

  lemma AcceptKeepsTotals(quote: Quote)
    requires Consistent(quote)
    ensures Updated(quote, ACCEPTANCE, true) == Invoices.Ok(quote.(status := Accepted))
  {
  }

  /**
   * After any updates, accepted or refused, a quote converts into an invoice of exactly its own total,
   * tax and lines.
   */
  lemma {:induction false} QuoteAlwaysConverts(projectId: Option<string>, status: Option<Status>, taxRate: Option<nat>,
      inputs: seq<LineInput>, updates: seq<Update>, requested: Invoices.Status, now: int)
    ensures var quote := AllUpdated(Created(projectId, status, taxRate, inputs), updates);
            var result := Invoices.Created(RequestOf(quote, requested), true, true, now);
            && Consistent(quote)
            && (quote.lines != [] ==>
                  && result.Ok?
                  && result.value.amount == quote.total && result.value.tax == quote.tax
                  && result.value.lines == quote.lines)
  {
    hide Consistent, Updated, Created, RequestOf, Invoices.Created, Invoices.Kept;
    var quote := AllUpdated(Created(projectId, status, taxRate, inputs), updates);
    if updates == [] {
      CreatedIsConsistent(projectId, status, taxRate, inputs);
    } else {
      var n := |updates| - 1;
      QuoteAlwaysConverts(projectId, status, taxRate, inputs, updates[..n], requested, now);
      var before := AllUpdated(Created(projectId, status, taxRate, inputs), updates[..n]);
      UpdatedIsConsistent(before, updates[n].patch, updates[n].linksHold);
    }
    ConversionAgrees(quote, requested, true, now);
  }
}
