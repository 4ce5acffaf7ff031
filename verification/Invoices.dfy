/** The life of an invoice: created, updated, marked paid with a receipt, its receipt voided. */
module Invoices {
  import opened Wrappers
  import opened Money

  datatype Status = Draft | Sent | Partial | Paid | Overdue | Cancelled

  datatype Invoice = Invoice(
    amount: nat,
    paid: nat,
    taxRate: nat,
    tax: nat,
    lines: seq<Line>,
    status: Status,
    paidAt: Option<int>,
    receipt: Option<string>,
    voidedAt: Option<int>)

  /** A field of a patch: left out, sent as null, or given. */
  datatype Field<+T> = Absent | Null | Given(value: T)

  datatype Request = Request(
    amount: nat,
    paid: Option<nat>,
    taxRate: Option<nat>,
    lines: Option<seq<LineInput>>,
    status: Option<Status>)

  datatype Patch = Patch(
    amount: Field<nat>,
    paid: Field<nat>,
    taxRate: Field<nat>,
    lines: Field<seq<LineInput>>,
    status: Field<Status>)

  datatype Reason = LinksBroken | PaidExceedsAmount | TotalsDiffer | TaxNeedsLines | NumberTaken
                  | StatusMissing | NoProject
                  | Frozen | AlreadyReceipted | IsCancelled | NoReceipt | AlreadyVoided

  datatype Result<+T> = Ok(value: T) | Refused(reason: Reason)

  /** The source's `field ?? fallback`. */
  function Or<T>(field: Field<T>, fallback: T): T {
    if field.Given? then field.value else fallback
  }

  /** `paymentStatus`: what has been paid decides, the request only where nothing has. */
  function PaymentStatus(requested: Status, amount: nat, paid: nat): Status {
    if paid >= amount && amount > 0 then Paid
    else if paid > 0 then Partial
    else if requested.Paid? || requested.Partial? then Sent
    else requested
  }

  function Created(request: Request, linksHold: bool, numberFree: bool, now: int): Result<Invoice> {
    var paid := request.paid.Or(Some(0)).value;
    var taxRate := request.taxRate.Or(Some(0)).value;
    var lines := if request.lines.Some? then Normalized(request.lines.value) else [];
    var status := PaymentStatus(request.status.Or(Some(Draft)).value, request.amount, paid);
    var tax := if request.lines.Some? then Tax(Subtotal(lines), taxRate) else 0;
    if !linksHold then Refused(LinksBroken)
    else if paid > request.amount then Refused(PaidExceedsAmount)
    else if request.lines.Some? && Total(lines, taxRate) != request.amount then Refused(TotalsDiffer)
    else if request.lines.None? && taxRate > 0 then Refused(TaxNeedsLines)
    else if !numberFree then Refused(NumberTaken)
    else
      Ok(Invoice(request.amount, paid, taxRate, tax, lines, status,
                 if status.Paid? then Some(now) else None, None, None))
  }

  predicate ChangesFinancials(item: Invoice, patch: Patch) {
    || (!patch.amount.Absent? && patch.amount != Given(item.amount))
    || (!patch.paid.Absent? && patch.paid != Given(item.paid))
    || (!patch.taxRate.Absent? && patch.taxRate != Given(item.taxRate))
    || !patch.lines.Absent?
  }

  /** What a patched money field is stored as: null is stored as zero. */
  function Stored(field: Field<nat>, current: nat): nat {
    if field.Null? then 0 else Or(field, current)
  }

  /**
   * An update of the stored invoice. A null status is assigned before it is read back: with nothing
   * paid it is what would be stored, and the column refuses it.
   */
  function Updated(item: Invoice, patch: Patch, linksHold: bool, numberFree: bool, now: int): Result<Invoice> {
    var amount, paid := Or(patch.amount, item.amount), Or(patch.paid, item.paid);
    var taxRate := Or(patch.taxRate, item.taxRate);
    var lines := if patch.lines.Given? then Normalized(patch.lines.value) else item.lines;
    var hasSubtotal := patch.lines.Given? || item.lines != [];
    var status := PaymentStatus(Or(patch.status, item.status), amount, paid);
    if item.receipt.Some? && ChangesFinancials(item, patch) then Refused(Frozen)
    else if !linksHold then Refused(LinksBroken)
    else if !numberFree then Refused(NumberTaken)
    else if paid > amount then Refused(PaidExceedsAmount)
    else if hasSubtotal && Total(lines, taxRate) != amount then Refused(TotalsDiffer)
    else if !hasSubtotal && taxRate > 0 then Refused(TaxNeedsLines)
    else if patch.status.Null? && paid == 0 then Refused(StatusMissing)
    else
      Ok(item.(amount := Stored(patch.amount, item.amount),
               paid := Stored(patch.paid, item.paid),
               taxRate := taxRate,
               tax := if hasSubtotal then Tax(Subtotal(lines), taxRate) else 0,
               lines := lines,
               status := status,
               paidAt := if status.Paid? then item.paidAt.Or(Some(now)) else None))
  }

  function MarkedPaid(item: Invoice, paidAt: Option<int>, receipt: string, now: int): Result<Invoice> {
    if item.status.Cancelled? then Refused(IsCancelled)
    else if item.receipt.Some? then Refused(AlreadyReceipted)
    else Ok(item.(paid := item.amount, status := Paid, paidAt := paidAt.Or(Some(now)), receipt := Some(receipt)))
  }

  function Voided(item: Invoice, now: int): Result<Invoice> {
    if item.receipt.None? then Refused(NoReceipt)
    else if item.voidedAt.Some? then Refused(AlreadyVoided)
    else Ok(item.(voidedAt := Some(now)))
  }

  /** What is stored after an operation: a refusal changes nothing. */
  function Kept<T>(item: T, result: Result<T>): T {
    if result.Ok? then result.value else item
  }

  // ------------------------------------------------------------------------------------------
  // The stored invoice.

  class InvoiceRecord {
    var amount: nat
    var paid: nat
    var taxRate: nat
    var tax: nat
    var lines: seq<Line>
    var status: Status
    var paidAt: Option<int>
    var receipt: Option<string>
    var voidedAt: Option<int>

    function State(): Invoice
      reads this
    {
      Invoice(amount, paid, taxRate, tax, lines, status, paidAt, receipt, voidedAt)
    }

    constructor (invoice: Invoice)
      ensures State() == invoice
    {
      amount, paid, taxRate, tax, lines := invoice.amount, invoice.paid, invoice.taxRate, invoice.tax, invoice.lines;
      status, paidAt, receipt, voidedAt := invoice.status, invoice.paidAt, invoice.receipt, invoice.voidedAt;
    }

    static method CreateInvoice(request: Request, linksHold: bool, numberFree: bool, now: int)
      returns (record: InvoiceRecord?, refusal: Option<Reason>)
      ensures match Created(request, linksHold, numberFree, now)
              case Ok(invoice) => record != null && fresh(record) && record.State() == invoice && refusal == None
              case Refused(reason) => record == null && refusal == Some(reason)
    {
      if !linksHold {
        return null, Some(LinksBroken);
      }
      var paid := if request.paid.Some? then request.paid.value else 0;
      if paid > request.amount {
        return null, Some(PaidExceedsAmount);
      }
      var taxRate := if request.taxRate.Some? then request.taxRate.value else 0;
      var lines, tax := [], 0;
      if request.lines.Some? {
        lines := Normalized(request.lines.value);
        var subtotal := Subtotal(lines);
        tax := Tax(subtotal, taxRate);
        if subtotal + tax != request.amount {
          return null, Some(TotalsDiffer);
        }
      } else if taxRate > 0 {
        return null, Some(TaxNeedsLines);
      }
      if !numberFree {
        return null, Some(NumberTaken);
      }
      var requested := if request.status.Some? then request.status.value else Draft;
      var status := PaymentStatus(requested, request.amount, paid);
      var paidAt := if status == Paid then Some(now) else None;
      record := new InvoiceRecord(Invoice(request.amount, paid, taxRate, tax, lines, status, paidAt, None, None));
      refusal := None;
    }

    /** The patch is checked with `??`, then assigned as it came, and the derived fields are set after it. */
    method UpdateInvoice(patch: Patch, linksHold: bool, numberFree: bool, now: int) returns (refusal: Option<Reason>)
      modifies this
      ensures var result := Updated(old(State()), patch, linksHold, numberFree, now);
              State() == Kept(old(State()), result) && refusal == if result.Ok? then None else Some(result.reason)
    {
      hide Subtotal, Tax, Normalized, PaymentStatus, ChangesFinancials;
      if receipt.Some? && ChangesFinancials(State(), patch) {
        return Some(Frozen);
      }
      if !linksHold {
        return Some(LinksBroken);
      }
      if !numberFree {
        return Some(NumberTaken);
      }
      var newAmount, newPaid := Or(patch.amount, amount), Or(patch.paid, paid);
      if newPaid > newAmount {
        return Some(PaidExceedsAmount);
      }
      var newRate := Or(patch.taxRate, taxRate);
      var newTax := 0;
      if patch.lines.Given? || lines != [] {
        var priced := if patch.lines.Given? then Normalized(patch.lines.value) else lines;
        newTax := Tax(Subtotal(priced), newRate);
        if Subtotal(priced) + newTax != newAmount {
          return Some(TotalsDiffer);
        }
      } else if newRate > 0 {
        return Some(TaxNeedsLines);
      }
      if patch.status.Null? && newPaid == 0 {
        return Some(StatusMissing);
      }
      amount, paid := Stored(patch.amount, amount), Stored(patch.paid, paid);
      taxRate := newRate;
      tax := newTax;
      status := PaymentStatus(Or(patch.status, status), newAmount, newPaid);
      paidAt := if status == Paid then paidAt.Or(Some(now)) else None;
      if patch.lines.Given? {
        lines := Normalized(patch.lines.value);
      }
      refusal := None;
    }

    method MarkPaid(when: Option<int>, number: string, now: int) returns (refusal: Option<Reason>)
      modifies this
      ensures refusal == None <==> old(status) != Cancelled && old(receipt) == None
      ensures refusal == None ==>
                && State() == old(State()).(paid := paid, status := status, paidAt := paidAt, receipt := receipt)
                && paid == amount && status == Paid && receipt == Some(number)
                && paidAt == (if when.Some? then when else Some(now))
      ensures refusal != None ==> State() == old(State())
      ensures var result := MarkedPaid(old(State()), when, number, now);
              State() == Kept(old(State()), result) && refusal == if result.Ok? then None else Some(result.reason)
    {
      if status == Cancelled {
        return Some(IsCancelled);
      }
      if receipt.Some? {
        return Some(AlreadyReceipted);
      }
      paid := amount;
      status := Paid;
      paidAt := when.Or(Some(now));
      receipt := Some(number);
      refusal := None;
    }

    method VoidReceipt(now: int) returns (refusal: Option<Reason>)
      modifies this
      ensures refusal == None <==> old(receipt) != None && old(voidedAt) == None
      ensures State() == if refusal == None then old(State()).(voidedAt := Some(now)) else old(State())
      ensures var result := Voided(old(State()), now);
              State() == Kept(old(State()), result) && refusal == if result.Ok? then None else Some(result.reason)
    {
      if receipt.None? {
        return Some(NoReceipt);
      }
      if voidedAt.Some? {
        return Some(AlreadyVoided);
      }
      voidedAt := Some(now);
      refusal := None;
    }
  }

  // ------------------------------------------------------------------------------------------
  // What every invoice keeps.

  ghost predicate Healthy(item: Invoice) {
    && item.paid <= item.amount
    && (item.lines != [] ==> item.amount == Total(item.lines, item.taxRate))
    && item.tax == (if item.lines == [] then 0 else Tax(Subtotal(item.lines), item.taxRate))
    && (item.paidAt.Some? <==> item.status.Paid?)
    && (item.amount > 0 ==>
          && (item.status.Paid? <==> item.paid == item.amount)
          && (item.status.Partial? <==> 0 < item.paid < item.amount))
    && (item.receipt.Some? ==> item.paid == item.amount)
    && (item.voidedAt.Some? ==> item.receipt.Some?)
  }

  lemma NoLines(rate: nat)
    ensures Tax(Subtotal([]), rate) == 0 == Total([], rate)
  {
    assert 0 * rate == 0;
  }

  lemma CreatedIsHealthy(request: Request, linksHold: bool, numberFree: bool, now: int)
    ensures var result := Created(request, linksHold, numberFree, now);
            && (result.Ok? ==> Healthy(result.value))
            && (result.Ok? <==>
                  && linksHold && numberFree
                  && request.paid.Or(Some(0)).value <= request.amount
                  && (if request.lines.Some?
                      then request.amount == Total(Normalized(request.lines.value), request.taxRate.Or(Some(0)).value)
                      else request.taxRate.Or(Some(0)) == Some(0)))
  {
    hide Subtotal, Tax, Normalized;
    NoLines(request.taxRate.Or(Some(0)).value);
    if request.lines.Some? && Normalized(request.lines.value) == [] {
      NoLines(request.taxRate.Or(Some(0)).value);
    }
  }

  /**
   * An update leaves the invoice healthy exactly when a null it sends in place of an amount does not wipe
   * out money the other fields still account for: checks read null as "unchanged", the store as zero.
   */
  lemma UpdateStaysHealthy(item: Invoice, patch: Patch, linksHold: bool, numberFree: bool, now: int)
    requires Healthy(item) && Updated(item, patch, linksHold, numberFree, now).Ok?
    ensures var linesStay := if patch.lines.Given? then patch.lines.value != [] else item.lines != [];
            Healthy(Updated(item, patch, linksHold, numberFree, now).value) <==>
              && (patch.paid.Null? && item.paid > 0 ==> Stored(patch.amount, item.amount) == 0)
              && (patch.amount.Null? && item.amount > 0 ==> Stored(patch.paid, item.paid) == 0 && !linesStay)
  {
    hide Subtotal, Tax, Normalized;
    NoLines(Or(patch.taxRate, item.taxRate));
  }

  // ------------------------------------------------------------------------------------------
  // What is stored, field by field.

  /** What has been paid decides the status, and a request only where nothing has. */
  predicate StatusTells(status: Status, requested: Status, amount: nat, paid: nat) {
    && (status == Paid <==> amount > 0 && paid >= amount)
    && (status == Partial <==> paid > 0 && !(amount > 0 && paid >= amount))
    && (paid == 0 && status != Paid ==>
          status == if requested == Paid || requested == Partial then Sent else requested)
  }

  /** Lines, tax and amount of an invoice with lines: the tax is the rounded share of their sum. */
  ghost predicate SumsTell(item: Invoice) {
    && RoundsTo(Subtotal(item.lines) * item.taxRate, 10_000, item.tax)
    && item.amount == Subtotal(item.lines) + item.tax
  }

  /** A created invoice, field by field. */
  lemma CreatedTells(request: Request, linksHold: bool, numberFree: bool, now: int)
    requires Created(request, linksHold, numberFree, now).Ok?
    ensures var made := Created(request, linksHold, numberFree, now).value;
            && made.amount == request.amount
            && made.paid == (if request.paid.Some? then request.paid.value else 0)
            && made.taxRate == (if request.taxRate.Some? then request.taxRate.value else 0)
            && (request.lines.None? ==> made.lines == [] && made.tax == 0)
            && (request.lines.Some? ==> LinesTell(made.lines, request.lines.value) && SumsTell(made))
            && StatusTells(made.status, if request.status.Some? then request.status.value else Draft,
                           made.amount, made.paid)
            && made.paidAt == (if made.status == Paid then Some(now) else None)
            && made.receipt == None && made.voidedAt == None
  {
    hide Normalized, Round, RoundsTo, LinesTell;
    var made := Created(request, linksHold, numberFree, now).value;
    if request.lines.Some? {
      NormalizedTells(request.lines.value);
      RoundIs(Subtotal(made.lines) * made.taxRate, 10_000, made.tax);
    }
  }

  /** What a money field holds after a patch: a null wipes it out. */
  predicate FieldTells(after: nat, field: Field<nat>, before: nat) {
    match field
    case Absent => after == before
    case Null => after == 0
    case Given(value) => after == value
  }

  /** An updated invoice, field by field. */
  lemma UpdatedTells(item: Invoice, patch: Patch, linksHold: bool, numberFree: bool, now: int)
    requires Updated(item, patch, linksHold, numberFree, now).Ok?
    ensures var after := Updated(item, patch, linksHold, numberFree, now).value;
            var lined := patch.lines.Given? || item.lines != [];
            && FieldTells(after.amount, patch.amount, item.amount)
            && FieldTells(after.paid, patch.paid, item.paid)
            && after.taxRate == (if patch.taxRate.Given? then patch.taxRate.value else item.taxRate)
            && (patch.lines.Given? ==> LinesTell(after.lines, patch.lines.value))
            && (!patch.lines.Given? ==> after.lines == item.lines)
            && (lined && !patch.amount.Null? ==> SumsTell(after))
            && (!lined ==> after.tax == 0)
            && (!patch.amount.Null? && !patch.paid.Null? ==>
                  StatusTells(after.status, if patch.status.Given? then patch.status.value else item.status,
                              after.amount, after.paid))
            && after.paidAt == (if after.status != Paid then None
                                else if item.paidAt.Some? then item.paidAt else Some(now))
            && after.receipt == item.receipt && after.voidedAt == item.voidedAt
  {
    hide Normalized, Round, RoundsTo, LinesTell;
    var after := Updated(item, patch, linksHold, numberFree, now).value;
    if patch.lines.Given? {
      NormalizedTells(patch.lines.value);
    }
    RoundIs(Subtotal(after.lines) * after.taxRate, 10_000, Tax(Subtotal(after.lines), after.taxRate));
  }

  /** Why an update is refused: the first of these, in this order. */
  lemma RefusedExactly(item: Invoice, patch: Patch, linksHold: bool, numberFree: bool, now: int)
    ensures var result := Updated(item, patch, linksHold, numberFree, now);
            var amount := if patch.amount.Given? then patch.amount.value else item.amount;
            var paid := if patch.paid.Given? then patch.paid.value else item.paid;
            var frozen := item.receipt.Some? && ChangesFinancials(item, patch);
            var free := !frozen && linksHold && numberFree;
            && (result == Refused(Frozen) <==> frozen)
            && (result == Refused(LinksBroken) <==> !frozen && !linksHold)
            && (result == Refused(NumberTaken) <==> !frozen && linksHold && !numberFree)
            && (result == Refused(PaidExceedsAmount) <==> free && paid > amount)
            && (result.Ok? ==> free && paid <= amount && !(patch.status.Null? && paid == 0))
  {
    hide Subtotal, Tax, Normalized, PaymentStatus, ChangesFinancials;
  }

  // ------------------------------------------------------------------------------------------
  // Whole lives.

  datatype Event =
    | Update(patch: Patch, linksHold: bool, numberFree: bool, now: int)
    | Pay(when: Option<int>, number: string, now: int)
    | Void(now: int)

  function Happens(item: Invoice, event: Event): Invoice {
    match event
    case Update(patch, linksHold, numberFree, now) => Kept(item, Updated(item, patch, linksHold, numberFree, now))
    case Pay(when, number, now) => Kept(item, MarkedPaid(item, when, number, now))
    case Void(now) => Kept(item, Voided(item, now))
  }

  function Life(item: Invoice, events: seq<Event>): Invoice {
    if events == [] then item else Happens(Life(item, events[..|events| - 1]), events[|events| - 1])
  }

  /** The event sends no null where a money amount belongs. */
  predicate SendsNoNull(event: Event) {
    event.Update? ==> !event.patch.amount.Null? && !event.patch.paid.Null?
  }

  lemma EventStaysHealthy(item: Invoice, event: Event)
    requires Healthy(item) && SendsNoNull(event)
    ensures Healthy(Happens(item, event))
  {
    hide Subtotal, Tax, Normalized, Updated, Healthy;
    match event
    case Update(patch, linksHold, numberFree, now) =>
      if Updated(item, patch, linksHold, numberFree, now).Ok? {
        UpdateStaysHealthy(item, patch, linksHold, numberFree, now);
      }
    case Pay(when, number, now) => PaidStaysHealthy(item, when, number, now);
    case Void(now) => VoidedStaysHealthy(item, now);
  }

  lemma PaidStaysHealthy(item: Invoice, when: Option<int>, number: string, now: int)
    requires Healthy(item)
    ensures Healthy(Kept(item, MarkedPaid(item, when, number, now)))
  {
    hide Subtotal, Tax;
  }

  lemma VoidedStaysHealthy(item: Invoice, now: int)
    requires Healthy(item)
    ensures Healthy(Kept(item, Voided(item, now)))
  {
    hide Subtotal, Tax;
  }

  /** From its creation on, through any updates, payments and voids, an invoice stays healthy. */
  lemma {:induction false} LifeIsHealthy(request: Request, linksHold: bool, numberFree: bool, now: int,
      events: seq<Event>)
    requires Created(request, linksHold, numberFree, now).Ok?
    requires forall i :: 0 <= i < |events| ==> SendsNoNull(events[i])
    ensures Healthy(Life(Created(request, linksHold, numberFree, now).value, events))
  {
    hide Healthy, Created, Happens;
    if events == [] {
      CreatedIsHealthy(request, linksHold, numberFree, now);
    } else {
      LifeIsHealthy(request, linksHold, numberFree, now, events[..|events| - 1]);
      EventStaysHealthy(Life(Created(request, linksHold, numberFree, now).value, events[..|events| - 1]),
          events[|events| - 1]);
    }
  }

  /** The money of two states is the same, under the same receipt. */
  predicate SameMoney(a: Invoice, b: Invoice) {
    && a.amount == b.amount && a.paid == b.paid && a.taxRate == b.taxRate && a.tax == b.tax && a.lines == b.lines
    && a.receipt == b.receipt
    && (a.voidedAt.Some? ==> a.voidedAt == b.voidedAt)
  }

  /** What a receipt fixes: the money for good and, where there is any, the paid status and its date. */
  ghost predicate KeepsReceipt(before: Invoice, after: Invoice) {
    SameMoney(before, after) && (before.amount > 0 ==> after.status.Paid? && after.paidAt == before.paidAt)
  }

  lemma EventKeepsReceipt(item: Invoice, event: Event)
    requires Healthy(item) && item.receipt.Some?
    ensures Healthy(Happens(item, event)) && KeepsReceipt(item, Happens(item, event))
  {
    hide Subtotal, Tax, Normalized;
    NoLines(item.taxRate);
  }

  /**
   * Once a receipt is issued, no sequence of operations, nulls included, changes amount, paid amount, tax,
   * lines or receipt number, and an invoice of any amount above zero stays paid, at its date.
   */
  lemma {:induction false} ReceiptFreezes(item: Invoice, events: seq<Event>)
    requires Healthy(item) && item.receipt.Some?
    ensures Healthy(Life(item, events)) && KeepsReceipt(item, Life(item, events))
  {
    hide Healthy, Happens;
    if events != [] {
      var before := Life(item, events[..|events| - 1]);
      ReceiptFreezes(item, events[..|events| - 1]);
      EventKeepsReceipt(before, events[|events| - 1]);
    } else {
      HealthyReceipt(item);
    }
  }

  lemma HealthyReceipt(item: Invoice)
    requires Healthy(item) && item.receipt.Some?
    ensures item.amount > 0 ==> item.status.Paid?
  {
  }

  /** Any update a receipted invoice accepts leaves it paid exactly when there is an amount to be paid by. */
  lemma PaidNeedsAmount(item: Invoice, patch: Patch, linksHold: bool, numberFree: bool, now: int)
    requires Healthy(item) && item.receipt.Some? && Updated(item, patch, linksHold, numberFree, now).Ok?
    ensures var after := Updated(item, patch, linksHold, numberFree, now).value;
            && (after.status.Paid? <==> item.amount > 0)
            && (after.paidAt.Some? <==> item.amount > 0)
  {
    hide Subtotal, Tax, Normalized;
  }

  /** So a receipted invoice of amount zero can be sent back to draft. */
  lemma ZeroReceiptCanReopen(item: Invoice, now: int)
    requires Healthy(item) && item.receipt.Some? && item.amount == 0 && item.lines == [] && item.taxRate == 0
    ensures var patch := Patch(Absent, Absent, Absent, Absent, Given(Draft));
            var after := Happens(item, Update(patch, true, true, now));
            after.status.Draft? && after.paidAt.None? && after.receipt == item.receipt
  {
  }

  /** A null sent for the amount of a paid invoice passes every check and leaves more paid than owed. */
  lemma NullWipesAmount(item: Invoice, now: int)
    requires Healthy(item) && item.receipt.None? && item.lines == [] && item.taxRate == 0 && item.amount > 0
        && item.status.Paid?
    ensures var patch := Patch(Null, Absent, Absent, Absent, Absent);
            var after := Happens(item, Update(patch, true, true, now));
            after.amount == 0 && after.paid == item.amount && !Healthy(after)
  {
  }

  /** A null sent for the status is refused exactly where leaving it out is, and where nothing has been paid. */
  lemma NullStatusNeedsPayment(item: Invoice, patch: Patch, linksHold: bool, numberFree: bool, now: int)
    requires patch.status.Absent?
    ensures var sent := Updated(item, patch.(status := Null), linksHold, numberFree, now);
            var left := Updated(item, patch, linksHold, numberFree, now);
            && (sent.Ok? <==> left.Ok? && Or(patch.paid, item.paid) > 0)
            && (sent.Ok? ==> sent == left)
            && (!sent.Ok? ==> sent == if left.Ok? then Refused(StatusMissing) else left)
  {
    hide Subtotal, Tax, Normalized;
  }
}
