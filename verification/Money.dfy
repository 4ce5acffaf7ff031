/** Line totals, tax and rounding shared by quotes and invoices; quantities and rates are in hundredths. */
module Money {

  datatype LineInput = LineInput(quantity: nat, unitPrice: nat)

  datatype Line = Line(quantity: nat, unitPrice: nat, total: nat, position: nat)

  /** `Math.round(numerator / denominator)`, half up. */
  function Round(numerator: nat, denominator: nat): nat
    requires denominator > 0
  {
    (2 * numerator + denominator) / (2 * denominator)
  }

  function LineTotal(input: LineInput): nat {
    Round(input.quantity * input.unitPrice, 100)
  }

  /** The lines with their totals, in the order given. */
  function Normalized(inputs: seq<LineInput>): (lines: seq<Line>)
    ensures |lines| == |inputs|
  {
    seq(|inputs|, i requires 0 <= i < |inputs| =>
      Line(inputs[i].quantity, inputs[i].unitPrice, LineTotal(inputs[i]), i))
  }

  /** The inputs that lines were made from. */
  function InputsOf(lines: seq<Line>): (inputs: seq<LineInput>)
    ensures |inputs| == |lines|
  {
    seq(|lines|, i requires 0 <= i < |lines| => LineInput(lines[i].quantity, lines[i].unitPrice))
  }

  function Subtotal(lines: seq<Line>): nat {
    if lines == [] then 0 else Subtotal(lines[..|lines| - 1]) + lines[|lines| - 1].total
  }

  /** Tax at a rate in hundredths of a percent. */
  function Tax(subtotal: nat, rate: nat): nat {
    Round(subtotal * rate, 10_000)
  }

  function Total(lines: seq<Line>, rate: nat): nat {
    Subtotal(lines) + Tax(Subtotal(lines), rate)
  }

  lemma NormalizedAgain(inputs: seq<LineInput>)
    ensures InputsOf(Normalized(inputs)) == inputs
  {
  }

  /** The quotient lies between a half below r and a half above it, the half below included. */
  predicate RoundsTo(numerator: nat, denominator: nat, r: int) {
    2 * denominator * r - denominator <= 2 * numerator < 2 * denominator * r + denominator
  }

  lemma TimesOrdered(a: int, b: int, d: nat)
    requires a <= b
    ensures a * d <= b * d
  {
  }

  lemma QuotientIs(n: nat, d: nat, r: int)
    requires d > 0
    ensures n / d == r <==> r * d <= n < r * d + d
  {
    var q := n / d;
    assert q * d <= n < q * d + d;
    if r < q {
      TimesOrdered(r + 1, q, d);
    } else if r > q {
      TimesOrdered(q + 1, r, d);
    }
  }

  /** Half up: of the two nearest the larger, and that alone. */
  lemma RoundIs(numerator: nat, denominator: nat, r: int)
    requires denominator > 0
    ensures Round(numerator, denominator) == r <==> RoundsTo(numerator, denominator, r)
  {
    QuotientIs(2 * numerator + denominator, 2 * denominator, r);
    assert r * (2 * denominator) == 2 * denominator * r;
  }

  /** The lines are the inputs in their order, each with its rounded total. */
  ghost predicate LinesTell(lines: seq<Line>, inputs: seq<LineInput>) {
    && |lines| == |inputs|
    && forall i :: 0 <= i < |lines| ==>
         && lines[i].quantity == inputs[i].quantity && lines[i].unitPrice == inputs[i].unitPrice
         && lines[i].position == i
         && RoundsTo(inputs[i].quantity * inputs[i].unitPrice, 100, lines[i].total)
  }

  lemma NormalizedTells(inputs: seq<LineInput>)
    ensures LinesTell(Normalized(inputs), inputs)
  {
    hide RoundsTo;
    forall i | 0 <= i < |inputs|
      ensures RoundsTo(inputs[i].quantity * inputs[i].unitPrice, 100, Normalized(inputs)[i].total)
    {
      RoundIs(inputs[i].quantity * inputs[i].unitPrice, 100, LineTotal(inputs[i]));
    }
  }

  /** Rounding is off by at most a half. */
  lemma RoundIsNear(numerator: nat, denominator: nat)
    requires denominator > 0
    ensures 2 * numerator - denominator
            <= 2 * (Round(numerator, denominator) * denominator)
            <= 2 * numerator + denominator
  {
    var d := 2 * denominator;
    var q, r := (2 * numerator + denominator) / d, (2 * numerator + denominator) % d;
    assert 2 * numerator + denominator == q * d + r;
  }

  /** The exact subtotal, in hundredths. */
  function Exact(inputs: seq<LineInput>): nat {
    if inputs == [] then 0
    else Exact(inputs[..|inputs| - 1]) + inputs[|inputs| - 1].quantity * inputs[|inputs| - 1].unitPrice
  }

  /** Rounding each line drifts from the exact subtotal by at most half a unit a line. */
  lemma {:induction false} DriftIsBounded(inputs: seq<LineInput>)
    ensures var drift := 100 * Subtotal(Normalized(inputs)) - Exact(inputs);
            -50 * |inputs| <= drift <= 50 * |inputs|
  {
    if inputs != [] {
      var before, last := inputs[..|inputs| - 1], inputs[|inputs| - 1];
      DriftIsBounded(before);
      assert Normalized(inputs)[..|inputs| - 1] == Normalized(before);
      RoundIsNear(last.quantity * last.unitPrice, 100);
    }
  }
}
