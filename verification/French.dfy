/**
 * Whole numbers in French words, as the invoices and receipts print them, and a reader that
 * works out the value of what was printed, word by word.
 */
module French {
  import opened Wrappers

  // ------------------------------------------------------------------------------------------
  // The printer.

  /** `UNITS[k]`; beyond its twenty entries a template literal prints JavaScript's "undefined". */
  function Unit(k: nat): string {
    match k
    case 0 => "zéro"
    case 1 => "un"
    case 2 => "deux"
    case 3 => "trois"
    case 4 => "quatre"
    case 5 => "cinq"
    case 6 => "six"
    case 7 => "sept"
    case 8 => "huit"
    case 9 => "neuf"
    case 10 => "dix"
    case 11 => "onze"
    case 12 => "douze"
    case 13 => "treize"
    case 14 => "quatorze"
    case 15 => "quinze"
    case 16 => "seize"
    case 17 => "dix-sept"
    case 18 => "dix-huit"
    case 19 => "dix-neuf"
    case _ => "undefined"
  }

  /** `TENS[k]`. */
  function Tens(k: nat): string
    requires 2 <= k <= 6
  {
    match k
    case 2 => "vingt"
    case 3 => "trente"
    case 4 => "quarante"
    case 5 => "cinquante"
    case 6 => "soixante"
  }

  function TwoDigits(n: nat): string
    requires n < 100
  {
    if n < 20 then Unit(n)
    else if n < 70 then
      if n % 10 == 0 then Tens(n / 10)
      else if n % 10 == 1 then Tens(n / 10) + " et un"
      else Tens(n / 10) + "-" + Unit(n % 10)
    else if n < 80 then
      if n == 71 then "soixante et onze" else "soixante-" + Unit(n - 60)
    else if n == 80 then "quatre-vingts"
    else "quatre-vingt-" + Unit(n - 80)
  }

  function ThreeDigits(n: nat): string {
    var hundreds := n / 100;
    var rem := n % 100;
    var result :=
      if hundreds == 0 then ""
      else
        (if hundreds == 1 then "cent" else Unit(hundreds) + " cent") +
        (if rem == 0 && hundreds > 1 then "s" else "");
    if rem == 0 then result
    else if result == "" then TwoDigits(rem)
    else result + " " + TwoDigits(rem)
  }

  predicate EndsWith(s: string, tail: string) {
    |tail| <= |s| && s[|s| - |tail|..] == tail
  }

  /** `word.replace(/vingts$/, 'vingt').replace(/cents$/, 'cent')`. */
  function DropTerminalS(word: string): string {
    var w := if EndsWith(word, "vingts") then word[..|word| - 1] else word;
    if EndsWith(w, "cents") then w[..|w| - 1] else w
  }

  datatype Scale = Scale(value: nat, singular: string, plural: string)

  const SCALES: seq<Scale> := [Scale(1_000_000_000, "milliard", "milliards"), Scale(1_000_000, "million", "millions")]

  function ScalePart(count: nat, scale: Scale): seq<string> {
    if count == 0 then []
    else if count == 1 then ["un " + scale.singular]
    else [DropTerminalS(ThreeDigits(count)) + " " + scale.plural]
  }

  function ThousandPart(thousands: nat): seq<string> {
    if thousands == 0 then []
    else if thousands == 1 then ["mille"]
    else [DropTerminalS(ThreeDigits(thousands)) + " mille"]
  }

  /** The parts the scales from the i-th on take out of `n`. */
  function ScaleParts(n: nat, i: nat): seq<string>
    requires i <= |SCALES|
    decreases |SCALES| - i
  {
    if i == |SCALES| then []
    else ScalePart(n / SCALES[i].value, SCALES[i]) + ScaleParts(n % SCALES[i].value, i + 1)
  }

  /** What the scales from the i-th on leave of `n`. */
  function Rest(n: nat, i: nat): nat
    requires i <= |SCALES|
    decreases |SCALES| - i
  {
    if i == |SCALES| then n else Rest(n % SCALES[i].value, i + 1)
  }

  function Parts(n: nat): seq<string> {
    var rest := Rest(n, 0);
    var high := ScaleParts(n, 0) + ThousandPart(rest / 1_000);
    high + (if rest % 1_000 > 0 || high == [] then [ThreeDigits(rest % 1_000)] else [])
  }

  function Joined(parts: seq<string>): string {
    if parts == [] then ""
    else if |parts| == 1 then parts[0]
    else parts[0] + " " + Joined(parts[1..])
  }

  function InWords(n: nat): string {
    if n == 0 then "zéro" else Joined(Parts(n))
  }

  lemma Quotient(n: nat, d: nat)
    requires d > 0
    ensures n / d >= 0 && n - n / d * d == n % d
    ensures n / d == 0 ==> n % d == n
  {
  }

  /** One turn of the loop over the scales. */
  lemma ScaleStep(n: nat, i: nat)
    requires i < |SCALES|
    ensures var count := n / SCALES[i].value;
      var rest := n - count * SCALES[i].value;
      && count >= 0 && rest >= 0 && (count == 0 ==> rest == n)
      && ScaleParts(n, i) == ScalePart(count, SCALES[i]) + ScaleParts(rest, i + 1)
      && Rest(n, i) == Rest(rest, i + 1)
  {
    Quotient(n, SCALES[i].value);
  }

  /** A negative number is refused, as the source's exception does. */
  method NumberToFrenchWords(n: int) returns (words: Option<string>)
    ensures n < 0 ==> words == None
    ensures n >= 0 ==> words == Some(InWords(n))
  {
    hide DropTerminalS, ThreeDigits, Joined;
    if n < 0 { return None; }
    if n == 0 { return Some("zéro"); }
    var remaining, parts := TakeScales(n);
    var thousands := remaining / 1_000;
    if thousands > 0 {
      remaining := remaining - thousands * 1_000;
      parts := parts + [if thousands == 1 then "mille" else DropTerminalS(ThreeDigits(thousands)) + " mille"];
    }
    if remaining > 0 || |parts| == 0 {
      parts := parts + [ThreeDigits(remaining)];
    }
    assert parts == Parts(n);
    words := Some(Joined(parts));
  }

  /** The loop over the scales, largest first. */
  method TakeScales(n: nat) returns (remaining: nat, parts: seq<string>)
    ensures remaining == Rest(n, 0) && parts == ScaleParts(n, 0)
  {
    hide DropTerminalS, ThreeDigits, ScaleParts, Rest;
    remaining, parts := n, [];
    for i := 0 to |SCALES|
      invariant Rest(remaining, i) == Rest(n, 0)
      invariant parts + ScaleParts(remaining, i) == ScaleParts(n, 0)
    {
      var scale := SCALES[i];
      var count := remaining / scale.value;
      ScaleStep(remaining, i);
      if count > 0 {
        remaining := remaining - count * scale.value;
        var word := if count == 1 then scale.singular else scale.plural;
        parts := parts + [if count == 1 then "un " + word else DropTerminalS(ThreeDigits(count)) + " " + word];
      }
    }
    NoScaleLeft(remaining);
  }

  lemma NoScaleLeft(n: nat)
    ensures ScaleParts(n, |SCALES|) == [] && Rest(n, |SCALES|) == n
  {
  }

  // ------------------------------------------------------------------------------------------
  // The reader.

  /** What one word does to the value read so far. */
  datatype Meaning =
    | Small(value: nat)
    | Twenty
    | Hundred
    | Power(of1000: nat)
    | And

  datatype Entry = Entry(spelling: string, means: Meaning)

  const DICTIONARY: seq<Entry> := [
    Entry("un", Small(1)), Entry("deux", Small(2)), Entry("trois", Small(3)), Entry("quatre", Small(4)),
    Entry("cinq", Small(5)), Entry("six", Small(6)), Entry("sept", Small(7)), Entry("huit", Small(8)),
    Entry("neuf", Small(9)), Entry("dix", Small(10)), Entry("onze", Small(11)), Entry("douze", Small(12)),
    Entry("treize", Small(13)), Entry("quatorze", Small(14)), Entry("quinze", Small(15)), Entry("seize", Small(16)),
    Entry("trente", Small(30)), Entry("quarante", Small(40)), Entry("cinquante", Small(50)),
    Entry("soixante", Small(60)), Entry("vingt", Twenty), Entry("vingts", Twenty), Entry("cent", Hundred),
    Entry("cents", Hundred), Entry("mille", Power(1_000)), Entry("million", Power(1_000_000)),
    Entry("millions", Power(1_000_000)), Entry("milliard", Power(1_000_000_000)),
    Entry("milliards", Power(1_000_000_000)), Entry("et", And), Entry("zéro", Small(0))]

  function Look(word: string, k: nat): Option<Meaning>
    requires k <= |DICTIONARY|
    decreases |DICTIONARY| - k
  {
    if k == |DICTIONARY| then None
    else if DICTIONARY[k].spelling == word then Some(DICTIONARY[k].means)
    else Look(word, k + 1)
  }

  /** `closed` is what the powers of 1000 read so far are worth, `open` the number under way. */
  datatype Sum = Sum(closed: nat, open: nat)

  function Take(sum: Option<Sum>, word: string): Option<Sum> {
    if sum.None? then None
    else
      var Sum(closed, open) := sum.value;
      match Look(word, 0)
      case None => None
      case Some(Small(v)) => Some(Sum(closed, open + v))
      // « quatre-vingt » is eighty, not four and twenty.
      case Some(Twenty) => Some(Sum(closed, if open % 100 == 4 then open + 76 else open + 20))
      case Some(Hundred) => Some(Sum(closed, if open == 0 then 100 else open * 100))
      case Some(Power(p)) => Some(Sum(closed + (if open == 0 then 1 else open) * p, 0))
      case Some(And) => sum
  }

  function Eval(sum: Option<Sum>, words: seq<string>): Option<Sum>
    decreases |words|
  {
    if words == [] then sum else Eval(Take(sum, words[0]), words[1..])
  }

  predicate Separator(c: char) {
    c == ' ' || c == '-'
  }

  function FirstSeparator(s: string): (i: nat)
    ensures i <= |s|
    ensures i < |s| ==> Separator(s[i])
    ensures forall k :: 0 <= k < i ==> !Separator(s[k])
  {
    if s == "" || Separator(s[0]) then 0 else 1 + FirstSeparator(s[1..])
  }

  /** The words of a text, cut at spaces and hyphens. */
  function Words(s: string): seq<string> {
    var i := FirstSeparator(s);
    if i == |s| then [s] else [s[..i]] + Words(s[i + 1..])
  }

  function Read(s: string): Option<nat> {
    var sum := Eval(Some(Sum(0, 0)), Words(s));
    if sum.None? then None else Some(sum.value.closed + sum.value.open)
  }
}
