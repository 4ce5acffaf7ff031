/** The reader undoes the printer, for every number it prints without "undefined". */
module FrenchProofs {
  import opened Wrappers
  import opened French

  // ------------------------------------------------------------------------------------------
  // The dictionary has no two entries of one spelling.

  /** Length, first, middle and last character of a word in one number. */
  function Code(s: string): int
    requires |s| >= 2
  {
    |s| + 0x10 * s[0] as int + 0x1000 * s[|s| / 2] as int + 0x100000 * s[|s| - 1] as int
  }

  /** The code of the k-th entry's spelling. */
  function CodeAt(k: nat): int {
    match k
    case 0 => 115795794
    case 1 => 126309956
    case 2 => 121042757
    case 3 => 106383126
    case 4 => 118941236
    case 5 => 126261043
    case 6 => 122095412
    case 7 => 122066564
    case 8 => 107435748
    case 9 => 126260803
    case 10 => 106407668
    case 11 => 106387013
    case 12 => 106338118
    case 13 => 106362648
    case 14 => 106358550
    case 15 => 106338101
    case 16 => 106358598
    case 17 => 106305304
    case 18 => 106387001
    case 19 => 106305336
    case 20 => 122087269
    case 21 => 121010022
    case 22 => 122086964
    case 23 => 121038389
    case 24 => 106350293
    case 25 => 115787479
    case 26 => 121018072
    case 27 => 105289432
    case 28 => 121018073
    case 29 => 122111570
    case 30 => 116860836
    case _ => 0
  }

  function EntryOf(code: int): int {
    if code == 115795794 then 0
    else if code == 126309956 then 1
    else if code == 121042757 then 2
    else if code == 106383126 then 3
    else if code == 118941236 then 4
    else if code == 126261043 then 5
    else if code == 122095412 then 6
    else if code == 122066564 then 7
    else if code == 107435748 then 8
    else if code == 126260803 then 9
    else if code == 106407668 then 10
    else if code == 106387013 then 11
    else if code == 106338118 then 12
    else if code == 106362648 then 13
    else if code == 106358550 then 14
    else if code == 106338101 then 15
    else if code == 106358598 then 16
    else if code == 106305304 then 17
    else if code == 106387001 then 18
    else if code == 106305336 then 19
    else if code == 122087269 then 20
    else if code == 121010022 then 21
    else if code == 122086964 then 22
    else if code == 121038389 then 23
    else if code == 106350293 then 24
    else if code == 115787479 then 25
    else if code == 121018072 then 26
    else if code == 105289432 then 27
    else if code == 121018073 then 28
    else if code == 122111570 then 29
    else if code == 116860836 then 30
    else -1
  }

  lemma UnitCode(k: nat)
    requires 0 <= k < 16
    ensures |DICTIONARY[k].spelling| >= 2 && Code(DICTIONARY[k].spelling) == CodeAt(k)
  {
    match k
    case 0 => assert Code("un") == 115795794;
    case 1 => assert Code("deux") == 126309956;
    case 2 => assert Code("trois") == 121042757;
    case 3 => assert Code("quatre") == 106383126;
    case 4 => assert Code("cinq") == 118941236;
    case 5 => assert Code("six") == 126261043;
    case 6 => assert Code("sept") == 122095412;
    case 7 => assert Code("huit") == 122066564;
    case 8 => assert Code("neuf") == 107435748;
    case 9 => assert Code("dix") == 126260803;
    case 10 => assert Code("onze") == 106407668;
    case 11 => assert Code("douze") == 106387013;
    case 12 => assert Code("treize") == 106338118;
    case 13 => assert Code("quatorze") == 106362648;
    case 14 => assert Code("quinze") == 106358550;
    case 15 => assert Code("seize") == 106338101;
  }

  lemma TensCode(k: nat)
    requires 16 <= k < 20
    ensures |DICTIONARY[k].spelling| >= 2 && Code(DICTIONARY[k].spelling) == CodeAt(k)
  {
    match k
    case 16 => assert Code("trente") == 106358598;
    case 17 => assert Code("quarante") == 106305304;
    case 18 => assert Code("cinquante") == 106387001;
    case 19 => assert Code("soixante") == 106305336;
  }

  lemma HundredCode(k: nat)
    requires 20 <= k < 24
    ensures |DICTIONARY[k].spelling| >= 2 && Code(DICTIONARY[k].spelling) == CodeAt(k)
  {
    match k
    case 20 => assert Code("vingt") == 122087269;
    case 21 => assert Code("vingts") == 121010022;
    case 22 => assert Code("cent") == 122086964;
    case 23 => assert Code("cents") == 121038389;
  }

  lemma ScaleCode(k: nat)
    requires 24 <= k < 31
    ensures |DICTIONARY[k].spelling| >= 2 && Code(DICTIONARY[k].spelling) == CodeAt(k)
  {
    match k
    case 24 => assert Code("mille") == 106350293;
    case 25 => assert Code("million") == 115787479;
    case 26 => assert Code("millions") == 121018072;
    case 27 => assert Code("milliard") == 105289432;
    case 28 => assert Code("milliards") == 121018073;
    case 29 => assert Code("et") == 122111570;
    case 30 => assert Code("zéro") == 116860836;
  }

  lemma SpellingCode(k: nat)
    requires k < |DICTIONARY|
    ensures |DICTIONARY[k].spelling| >= 2 && Code(DICTIONARY[k].spelling) == CodeAt(k)
  {
    hide Code, CodeAt;
    if k < 16 { UnitCode(k); } else if k < 20 { TensCode(k); } else if k < 24 { HundredCode(k); } else { ScaleCode(k); }
  }

  lemma CodesDistinct(k: nat)
    requires k < |DICTIONARY|
    ensures EntryOf(CodeAt(k)) == k
  {
  }

  lemma {:induction false} LookFrom(k: nat, i: nat)
    requires i <= k < |DICTIONARY|
    ensures Look(DICTIONARY[k].spelling, i) == Some(DICTIONARY[k].means)
    decreases k - i
  {
    hide Code, CodeAt, EntryOf;
    if i < k {
      SpellingCode(k);
      SpellingCode(i);
      CodesDistinct(k);
      CodesDistinct(i);
      LookFrom(k, i + 1);
    }
  }

  /** The dictionary gives an entry's spelling its meaning. */
  lemma Means(k: nat)
    requires k < |DICTIONARY|
    ensures Look(DICTIONARY[k].spelling, 0) == Some(DICTIONARY[k].means)
  {
    LookFrom(k, 0);
  }

  lemma {:induction false} UndefinedFrom(i: nat)
    requires i <= |DICTIONARY|
    ensures Look("undefined", i) == None
    decreases |DICTIONARY| - i
  {
    if i < |DICTIONARY| {
      SpellingCode(i);
      CodesDistinct(i);
      assert Code("undefined") == 105277273;
      UndefinedFrom(i + 1);
    }
  }

  // ------------------------------------------------------------------------------------------
  // Cutting a text into words.

  predicate Solid(s: string) {
    forall i :: 0 <= i < |s| ==> !Separator(s[i])
  }

  lemma SolidWord(s: string)
    requires Solid(s)
    ensures Words(s) == [s]
  {
  }

  lemma {:induction false} FirstSeparatorOf(a: string, c: char, b: string)
    requires Separator(c)
    ensures FirstSeparator(a + [c] + b) == FirstSeparator(a)
  {
    if a == "" {
      assert (a + [c] + b)[0] == c;
    } else {
      assert (a + [c] + b)[1..] == a[1..] + [c] + b;
      if !Separator(a[0]) {
        FirstSeparatorOf(a[1..], c, b);
      }
    }
  }

  lemma Grouped(a: seq<string>, b: seq<string>, c: seq<string>)
    ensures a + (b + c) == a + b + c
  {
  }

  /** A separator between two texts separates their words. */
  lemma {:induction false} WordsJoined(a: string, c: char, b: string)
    requires Separator(c)
    ensures Words(a + [c] + b) == Words(a) + Words(b)
    decreases |a|
  {
    var s := a + [c] + b;
    var i := FirstSeparator(a);
    FirstSeparatorOf(a, c, b);
    if i == |a| {
      assert s[..i] == a && s[i + 1..] == b;
    } else {
      assert s[..i] == a[..i];
      assert s[i + 1..] == a[i + 1..] + [c] + b;
      WordsJoined(a[i + 1..], c, b);
      Grouped([a[..i]], Words(a[i + 1..]), Words(b));
    }
  }

  lemma {:induction false} EvalConcat(sum: Option<Sum>, a: seq<string>, b: seq<string>)
    ensures Eval(sum, a + b) == Eval(Eval(sum, a), b)
    decreases |a|
  {
    if a == [] {
      assert a + b == b;
    } else {
      assert (a + b)[0] == a[0] && (a + b)[1..] == a[1..] + b;
      EvalConcat(Take(sum, a[0]), a[1..], b);
    }
  }

  /** What a text does to a sum. */
  function Said(sum: Sum, s: string): Option<Sum> {
    Eval(Some(sum), Words(s))
  }

  lemma SaidJoined(sum: Sum, a: string, c: char, b: string)
    requires Separator(c)
    ensures Said(sum, a + [c] + b) == Eval(Said(sum, a), Words(b))
    ensures Said(sum, a).Some? ==> Said(sum, a + [c] + b) == Said(Said(sum, a).value, b)
  {
    WordsJoined(a, c, b);
    EvalConcat(Some(sum), Words(a), Words(b));
  }

  lemma SaidSolid(sum: Sum, s: string)
    requires Solid(s)
    ensures Said(sum, s) == Take(Some(sum), s)
  {
    SolidWord(s);
    assert Eval(Take(Some(sum), s), [s][1..]) == Take(Some(sum), s);
  }

  // ------------------------------------------------------------------------------------------
  // What the printer's building blocks say.

  lemma SolidLow(k: nat)
    requires 0 <= k < 10
    ensures Solid(DICTIONARY[k].spelling)
  {
  }

  lemma SolidMiddle(k: nat)
    requires 10 <= k < 20
    ensures Solid(DICTIONARY[k].spelling)
  {
  }

  lemma SolidHigh(k: nat)
    requires 20 <= k < 31
    ensures Solid(DICTIONARY[k].spelling)
  {
  }

  /** A dictionary word does what its entry means. */
  lemma SaysEntry(sum: Sum, k: nat)
    requires k < |DICTIONARY|
    ensures Said(sum, DICTIONARY[k].spelling) == Take(Some(sum), DICTIONARY[k].spelling)
    ensures Look(DICTIONARY[k].spelling, 0) == Some(DICTIONARY[k].means)
  {
    if k < 10 { SolidLow(k); } else if k < 20 { SolidMiddle(k); } else { SolidHigh(k); }
    SaidSolid(sum, DICTIONARY[k].spelling);
    Means(k);
  }

  lemma LowUnitIsEntry(k: nat)
    requires 1 <= k < 9
    ensures Unit(k) == DICTIONARY[k - 1].spelling && DICTIONARY[k - 1].means == Small(k)
  {
    match k
    case 1 => assert DICTIONARY[0].spelling == Unit(1);
    case 2 => assert DICTIONARY[1].spelling == Unit(2);
    case 3 => assert DICTIONARY[2].spelling == Unit(3);
    case 4 => assert DICTIONARY[3].spelling == Unit(4);
    case 5 => assert DICTIONARY[4].spelling == Unit(5);
    case 6 => assert DICTIONARY[5].spelling == Unit(6);
    case 7 => assert DICTIONARY[6].spelling == Unit(7);
    case 8 => assert DICTIONARY[7].spelling == Unit(8);
  }

  lemma HighUnitIsEntry(k: nat)
    requires 9 <= k < 17
    ensures Unit(k) == DICTIONARY[k - 1].spelling && DICTIONARY[k - 1].means == Small(k)
  {
    match k
    case 9 => assert DICTIONARY[8].spelling == Unit(9);
    case 10 => assert DICTIONARY[9].spelling == Unit(10);
    case 11 => assert DICTIONARY[10].spelling == Unit(11);
    case 12 => assert DICTIONARY[11].spelling == Unit(12);
    case 13 => assert DICTIONARY[12].spelling == Unit(13);
    case 14 => assert DICTIONARY[13].spelling == Unit(14);
    case 15 => assert DICTIONARY[14].spelling == Unit(15);
    case 16 => assert DICTIONARY[15].spelling == Unit(16);
  }

  lemma SaysLowUnit(sum: Sum, k: nat)
    requires 1 <= k <= 16
    ensures Said(sum, Unit(k)) == Some(sum.(open := sum.open + k))
  {
    hide Unit, Said, Look;
    if k < 9 { LowUnitIsEntry(k); } else { HighUnitIsEntry(k); }
    SaysEntry(sum, k - 1);
  }

  lemma TeenIsTwoWords(k: nat)
    requires 17 <= k <= 19
    ensures Unit(k) == Unit(10) + ['-'] + Unit(k - 10)
  {
  }

  lemma SaysUnit(sum: Sum, k: nat)
    requires 1 <= k <= 19
    ensures Said(sum, Unit(k)) == Some(sum.(open := sum.open + k))
  {
    hide Unit, Said;
    if k <= 16 {
      SaysLowUnit(sum, k);
    } else {
      SaysLowUnit(sum, 10);
      SaysLowUnit(sum.(open := sum.open + 10), k - 10);
      TeenIsTwoWords(k);
      SaidJoined(sum, Unit(10), '-', Unit(k - 10));
    }
  }

  lemma SaysTens(sum: Sum, t: nat)
    requires 2 <= t <= 6 && sum.open % 100 == 0
    ensures Said(sum, Tens(t)) == Some(sum.(open := sum.open + 10 * t))
  {
    hide Said, Look;
    match t
    case 2 => assert DICTIONARY[20] == Entry("vingt", Twenty); SaysEntry(sum, 20);
    case 3 => assert DICTIONARY[16] == Entry("trente", Small(30)); SaysEntry(sum, 16);
    case 4 => assert DICTIONARY[17] == Entry("quarante", Small(40)); SaysEntry(sum, 17);
    case 5 => assert DICTIONARY[18] == Entry("cinquante", Small(50)); SaysEntry(sum, 18);
    case 6 => assert DICTIONARY[19] == Entry("soixante", Small(60)); SaysEntry(sum, 19);
  }

  lemma SaysAnd(sum: Sum)
    ensures Said(sum, "et") == Some(sum)
  {
    hide Said, Look;
    assert DICTIONARY[29] == Entry("et", And);
    SaysEntry(sum, 29);
  }

  /** « vingt » or « vingts » after « quatre » makes eighty of it. */
  lemma SaysFourTwenties(sum: Sum, twenty: string)
    requires Said(sum.(open := sum.open + 4), twenty) == Some(sum.(open := sum.open + 80))
    ensures Said(sum, "quatre" + ['-'] + twenty) == Some(sum.(open := sum.open + 80))
  {
    SaysLowUnit(sum, 4);
    FourIs();
    hide Said, Unit;
    SaidJoined(sum, "quatre", '-', twenty);
  }

  lemma SaysTwenty(sum: Sum, k: nat)
    requires sum.open % 100 == 4 && 20 <= k <= 21
    ensures Said(sum, DICTIONARY[k].spelling) == Some(sum.(open := sum.open + 76))
  {
    hide Said, Look;
    TwentyIs(k);
    SaysEntry(sum, k);
  }

  lemma FourIs()
    ensures Unit(4) == "quatre"
  {
  }

  lemma TwentyIs(k: nat)
    requires 20 <= k <= 21
    ensures DICTIONARY[k].means == Twenty && DICTIONARY[k].spelling == if k == 20 then "vingt" else "vingts"
  {
    assert DICTIONARY[20] == Entry("vingt", Twenty) && DICTIONARY[21] == Entry("vingts", Twenty);
  }

  /** « quatre-vingt », with its s or without. */
  lemma SaysEighty(sum: Sum)
    requires sum.open % 100 == 0
    ensures Said(sum, "quatre-vingts") == Some(sum.(open := sum.open + 80))
    ensures Said(sum, "quatre-vingt") == Some(sum.(open := sum.open + 80))
  {
    hide Said;
    var four := sum.(open := sum.open + 4);
    SaysTwenty(four, 20);
    SaysTwenty(four, 21);
    TwentyIs(20);
    TwentyIs(21);
    SaysFourTwenties(sum, "vingt");
    SaysFourTwenties(sum, "vingts");
    assert "quatre-vingts" == "quatre" + ['-'] + "vingts";
    assert "quatre-vingt" == "quatre" + ['-'] + "vingt";
  }

  lemma SaysThen(sum: Sum, a: string, mid: Sum, c: char, b: string, last: Sum)
    requires Separator(c) && Said(sum, a) == Some(mid) && Said(mid, b) == Some(last)
    ensures Said(sum, a + [c] + b) == Some(last)
  {
    SaidJoined(sum, a, c, b);
  }

  /** Below a hundred: read after whole hundreds, the text adds its number. */
  lemma SaysTwoDigits(sum: Sum, n: nat)
    requires 0 < n < 100 && sum.open % 100 == 0
    ensures Said(sum, TwoDigits(n)) == Some(sum.(open := sum.open + n))
  {
    hide Said, Unit, Tens;
    if n < 20 {
      SaysUnit(sum, n);
    } else if n < 70 {
      var t, u := n / 10, n % 10;
      assert n == 10 * t + u;
      SaysTens(sum, t);
      if u > 0 {
        SaysTensAndUnit(sum, Tens(t), 10 * t, u);
      }
    } else if n < 80 {
      SaysTens(sum, 6);
      TensSix();
      SaysTensAndUnit(sum, "soixante", 60, n - 60);
      assert "soixante-" == "soixante" + "-" && "soixante et onze" == "soixante" + " et onze";
    } else {
      SaysEighty(sum);
      if n > 80 {
        SaysHyphen(sum, "quatre-vingt", 80, n - 80);
        assert TwoDigits(n) == "quatre-vingt" + ['-'] + Unit(n - 80);
      }
    }
  }

  lemma TensSix()
    ensures Tens(6) == "soixante" && Unit(11) == "onze" && Unit(1) == "un"
  {
  }

  lemma SaysHyphen(sum: Sum, tens: string, t: nat, k: nat)
    requires 1 <= k <= 19 && Said(sum, tens) == Some(sum.(open := sum.open + t))
    ensures Said(sum, tens + ['-'] + Unit(k)) == Some(sum.(open := sum.open + t + k))
  {
    hide Said, Unit;
    SaysUnit(sum.(open := sum.open + t), k);
    SaidJoined(sum, tens, '-', Unit(k));
  }

  lemma SaysAndUnit(sum: Sum, tens: string, t: nat, k: nat)
    requires 1 <= k <= 19 && Said(sum, tens) == Some(sum.(open := sum.open + t))
    ensures Said(sum, tens + [' '] + "et" + [' '] + Unit(k)) == Some(sum.(open := sum.open + t + k))
  {
    hide Said, Unit;
    var mid := sum.(open := sum.open + t);
    SaysAnd(mid);
    SaysUnit(mid, k);
    SaysThen(sum, tens, mid, ' ', "et", mid);
    SaysThen(sum, tens + [' '] + "et", mid, ' ', Unit(k), sum.(open := sum.open + t + k));
  }

  /** « trente-quatre », « vingt et un », « soixante et onze », « soixante-dix-sept ». */
  lemma SaysTensAndUnit(sum: Sum, tens: string, t: nat, k: nat)
    requires 1 <= k <= 19 && Said(sum, tens) == Some(sum.(open := sum.open + t))
    ensures Said(sum, tens + "-" + Unit(k)) == Some(sum.(open := sum.open + t + k))
    ensures k == 1 ==> Said(sum, tens + " et un") == Some(sum.(open := sum.open + t + k))
    ensures k == 11 ==> Said(sum, tens + " et onze") == Some(sum.(open := sum.open + t + k))
  {
    hide Said, Unit;
    SaysHyphen(sum, tens, t, k);
    SaysAndUnit(sum, tens, t, k);
    TensSix();
    AndText(tens);
  }

  lemma AndText(tens: string)
    ensures tens + " et un" == tens + [' '] + "et" + [' '] + "un"
    ensures tens + " et onze" == tens + [' '] + "et" + [' '] + "onze"
  {
  }

  // ------------------------------------------------------------------------------------------
  // Hundreds, and the s that falls before another number word.

  lemma SaysCent(sum: Sum)
    ensures Said(sum, "cent") == Some(sum.(open := if sum.open == 0 then 100 else sum.open * 100))
    ensures Said(sum, "cents") == Some(sum.(open := if sum.open == 0 then 100 else sum.open * 100))
  {
    hide Said, Look;
    assert DICTIONARY[22] == Entry("cent", Hundred) && DICTIONARY[23] == Entry("cents", Hundred);
    SaysEntry(sum, 22);
    SaysEntry(sum, 23);
  }

  /** The hundreds of a number, before the s of a round one. */
  function Head(h: nat): string {
    if h == 0 then "" else if h == 1 then "cent" else Unit(h) + " cent"
  }

  lemma HeadText(h: nat)
    requires h > 1
    ensures Head(h) == Unit(h) + [' '] + "cent" && Head(h) + "s" == Unit(h) + [' '] + "cents"
  {
    hide Unit;
  }

  lemma SaysHead(sum: Sum, h: nat)
    requires 1 <= h <= 19 && sum.open == 0
    ensures Said(sum, Head(h)) == Some(sum.(open := 100 * h))
    ensures h > 1 ==> Said(sum, Head(h) + "s") == Some(sum.(open := 100 * h))
  {
    if h == 1 {
      hide Said;
      SaysCent(sum);
    } else {
      hide Said, Unit, Head;
      HeadText(h);
      SaysUnit(sum, h);
      SaysCent(sum.(open := h));
      SaysThen(sum, Unit(h), sum.(open := h), ' ', "cent", sum.(open := 100 * h));
      SaysThen(sum, Unit(h), sum.(open := h), ' ', "cents", sum.(open := 100 * h));
    }
  }

  /** The text of a number below a thousand, hundreds and rest apart. */
  lemma ThreeDigitsShape(n: nat)
    ensures ThreeDigits(n) ==
      if n % 100 == 0 then (if n / 100 > 1 then Head(n / 100) + "s" else Head(n / 100))
      else if n / 100 == 0 then TwoDigits(n % 100)
      else Head(n / 100) + [' '] + TwoDigits(n % 100)
  {
    hide Unit, TwoDigits;
  }

  lemma SaysThreeDigits(sum: Sum, n: nat)
    requires 1 <= n < 2000 && sum.open == 0
    ensures Said(sum, ThreeDigits(n)) == Some(sum.(open := n))
  {
    hide Said, Head, TwoDigits, ThreeDigits;
    var h, r := n / 100, n % 100;
    assert n == 100 * h + r;
    ThreeDigitsShape(n);
    if h > 0 { SaysHead(sum, h); }
    if r > 0 {
      SaysTwoDigits(sum.(open := 100 * h), r);
      if h > 0 { SaidJoined(sum, Head(h), ' ', TwoDigits(r)); }
    }
  }

  /** Does not end in « …ts », so neither « vingts » nor « cents » is at the end. */
  predicate NotPlural(s: string) {
    |s| >= 2 && !(s[|s| - 1] == 's' && s[|s| - 2] == 't')
  }

  /** The last three characters of a text in the plural. */
  lemma PluralEnd(s: string)
    ensures EndsWith(s, "vingts") ==> s[|s| - 3] == 'g' && s[|s| - 2] == 't' && s[|s| - 1] == 's'
    ensures EndsWith(s, "cents") ==> s[|s| - 3] == 'n' && s[|s| - 2] == 't' && s[|s| - 1] == 's'
  {
    if EndsWith(s, "vingts") {
      var tail := s[|s| - 6..];
      assert tail[3] == 'g' && tail[4] == 't' && tail[5] == 's';
    }
    if EndsWith(s, "cents") {
      var tail := s[|s| - 5..];
      assert tail[2] == 'n' && tail[3] == 't' && tail[4] == 's';
    }
  }

  lemma NothingDropped(s: string)
    requires NotPlural(s)
    ensures DropTerminalS(s) == s
  {
    PluralEnd(s);
    hide EndsWith;
  }

  lemma VingtsDropped(a: string)
    ensures DropTerminalS(a + "vingts") == a + "vingt"
  {
    var s := a + "vingts";
    assert s[|s| - 6..] == "vingts";
    assert s[..|s| - 1] == a + "vingt";
    PluralEnd(a + "vingt");
  }

  lemma CentsDropped(a: string)
    ensures DropTerminalS(a + "cents") == a + "cent"
  {
    var s := a + "cents";
    assert s[|s| - 5..] == "cents";
    assert s[|s| - 3] == 'n';
    PluralEnd(s);
    assert s[..|s| - 1] == a + "cent";
  }

  lemma UnitEnd(k: nat)
    requires 1 <= k <= 19
    ensures NotPlural(Unit(k))
  {
  }

  lemma TensEnd(t: nat)
    requires 2 <= t <= 6
    ensures NotPlural(Tens(t))
  {
  }

  lemma EndOf(a: string, b: string)
    requires NotPlural(b)
    ensures NotPlural(a + b)
  {
  }

  lemma TwoDigitsEnd(n: nat)
    requires 0 < n < 100 && n != 80
    ensures NotPlural(TwoDigits(n))
  {
    hide Unit, Tens, NotPlural;
    UnitEnd(if n < 20 then n
            else if n < 70 then (if n % 10 == 0 then 1 else n % 10)
            else if n < 80 then n - 60
            else n - 80);
    if n < 20 {
    } else if n < 70 {
      TensEnd(n / 10);
      TensSix();
      if n % 10 == 1 {
        EndOf(Tens(n / 10) + " et ", "un");
        assert Tens(n / 10) + " et " + "un" == Tens(n / 10) + " et un";
      } else if n % 10 > 0 {
        EndOf(Tens(n / 10) + "-", Unit(n % 10));
      }
    } else if n < 80 {
      TensSix();
      EndOf("soixante-", Unit(n - 60));
      EndOf("soixante et ", Unit(n - 60));
      assert "soixante et onze" == "soixante et " + "onze";
    } else {
      EndOf("quatre-vingt-", Unit(n - 80));
    }
  }

  /** Without its final s a number still says what it said. */
  lemma SaysDropped(sum: Sum, n: nat)
    requires 1 <= n < 2000 && sum.open == 0
    ensures Said(sum, DropTerminalS(ThreeDigits(n))) == Some(sum.(open := n))
  {
    hide Said, DropTerminalS, Head, TwoDigits, ThreeDigits, NotPlural;
    var h, r := n / 100, n % 100;
    assert n == 100 * h + r;
    ThreeDigitsShape(n);
    if r == 0 && h > 1 {
      RoundDropped(sum, h);
    } else if r == 80 {
      EightyDropped(sum, h);
    } else {
      NumberEnd(h, r);
      NothingDropped(ThreeDigits(n));
      SaysThreeDigits(sum, n);
    }
  }

  lemma NumberEnd(h: nat, r: nat)
    requires h <= 19 && r < 100 && r != 80 && (r == 0 ==> h == 1)
    ensures r == 0 ==> NotPlural(Head(h))
    ensures r > 0 ==> NotPlural(TwoDigits(r)) && NotPlural(Head(h) + [' '] + TwoDigits(r))
  {
    if r > 0 {
      hide TwoDigits, Head, NotPlural;
      TwoDigitsEnd(r);
      EndOf(Head(h) + [' '], TwoDigits(r));
    }
  }

  lemma RoundDropped(sum: Sum, h: nat)
    requires 2 <= h <= 19 && sum.open == 0
    ensures Said(sum, DropTerminalS(Head(h) + "s")) == Some(sum.(open := 100 * h))
  {
    hide Said, DropTerminalS, Unit;
    CentsDropped(Unit(h) + " ");
    assert Head(h) + "s" == Unit(h) + " " + "cents" && Head(h) == Unit(h) + " " + "cent";
    SaysHead(sum, h);
  }

  lemma EightyText(before: string)
    ensures before + "quatre-" + "vingts" == before + "quatre-vingts"
    ensures before + "quatre-" + "vingt" == before + "quatre-vingt"
    ensures TwoDigits(80) == "quatre-vingts" && "" + "quatre-vingts" == "quatre-vingts"
  {
  }

  lemma EightyDropped(sum: Sum, h: nat)
    requires h <= 19 && sum.open == 0
    ensures Said(sum, DropTerminalS(if h == 0 then TwoDigits(80) else Head(h) + [' '] + TwoDigits(80)))
         == Some(sum.(open := 100 * h + 80))
  {
    hide Said, DropTerminalS, Head, TwoDigits;
    var before := if h == 0 then "" else Head(h) + [' '];
    VingtsDropped(before + "quatre-");
    EightyText(before);
    SaysEighty(sum.(open := 100 * h));
    if h == 0 {
      assert before + "quatre-vingt" == "quatre-vingt";
    } else {
      SaysHead(sum, h);
      SaysThen(sum, Head(h), sum.(open := 100 * h), ' ', "quatre-vingt", sum.(open := 100 * h + 80));
    }
  }

  // ------------------------------------------------------------------------------------------
  // Whole numbers.

  lemma SaysPower(sum: Sum, k: nat)
    requires 24 <= k <= 28
    ensures var p := if k == 24 then 1_000 else if k <= 26 then 1_000_000 else 1_000_000_000;
      Said(sum, DICTIONARY[k].spelling) == Some(Sum(sum.closed + (if sum.open == 0 then 1 else sum.open) * p, 0))
    ensures DICTIONARY[k].spelling == if k == 24 then "mille" else if k == 25 then "million"
      else if k == 26 then "millions" else if k == 27 then "milliard" else "milliards"
  {
    hide Said, Look;
    assert DICTIONARY[24] == Entry("mille", Power(1_000));
    assert DICTIONARY[25] == Entry("million", Power(1_000_000));
    assert DICTIONARY[26] == Entry("millions", Power(1_000_000));
    assert DICTIONARY[27] == Entry("milliard", Power(1_000_000_000));
    assert DICTIONARY[28] == Entry("milliards", Power(1_000_000_000));
    SaysEntry(sum, k);
  }

  /** What a scale adds to what is closed. */
  lemma SaysScale(closed: nat, count: nat, i: nat)
    requires i < 2 && 1 <= count < 2000
    ensures |ScalePart(count, SCALES[i])| == 1
    ensures Said(Sum(closed, 0), ScalePart(count, SCALES[i])[0]) == Some(Sum(closed + count * SCALES[i].value, 0))
  {
    hide Said, DropTerminalS, ThreeDigits;
    var sum := Sum(closed, 0);
    var mid := Sum(closed, count);
    assert SCALES[0] == Scale(1_000_000_000, "milliard", "milliards");
    assert SCALES[1] == Scale(1_000_000, "million", "millions");
    SaysPower(mid, if i == 0 then 27 else 25);
    SaysPower(mid, if i == 0 then 28 else 26);
    if count == 1 {
      SaysLowUnit(sum, 1);
      TensSix();
      SaysThen(sum, "un", mid, ' ', SCALES[i].singular, Sum(closed + SCALES[i].value, 0));
      assert "un " + SCALES[i].singular == "un" + [' '] + SCALES[i].singular;
    } else {
      SaysDropped(sum, count);
      var text := DropTerminalS(ThreeDigits(count));
      SaysThen(sum, text, mid, ' ', SCALES[i].plural, Sum(closed + count * SCALES[i].value, 0));
      assert text + " " + SCALES[i].plural == text + [' '] + SCALES[i].plural;
    }
  }

  lemma SaysThousands(closed: nat, count: nat)
    requires 1 <= count < 1000
    ensures |ThousandPart(count)| == 1
    ensures Said(Sum(closed, 0), ThousandPart(count)[0]) == Some(Sum(closed + count * 1_000, 0))
  {
    hide Said, DropTerminalS, ThreeDigits;
    var sum := Sum(closed, 0);
    SaysPower(sum, 24);
    SaysPower(Sum(closed, count), 24);
    if count > 1 {
      SaysDropped(sum, count);
      var text := DropTerminalS(ThreeDigits(count));
      SaysThen(sum, text, Sum(closed, count), ' ', "mille", Sum(closed + count * 1_000, 0));
      assert text + " mille" == text + [' '] + "mille";
    }
  }

  /** What a list of parts says, one after the other. */
  function SaidAll(sum: Option<Sum>, parts: seq<string>): Option<Sum> {
    if parts == [] then sum
    else
      var before := SaidAll(sum, parts[..|parts| - 1]);
      if before.None? then None else Said(before.value, parts[|parts| - 1])
  }

  lemma {:induction false} JoinedSnoc(parts: seq<string>, last: string)
    requires parts != []
    ensures Joined(parts + [last]) == Joined(parts) + [' '] + last
  {
    if |parts| == 1 {
      assert (parts + [last])[1..] == [last];
      assert parts[0] + " " + last == parts[0] + [' '] + last;
    } else {
      JoinedSnoc(parts[1..], last);
      assert (parts + [last])[1..] == parts[1..] + [last];
      assert parts[0] + " " + (Joined(parts[1..]) + [' '] + last) == parts[0] + " " + Joined(parts[1..]) + [' '] + last;
    }
  }

  lemma {:induction false} EvalNone(words: seq<string>)
    ensures Eval(None, words) == None
    decreases |words|
  {
    if words != [] {
      EvalNone(words[1..]);
    }
  }

  /** Joined parts say what they say one by one. */
  lemma {:induction false} SaidJoinedParts(sum: Sum, parts: seq<string>)
    requires parts != []
    ensures Said(sum, Joined(parts)) == SaidAll(Some(sum), parts)
  {
    var k := |parts| - 1;
    if k == 0 {
      assert parts[..0] == [];
    } else {
      var init := parts[..k];
      SaidJoinedParts(sum, init);
      JoinedSnoc(init, parts[k]);
      assert parts == init + [parts[k]];
      SaidJoined(sum, Joined(init), ' ', parts[k]);
      EvalNone(Words(parts[k]));
    }
  }

  lemma SaidAllConcat(sum: Option<Sum>, parts: seq<string>, more: seq<string>)
    requires |more| <= 1
    ensures SaidAll(sum, parts + more)
         == var before := SaidAll(sum, parts);
            if more == [] then before else if before.None? then None else Said(before.value, more[0])
  {
    if more == [] {
      assert parts + more == parts;
    } else {
      assert (parts + more)[..|parts|] == parts;
    }
  }

  /** One group of the number: nothing when it is zero, else one part that adds it. */
  lemma AddGroup(parts: seq<string>, closed: nat, more: seq<string>, amount: nat)
    requires SaidAll(Some(Sum(0, 0)), parts) == Some(Sum(closed, 0)) && |more| <= 1
    requires if more == [] then amount == 0 else Said(Sum(closed, 0), more[0]) == Some(Sum(closed + amount, 0))
    ensures SaidAll(Some(Sum(0, 0)), parts + more) == Some(Sum(closed + amount, 0))
  {
    hide Said;
    SaidAllConcat(Some(Sum(0, 0)), parts, more);
  }

  lemma TwoScales()
    ensures |SCALES| == 2
    ensures SCALES[0] == Scale(1_000_000_000, "milliard", "milliards")
    ensures SCALES[1] == Scale(1_000_000, "million", "millions")
  {
  }

  /** The two scales, written out. */
  lemma PartsShape(n: nat)
    ensures Rest(n, 0) == n % 1_000_000
    ensures |SCALES| == 2 && ScaleParts(n, 0) == ScalePart(n / 1_000_000_000, SCALES[0])
                              + ScalePart(n % 1_000_000_000 / 1_000_000, SCALES[1])
  {
    hide DropTerminalS, ThreeDigits, ScalePart;
    TwoScales();
    var m := n % 1_000_000_000;
    ModOfMod(n);
    assert Rest(m % 1_000_000, 2) == m % 1_000_000;
    assert ScaleParts(m % 1_000_000, 2) == [];
    assert ScaleParts(m, 1) == ScalePart(m / 1_000_000, SCALES[1]) + [];
  }

  lemma ModOfMod(n: nat)
    ensures n % 1_000_000_000 % 1_000_000 == n % 1_000_000
  {
    var a, m := n / 1_000_000_000, n % 1_000_000_000;
    assert n == 1_000_000 * (1_000 * a + m / 1_000_000) + m % 1_000_000;
  }

  lemma ModOfModThousand(n: nat)
    ensures n % 1_000_000 % 1_000 == n % 1_000
  {
    var a, m := n / 1_000_000, n % 1_000_000;
    assert n == 1_000 * (1_000 * a + m / 1_000) + m % 1_000;
  }

  /** The groups of a number add up to it. */
  lemma Groups(n: nat)
    ensures n == n / 1_000_000_000 * 1_000_000_000 + n % 1_000_000_000 / 1_000_000 * 1_000_000
                 + n % 1_000_000 / 1_000 * 1_000 + n % 1_000
  {
    ModOfMod(n);
    ModOfModThousand(n);
    Quotient(n, 1_000_000_000);
    Quotient(n % 1_000_000_000, 1_000_000);
    Quotient(n % 1_000_000, 1_000);
  }

  /** A group adds its amount to what is closed; an empty group is worth nothing. */
  predicate Adds(closed: nat, more: seq<string>, amount: nat) {
    && |more| <= 1
    && if more == [] then amount == 0 else Said(Sum(closed, 0), more[0]) == Some(Sum(closed + amount, 0))
  }

  lemma ScaleAdds(closed: nat, count: nat, i: nat)
    requires i < 2 && count < 2_000
    ensures i < |SCALES| && Adds(closed, ScalePart(count, SCALES[i]), count * SCALES[i].value)
    ensures ScalePart(count, SCALES[i]) == [] ==> count == 0
  {
    hide Said, DropTerminalS, ThreeDigits;
    TwoScales();
    if count > 0 { SaysScale(closed, count, i); }
  }

  lemma ThousandAdds(closed: nat, count: nat)
    requires count < 1_000
    ensures Adds(closed, ThousandPart(count), count * 1_000)
    ensures ThousandPart(count) == [] ==> count == 0
  {
    hide Said, DropTerminalS, ThreeDigits;
    if count > 0 { SaysThousands(closed, count); }
  }

  lemma ThreeGroups(p: seq<string>, x: nat, q: seq<string>, y: nat, r: seq<string>, z: nat)
    requires Adds(0, p, x) && Adds(x, q, y) && Adds(x + y, r, z)
    ensures SaidAll(Some(Sum(0, 0)), p + q + r) == Some(Sum(x + y + z, 0))
  {
    NothingSaid();
    hide Said, SaidAll;
    AddGroup([], 0, p, x);
    assert [] + p == p;
    AddGroup(p, x, q, y);
    AddGroup(p + q, x + y, r, z);
  }

  lemma HighParts(n: nat)
    requires 0 < n < 2_000_000_000_000
    ensures var high := ScaleParts(n, 0) + ThousandPart(n % 1_000_000 / 1_000);
      && SaidAll(Some(Sum(0, 0)), high) == Some(Sum(n - n % 1_000, 0))
      && (high == [] ==> n < 1_000)
  {
    hide SaidAll, ScaleParts, ThousandPart, ScalePart, Adds;
    var a, b, c := n / 1_000_000_000, n % 1_000_000_000 / 1_000_000, n % 1_000_000 / 1_000;
    var x, y, z := a * 1_000_000_000, b * 1_000_000, c * 1_000;
    Groups(n);
    PartsShape(n);
    ScaleAdds(0, a, 0);
    ScaleAdds(x, b, 1);
    ThousandAdds(x + y, c);
    TwoScales();
    ThreeGroups(ScalePart(a, SCALES[0]), x, ScalePart(b, SCALES[1]), y, ThousandPart(c), z);
  }

  lemma NothingSaid()
    ensures SaidAll(Some(Sum(0, 0)), []) == Some(Sum(0, 0))
  {
  }

  lemma SaysZero()
    ensures Read("zéro") == Some(0)
  {
    assert DICTIONARY[30] == Entry("zéro", Small(0));
    hide Words, Eval, Look;
    SaysEntry(Sum(0, 0), 30);
  }

  /** The parts of a number are its groups above a thousand, then what is left. */
  lemma PartsSplit(n: nat)
    requires n > 0
    ensures var high := ScaleParts(n, 0) + ThousandPart(n % 1_000_000 / 1_000);
      Parts(n) == high + (if n % 1_000 > 0 || high == [] then [ThreeDigits(n % 1_000)] else [])
  {
    hide ThreeDigits, ScaleParts, ThousandPart, Rest;
    PartsShape(n);
    ModOfModThousand(n);
  }

  lemma PartsSay(n: nat)
    requires 0 < n < 2_000_000_000_000
    ensures Parts(n) != [] && SaidAll(Some(Sum(0, 0)), Parts(n)) == Some(Sum(n - n % 1_000, n % 1_000))
  {
    hide SaidAll, Said, ThreeDigits, ScaleParts, ThousandPart, Parts;
    var high, r := ScaleParts(n, 0) + ThousandPart(n % 1_000_000 / 1_000), n % 1_000;
    PartsSplit(n);
    HighParts(n);
    if r > 0 {
      SaysThreeDigits(Sum(n - r, 0), r);
      SaidAllConcat(Some(Sum(0, 0)), high, [ThreeDigits(r)]);
    } else {
      assert high + [] == high;
    }
  }

  lemma ReadIsSaid(s: string)
    ensures Read(s) ==
            var sum := Said(Sum(0, 0), s);
            if sum.None? then None else Some(sum.value.closed + sum.value.open)
  {
  }

  lemma InWordsSaid(n: nat)
    requires n > 0 && Parts(n) != []
    ensures Said(Sum(0, 0), InWords(n)) == SaidAll(Some(Sum(0, 0)), Parts(n))
  {
    hide Joined, SaidAll, Parts, Said;
    SaidJoinedParts(Sum(0, 0), Parts(n));
  }

  lemma ReadsPositive(n: nat)
    requires 0 < n < 2_000_000_000_000
    ensures Read(InWords(n)) == Some(n)
  {
    hide SaidAll, Parts, Said, Read, InWords;
    PartsSay(n);
    InWordsSaid(n);
    ReadIsSaid(InWords(n));
  }

  /** Below two thousand milliards the reader recovers the number from its words. */
  lemma ReadsBelow(n: nat)
    requires n < 2_000_000_000_000
    ensures Read(InWords(n)) == Some(n)
  {
    hide Read, Parts;
    if n == 0 { SaysZero(); } else { ReadsPositive(n); }
  }

  // ------------------------------------------------------------------------------------------
  // From two thousand milliards on, the hundreds of a scale count leave the table of units.

  /** A text that begins with a word the reader does not know is not read. */
  lemma UndefinedUnread(sum: Sum, rest: string)
    ensures Said(sum, "undefined " + rest) == None
  {
    assert "undefined " + rest == "undefined" + [' '] + rest;
    assert Solid("undefined");
    hide Words, Look, Solid;
    SaidJoined(sum, "undefined", ' ', rest);
    SaidSolid(sum, "undefined");
    UndefinedFrom(0);
    EvalNone(Words(rest));
  }

  lemma DropKeepsStart(s: string, k: nat)
    requires k + 2 <= |s|
    ensures DropTerminalS(s)[..k] == s[..k] && |DropTerminalS(s)| >= k
  {
  }

  lemma BigCount(count: nat)
    requires count >= 2000
    ensures exists rest :: DropTerminalS(ThreeDigits(count)) == "undefined " + rest
  {
    var s := ThreeDigits(count);
    ThreeDigitsShape(count);
    hide DropTerminalS, ThreeDigits, TwoDigits;
    assert Unit(count / 100) == "undefined";
    assert Head(count / 100) == "undefined" + " cent" && "undefined" + " cent" == "undefined " + "cent";
    assert |s| >= 14 && s[..10] == Head(count / 100)[..10] == "undefined ";
    DropKeepsStart(s, 10);
    var d := DropTerminalS(s);
    assert d == "undefined " + d[10..];
  }

  lemma {:induction false} FirstFails(parts: seq<string>)
    requires parts != [] && Said(Sum(0, 0), parts[0]) == None
    ensures SaidAll(Some(Sum(0, 0)), parts) == None
  {
    if |parts| > 1 {
      FirstFails(parts[..|parts| - 1]);
    } else {
      assert parts[..0] == [];
    }
  }

  lemma FirstPart(n: nat)
    requires n >= 2_000_000_000_000
    ensures Parts(n) != [] && exists rest :: Parts(n)[0] == "undefined " + rest
  {
    hide DropTerminalS, ThreeDigits, ScaleParts, ThousandPart, Parts, ScalePart;
    var count := n / 1_000_000_000;
    TwoScales();
    BigCount(count);
    var tail :| DropTerminalS(ThreeDigits(count)) == "undefined " + tail;
    BigScale(count, tail);
    PartsShape(n);
    PartsSplit(n);
    FirstOf(ScalePart(count, SCALES[0])[0], ScalePart(n % 1_000_000_000 / 1_000_000, SCALES[1]),
            ThousandPart(n % 1_000_000 / 1_000),
            Parts(n)[|ScaleParts(n, 0) + ThousandPart(n % 1_000_000 / 1_000)|..]);
  }

  lemma FirstOf(x: string, a: seq<string>, b: seq<string>, c: seq<string>)
    ensures ([x] + a + b + c)[0] == x
  {
  }

  lemma BigScale(count: nat, tail: string)
    requires count > 1
    ensures |SCALES| == 2
    ensures DropTerminalS(ThreeDigits(count)) == "undefined " + tail ==>
              ScalePart(count, SCALES[0]) == ["undefined " + (tail + " milliards")]
  {
    hide DropTerminalS, ThreeDigits;
    TwoScales();
    assert "undefined " + tail + " " + "milliards" == "undefined " + (tail + " milliards");
  }

  lemma UnreadFrom(n: nat)
    requires n >= 2_000_000_000_000
    ensures Read(InWords(n)) == None
  {
    hide Parts, Said, Read, InWords, SaidAll;
    FirstPart(n);
    var rest :| Parts(n)[0] == "undefined " + rest;
    UndefinedUnread(Sum(0, 0), rest);
    FirstFails(Parts(n));
    InWordsSaid(n);
    ReadIsSaid(InWords(n));
  }

  /**
   * The reader recovers a number from its words exactly when it is below two thousand milliards:
   * from there on a scale count has hundreds the table of units does not name.
   */
  lemma ReaderUndoesPrinter(n: nat)
    ensures Read(InWords(n)) == Some(n) <==> n < 2_000_000_000_000
  {
    if n < 2_000_000_000_000 {
      ReadsBelow(n);
    } else {
      UnreadFrom(n);
    }
  }

  /** So no two amounts below that bound are printed alike. */
  lemma InWordsInjective(m: nat, n: nat)
    requires m < 2_000_000_000_000 && InWords(m) == InWords(n)
    ensures m == n
  {
    ReaderUndoesPrinter(m);
    ReaderUndoesPrinter(n);
    if n >= 2_000_000_000_000 {
      UnreadFrom(n);
    } else {
      ReadsBelow(n);
    }
  }

  /** Every count the printer hands to `ThreeDigits` is within its range exactly below a thousand milliards. */
  lemma CountsInRange(n: nat)
    ensures n < 1_000_000_000_000 <==>
      n / 1_000_000_000 < 1_000 && n % 1_000_000_000 / 1_000_000 < 1_000 && n % 1_000_000 / 1_000 < 1_000
  {
    Quotient(n, 1_000_000_000);
  }
}
