/** How the words are spelled and joined: the s at the end, « et », hyphens, « mille » and the plurals. */
module FrenchSpelling {
  import opened Wrappers
  import opened French
  import opened FrenchProofs

  // ------------------------------------------------------------------------------------------
  // The rules, word by word.

  /** The marks between the words of a text. */
  function Marks(s: string): seq<char> {
    var i := FirstSeparator(s);
    if i == |s| then [] else [s[i]] + Marks(s[i + 1..])
  }

  function Mean(word: string): Option<Meaning> {
    if word == "" then None else Look(word, 0)
  }

  /** A word of the numbers below a hundred. */
  predicate IsSmall(word: string) {
    match Mean(word)
    case Some(Small(v)) => v > 0
    case Some(Twenty) => true
    case _ => false
  }

  predicate IsTens(word: string) {
    match Mean(word)
    case Some(Small(v)) => v >= 20
    case Some(Twenty) => true
    case _ => false
  }

  predicate IsPower(word: string) {
    Mean(word).Some? && Mean(word).value.Power?
  }

  predicate Is(word: string, v: nat) {
    Mean(word) == Some(Small(v))
  }

  predicate IsSingular(word: string) {
    word == "million" || word == "milliard"
  }

  /** Nothing of the same group stands before the next word. */
  predicate StandsAlone(before: string) {
    before == "" || IsPower(before)
  }

  /**
   * `c` may follow `b`, behind the mark, when `a` is the word before `b`: hyphens join the words below a
   * hundred and nothing else; « et » stands before « un » and « onze » behind a ten, but not behind
   * « quatre-vingt », and is not left out there; there is no « un cent » and no « un mille »; and
   * « million » and « milliard » are singular exactly behind a lone « un ».
   */
  predicate Follows(a: string, b: string, mark: char, c: string) {
    && mark == (if IsSmall(b) && IsSmall(c) then '-' else ' ')
    && (Mean(c) == Some(And) ==> IsTens(b) && !Is(a, 4))
    && (Mean(b) == Some(And) ==> Is(c, 1) || (Is(c, 11) && Is(a, 60)))
    && (IsTens(b) && (Is(c, 1) || Is(c, 11)) ==> Is(a, 4))
    && (Is(b, 1) ==> Mean(c) != Some(Hundred))
    && (Is(b, 1) && Mean(c) == Some(Power(1_000)) ==> !StandsAlone(a))
    && (IsPower(c) && Mean(c) != Some(Power(1_000)) ==> (IsSingular(c) <==> Is(b, 1) && StandsAlone(a)))
  }

  predicate IsPlural(word: string) {
    word == "vingts" || word == "cents"
  }

  /** The i-th word may follow the one before it. */
  predicate FollowsAt(before: string, words: seq<string>, marks: seq<char>, i: int)
    requires 0 < i < |words| == |marks| + 1
  {
    Follows(if i == 1 then before else words[i - 2], words[i - 1], marks[i - 1], words[i])
  }

  /** Every word may follow the one before it, behind the context, and only the last may be « vingts » or « cents ». */
  ghost predicate Obeys(before: string, words: seq<string>, marks: seq<char>) {
    && |marks| + 1 == |words|
    && (forall i :: 0 < i < |words| ==> FollowsAt(before, words, marks, i))
    && forall i :: 0 <= i < |words| - 1 ==> !IsPlural(words[i])
  }

  ghost predicate Well(before: string, s: string) {
    Obeys(before, Words(s), Marks(s))
  }

  function First(s: string): string {
    Words(s)[0]
  }

  function Last(s: string): string {
    Words(s)[|Words(s)| - 1]
  }

  /** The word before the last one. */
  function Second(before: string, s: string): string {
    if |Words(s)| == 1 then before else Words(s)[|Words(s)| - 2]
  }

  // ------------------------------------------------------------------------------------------
  // Texts put together.

  lemma MarksGrouped(a: seq<char>, b: seq<char>, c: seq<char>, d: seq<char>)
    ensures a + (b + c + d) == (a + b) + c + d
  {
  }

  lemma {:induction false} MarksJoined(a: string, c: char, b: string)
    requires Separator(c)
    ensures Marks(a + [c] + b) == Marks(a) + [c] + Marks(b)
    decreases |a|
  {
    hide Separator;
    var s := a + [c] + b;
    var i := FirstSeparator(a);
    FirstSeparatorOf(a, c, b);
    if i == |a| {
      assert s[i + 1..] == b;
    } else {
      assert s[i + 1..] == a[i + 1..] + [c] + b;
      MarksJoined(a[i + 1..], c, b);
      MarksGrouped([a[i]], Marks(a[i + 1..]), [c], Marks(b));
    }
  }

  lemma ObeysJoined(before: string, u: seq<string>, mu: seq<char>, c: char, v: seq<string>, mv: seq<char>)
    requires u != [] && v != []
    requires Obeys(before, u, mu) && Obeys(u[|u| - 1], v, mv) && !IsPlural(u[|u| - 1])
    requires Follows(if |u| == 1 then before else u[|u| - 2], u[|u| - 1], c, v[0])
    ensures Obeys(before, u + v, mu + [c] + mv)
  {
    hide Follows, IsPlural;
    var w, m, n := u + v, mu + [c] + mv, |u|;
    forall i | 0 < i < |w|
      ensures FollowsAt(before, w, m, i)
    {
      if i < n {
        assert w[i] == u[i] && w[i - 1] == u[i - 1] && m[i - 1] == mu[i - 1];
        assert i > 1 ==> w[i - 2] == u[i - 2];
        assert FollowsAt(before, u, mu, i);
      } else if i == n {
        assert w[i] == v[0] && w[i - 1] == u[n - 1] && m[i - 1] == c;
        assert i > 1 ==> w[i - 2] == u[n - 2];
      } else {
        var j := i - n;
        assert w[i] == v[j] && w[i - 1] == v[j - 1] && m[i - 1] == mv[j - 1];
        assert w[i - 2] == if j == 1 then u[n - 1] else v[j - 2];
        assert FollowsAt(u[n - 1], v, mv, j);
      }
    }
    forall i | 0 <= i < |w| - 1
      ensures !IsPlural(w[i])
    {
      assert w[i] == if i < n then u[i] else v[i - n];
    }
  }

  lemma WordsThere(s: string)
    ensures |Words(s)| > 0
  {
  }

  lemma WellJoined(before: string, x: string, c: char, y: string)
    requires Separator(c) && Well(before, x) && Well(Last(x), y) && !IsPlural(Last(x))
    requires Follows(Second(before, x), Last(x), c, First(y))
    ensures Well(before, x + [c] + y)
    ensures First(x + [c] + y) == First(x) && Last(x + [c] + y) == Last(y)
    ensures Second(before, x + [c] + y) == Second(Last(x), y)
  {
    hide Follows, IsPlural, Words, Marks, Obeys;
    WordsThere(x);
    WordsThere(y);
    WordsJoined(x, c, y);
    MarksJoined(x, c, y);
    ObeysJoined(before, Words(x), Marks(x), c, Words(y), Marks(y));
  }

  lemma WordAlone(s: string)
    requires Solid(s)
    ensures Words(s) == [s] && Marks(s) == []
  {
    SolidWord(s);
  }

  /** A dictionary word on its own. */
  lemma Entry1(before: string, k: nat)
    requires k < |DICTIONARY|
    ensures var w := DICTIONARY[k].spelling;
            && Words(w) == [w] && Marks(w) == [] && Well(before, w)
            && First(w) == w == Last(w) && Second(before, w) == before
            && w != "" && Mean(w) == Some(DICTIONARY[k].means)
  {
    hide Look;
    if k < 10 { SolidLow(k); } else if k < 20 { SolidMiddle(k); } else { SolidHigh(k); }
    WordAlone(DICTIONARY[k].spelling);
    Means(k);
    SpellingCode(k);
  }

  /** Only the two entries of the plural are plural. */
  lemma PluralEntry(k: nat)
    requires k < |DICTIONARY|
    ensures IsPlural(DICTIONARY[k].spelling) <==> k == 21 || k == 23
  {
    hide Look, Code, CodeAt, EntryOf;
    SpellingCode(k);
    SpellingCode(21);
    SpellingCode(23);
    CodesDistinct(k);
    CodesDistinct(21);
    CodesDistinct(23);
    assert DICTIONARY[21].spelling == "vingts" && DICTIONARY[23].spelling == "cents";
  }

  // ------------------------------------------------------------------------------------------
  // The numbers below a hundred.

  /** What may stand before a number: nothing, « cent », or a power of a thousand. */
  predicate Outer(before: string) {
    before == "" || Mean(before) == Some(Hundred) || IsPower(before)
  }

  lemma UnitEntry(k: nat)
    requires 1 <= k <= 16
    ensures Unit(k) == DICTIONARY[k - 1].spelling && DICTIONARY[k - 1].means == Small(k)
  {
    if k < 9 { LowUnitIsEntry(k); } else { HighUnitIsEntry(k); }
  }

  /** The first word of a unit, and its last with the one before it. */
  lemma UnitWell(before: string, k: nat)
    requires 1 <= k <= 19
    ensures Well(before, Unit(k)) && !IsPlural(Last(Unit(k)))
    ensures Is(First(Unit(k)), if k > 16 then 10 else k)
    ensures Is(Last(Unit(k)), if k > 16 then k - 10 else k)
    ensures k <= 16 ==> Second(before, Unit(k)) == before
  {
    hide Look, Unit, Words, Marks, Obeys, IsPlural;
    var j := if k > 16 then 10 else k;
    UnitEntry(j);
    Entry1(before, j - 1);
    PluralEntry(j - 1);
    if k > 16 {
      UnitEntry(k - 10);
      Entry1(Unit(10), k - 11);
      PluralEntry(k - 11);
      TeenIsTwoWords(k);
      WellJoined(before, Unit(10), '-', Unit(k - 10));
    }
  }

  lemma TensEntry(t: nat) returns (k: nat)
    requires 2 <= t <= 6
    ensures 16 <= k <= 20 && Tens(t) == DICTIONARY[k].spelling
    ensures DICTIONARY[k].means == if t == 2 then Twenty else Small(10 * t)
  {
    k := if t == 2 then 20 else t + 13;
    assert DICTIONARY[20] == Entry("vingt", Twenty) && DICTIONARY[16] == Entry("trente", Small(30));
    assert DICTIONARY[17] == Entry("quarante", Small(40)) && DICTIONARY[18] == Entry("cinquante", Small(50));
    assert DICTIONARY[19] == Entry("soixante", Small(60));
  }

  /** A number n below a hundred, behind what may stand before it. */
  ghost predicate IsTwoDigits(before: string, s: string, n: nat) {
    && Well(before, s)
    && IsSmall(First(s)) && IsSmall(Last(s))
    && (Is(Last(s), 1) ==> n == 1 || !StandsAlone(Second(before, s)))
    && (n == 1 ==> Words(s) == ["un"])
  }

  lemma SmallUnit(before: string, n: nat)
    requires 1 <= n < 20
    ensures IsTwoDigits(before, Unit(n), n) && !IsPlural(Last(Unit(n)))
  {
    hide Look, Unit, Marks, Obeys, IsPlural, Words;
    UnitWell(before, n);
    if n == 1 {
      UnitEntry(1);
      Entry1(before, 0);
      assert DICTIONARY[0].spelling == "un";
    }
  }

  /** A ten and a unit, joined by a hyphen. */
  lemma HyphenWell(before: string, t: nat, k: nat)
    requires Outer(before) && 2 <= t <= 6 && 2 <= k <= 19 && k != 11
    ensures IsTwoDigits(before, Tens(t) + ['-'] + Unit(k), 10 * t + k) && !IsPlural(Last(Tens(t) + ['-'] + Unit(k)))
  {
    hide Look, Unit, Tens, Words, Marks, Obeys, IsPlural;
    var e := TensEntry(t);
    Entry1(before, e);
    PluralEntry(e);
    UnitWell(Tens(t), k);
    WellJoined(before, Tens(t), '-', Unit(k));
  }

  /** A ten, « et », and one or eleven. */
  lemma AndWell(before: string, t: nat, k: nat)
    requires Outer(before) && 2 <= t <= 6 && (k == 1 || (k == 11 && t == 6))
    ensures var s := Tens(t) + [' '] + "et" + [' '] + Unit(k);
            IsTwoDigits(before, s, 10 * t + k) && !IsPlural(Last(s))
  {
    hide Look, Unit, Tens, Words, Marks, Obeys, IsPlural;
    var e := TensEntry(t);
    assert DICTIONARY[29] == Entry("et", And);
    Entry1(before, e);
    PluralEntry(e);
    Entry1(Tens(t), 29);
    PluralEntry(29);
    WellJoined(before, Tens(t), ' ', "et");
    UnitWell("et", k);
    WellJoined(before, Tens(t) + [' '] + "et", ' ', Unit(k));
  }

  /** « quatre-vingt », with its s or without. */
  lemma EightyWell(before: string, k: nat)
    requires Outer(before) && 20 <= k <= 21
    ensures var s := "quatre" + ['-'] + DICTIONARY[k].spelling;
            && IsTwoDigits(before, s, 80) && Last(s) == DICTIONARY[k].spelling && Second(before, s) == "quatre"
            && Mean(Last(s)) == Some(Twenty) && Is("quatre", 4)
  {
    hide Look, Unit, Words, Marks, Obeys, IsPlural;
    FourIs();
    UnitEntry(4);
    Entry1(before, 3);
    PluralEntry(3);
    TwentyIs(k);
    Entry1("quatre", k);
    WellJoined(before, "quatre", '-', DICTIONARY[k].spelling);
  }

  lemma NinetyWell(before: string, k: nat)
    requires Outer(before) && 1 <= k <= 19
    ensures var s := "quatre" + ['-'] + "vingt" + ['-'] + Unit(k);
            IsTwoDigits(before, s, 80 + k) && !IsPlural(Last(s))
  {
    hide Look, Unit, Words, Marks, Obeys, IsPlural;
    TwentyIs(20);
    EightyWell(before, 20);
    PluralEntry(20);
    UnitWell("vingt", k);
    WellJoined(before, "quatre" + ['-'] + "vingt", '-', Unit(k));
  }

  /** Eighty without its s. */
  function Bare(n: nat): string
    requires n < 100
  {
    if n == 80 then "quatre-vingt" else TwoDigits(n)
  }

  lemma SixtiesText(n: nat)
    requires 70 <= n < 80
    ensures TwoDigits(n) ==
            if n == 71 then Tens(6) + [' '] + "et" + [' '] + Unit(11) else Tens(6) + ['-'] + Unit(n - 60)
  {
    TensSix();
    AndText("soixante");
    assert "soixante et onze" == "soixante" + " et onze";
    assert "soixante-" == "soixante" + ['-'];
  }

  lemma EightiesText(n: nat)
    requires 80 < n < 100
    ensures TwoDigits(n) == "quatre" + ['-'] + "vingt" + ['-'] + Unit(n - 80)
  {
    assert "quatre-vingt-" == "quatre" + ['-'] + "vingt" + ['-'];
  }

  lemma EightyTexts()
    ensures TwoDigits(80) == "quatre" + ['-'] + DICTIONARY[21].spelling
    ensures Bare(80) == "quatre" + ['-'] + DICTIONARY[20].spelling
  {
    TwentyIs(20);
    TwentyIs(21);
  }

  /** A ten on its own. */
  lemma TensWell(before: string, t: nat)
    requires 2 <= t <= 6
    ensures IsTwoDigits(before, Tens(t), 10 * t) && !IsPlural(Last(Tens(t)))
  {
    hide Look, Unit, Tens, Words, Marks, Obeys, IsPlural;
    var e := TensEntry(t);
    Entry1(before, e);
    PluralEntry(e);
  }

  lemma BareWell(before: string, n: nat)
    requires Outer(before) && 1 <= n < 100
    ensures IsTwoDigits(before, Bare(n), n) && !IsPlural(Last(Bare(n)))
  {
    hide IsTwoDigits, IsPlural, Unit, Tens, Outer, Last;
    if n < 20 {
      SmallUnit(before, n);
    } else if n < 70 {
      var t, k := n / 10, n % 10;
      if k == 0 {
        TensWell(before, t);
      } else if k == 1 {
        AndWell(before, t, 1);
        TensSix();
        AndText(Tens(t));
      } else {
        HyphenWell(before, t, k);
        assert TwoDigits(n) == Tens(t) + ['-'] + Unit(k);
      }
    } else if n < 80 {
      SixtiesText(n);
      if n == 71 { AndWell(before, 6, 11); } else { HyphenWell(before, 6, n - 60); }
    } else if n == 80 {
      EightyTexts();
      EightyWell(before, 20);
      PluralEntry(20);
    } else {
      EightiesText(n);
      NinetyWell(before, n - 80);
    }
  }

  /** Below a hundred, eighty alone ends in an s. */
  lemma TwoDigitsWell(before: string, n: nat)
    requires Outer(before) && 1 <= n < 100
    ensures IsTwoDigits(before, TwoDigits(n), n)
    ensures IsPlural(Last(TwoDigits(n))) <==> n == 80
  {
    hide IsTwoDigits, IsPlural, Outer, Last, TwoDigits;
    if n == 80 {
      EightyTexts();
      EightyWell(before, 21);
      PluralEntry(21);
    } else {
      BareWell(before, n);
    }
  }

  // ------------------------------------------------------------------------------------------
  // The groups of three digits.

  /** A word a group of three digits may begin with. */
  predicate Starts(word: string) {
    IsSmall(word) || Mean(word) == Some(Hundred)
  }

  /** A number of a group of its own, at the start or behind a power of a thousand. */
  ghost predicate IsGroup(before: string, s: string, n: nat) {
    && Well(before, s)
    && Starts(First(s)) && Starts(Last(s))
    && (Is(Last(s), 1) ==> n == 1 || !StandsAlone(Second(before, s)))
    && (n == 1 ==> Words(s) == ["un"])
  }

  lemma CentIs(k: nat)
    requires 22 <= k <= 23
    ensures DICTIONARY[k].means == Hundred && DICTIONARY[k].spelling == if k == 22 then "cent" else "cents"
  {
    assert DICTIONARY[22] == Entry("cent", Hundred) && DICTIONARY[23] == Entry("cents", Hundred);
  }

  /** The hundreds, with their s or without. */
  lemma HeadWell(before: string, h: nat, k: nat)
    requires StandsAlone(before) && 1 <= h <= 19 && 22 <= k <= 23 && (h == 1 ==> k == 22)
    ensures var s := if h == 1 then "cent" else Unit(h) + [' '] + DICTIONARY[k].spelling;
            && Well(before, s) && Starts(First(s)) && Last(s) == DICTIONARY[k].spelling
            && Mean(Last(s)) == Some(Hundred) && Outer(Last(s)) && (IsPlural(Last(s)) <==> k == 23)
            && !Is(Last(s), 1)
  {
    hide Look, Unit, Words, Marks, Obeys, IsPlural;
    CentIs(k);
    PluralEntry(k);
    if h == 1 {
      Entry1(before, k);
    } else {
      UnitWell(before, h);
      Entry1(Last(Unit(h)), k);
      WellJoined(before, Unit(h), ' ', DICTIONARY[k].spelling);
    }
  }

  /** Hundreds, then a number below a hundred. */
  lemma HundredsThen(before: string, h: nat, t: string, r: nat)
    requires StandsAlone(before) && 1 <= h <= 19 && IsTwoDigits("cent", t, r)
    ensures IsGroup(before, Head(h) + [' '] + t, 100 * h + r) && Last(Head(h) + [' '] + t) == Last(t)
  {
    hide Look, Unit, Words, Marks, Obeys, IsPlural, Head;
    HeadWell(before, h, 22);
    CentIs(22);
    HeadIs(h);
    WordsThere(t);
    WellJoined(before, Head(h), ' ', t);
    CentNotAlone();
  }

  lemma HeadIs(h: nat)
    requires h >= 1
    ensures Head(h) == if h == 1 then "cent" else Unit(h) + [' '] + "cent"
    ensures h > 1 ==> Head(h) + "s" == Unit(h) + [' '] + "cents"
  {
    if h > 1 { HeadText(h); }
  }

  lemma CentNotAlone()
    ensures !StandsAlone("cent")
  {
    hide Look;
    CentIs(22);
    Means(22);
  }

  /** A group without the s at its end. */
  function BareGroup(n: nat): string {
    if n % 100 == 0 then Head(n / 100)
    else if n / 100 == 0 then Bare(n % 100)
    else Head(n / 100) + [' '] + Bare(n % 100)
  }

  lemma BareGroupWell(before: string, n: nat)
    requires StandsAlone(before) && 1 <= n < 2000
    ensures IsGroup(before, BareGroup(n), n) && !IsPlural(Last(BareGroup(n)))
  {
    hide Look, Unit, Words, Marks, Obeys, IsPlural, Head, Bare, Is;
    var h, r := n / 100, n % 100;
    assert n == 100 * h + r;
    if r == 0 {
      HeadWell(before, h, 22);
      CentIs(22);
      HeadIs(h);
    } else if h == 0 {
      BareWell(before, r);
    } else {
      CentNotAlone();
      CentIs(22);
      Means(22);
      BareWell("cent", r);
      HundredsThen(before, h, Bare(r), r);
    }
  }

  /** With it: only eighty and round hundreds from two hundred on end in an s. */
  lemma GroupWell(before: string, n: nat)
    requires StandsAlone(before) && 1 <= n < 2000
    ensures IsGroup(before, ThreeDigits(n), n)
    ensures IsPlural(Last(ThreeDigits(n))) <==> n % 100 == 80 || (n % 100 == 0 && n >= 200)
  {
    hide Look, Unit, Words, Marks, Obeys, IsPlural, Head, TwoDigits, ThreeDigits, Is;
    var h, r := n / 100, n % 100;
    assert n == 100 * h + r;
    ThreeDigitsShape(n);
    CentIs(22);
    if r == 0 {
      HeadWell(before, h, if h == 1 then 22 else 23);
      CentIs(23);
      HeadIs(h);
    } else if h == 0 {
      TwoDigitsWell(before, r);
    } else {
      CentNotAlone();
      Means(22);
      TwoDigitsWell("cent", r);
      HundredsThen(before, h, TwoDigits(r), r);
    }
  }

  /** What the two replacements leave of a group. */
  lemma DroppedIsBare(n: nat)
    requires 1 <= n < 2000
    ensures DropTerminalS(ThreeDigits(n)) == BareGroup(n)
  {
    hide DropTerminalS, Head, TwoDigits, ThreeDigits, NotPlural, Unit;
    var h, r := n / 100, n % 100;
    assert n == 100 * h + r;
    ThreeDigitsShape(n);
    if r == 0 && h > 1 {
      HeadIs(h);
      CentsDropped(Unit(h) + [' ']);
    } else if r == 80 {
      var front := if h == 0 then "" else Head(h) + [' '];
      VingtsDropped(front + "quatre-");
      EightyText(front);
      assert front + "quatre-vingt" == if h == 0 then "quatre-vingt" else Head(h) + [' '] + "quatre-vingt";
    } else {
      NumberEnd(h, r);
      NothingDropped(ThreeDigits(n));
    }
  }

  // ------------------------------------------------------------------------------------------
  // Whole numbers.

  /** A group with its power of a thousand behind it. */
  ghost predicate Closes(before: string, s: string) {
    && Well(before, s) && IsPower(Last(s)) && !IsPlural(Last(s))
    && (Starts(First(s)) || Mean(First(s)) == Some(Power(1_000)))
  }

  lemma PowerIs(k: nat)
    requires 24 <= k <= 28
    ensures DICTIONARY[k] == Entry(
      if k == 24 then "mille" else if k == 25 then "million" else if k == 26 then "millions"
      else if k == 27 then "milliard" else "milliards",
      Power(if k == 24 then 1_000 else if k <= 26 then 1_000_000 else 1_000_000_000))
  {
    assert DICTIONARY[24] == Entry("mille", Power(1_000));
    assert DICTIONARY[25] == Entry("million", Power(1_000_000));
    assert DICTIONARY[26] == Entry("millions", Power(1_000_000));
    assert DICTIONARY[27] == Entry("milliard", Power(1_000_000_000));
    assert DICTIONARY[28] == Entry("milliards", Power(1_000_000_000));
  }

  lemma PowerAlone(before: string, k: nat)
    requires 24 <= k <= 28
    ensures var w := DICTIONARY[k].spelling;
            && Well(before, w) && First(w) == w == Last(w) && IsPower(w) && !IsPlural(w) && !IsSmall(w)
            && Mean(w) == Some(Power(if k == 24 then 1_000 else if k <= 26 then 1_000_000 else 1_000_000_000))
            && (IsSingular(w) <==> k == 25 || k == 27)
  {
    hide Look, Words, Marks, Obeys, IsPlural, First, Last;
    PowerIs(k);
    Entry1(before, k);
    PluralEntry(k);
    assert |"million"| == 7 && |"millions"| == 8 && |"milliard"| == 8 && "millions"[3] != "milliard"[4];
    assert "millions"[7] != "milliard"[7];
  }

  /** A count above one, then « mille », « millions » or « milliards »; a count of one, then the singular. */
  lemma CountThen(before: string, s: string, n: nat, k: nat)
    requires StandsAlone(before) && IsGroup(before, s, n) && !IsPlural(Last(s)) && 24 <= k <= 28
    requires if n == 1 then k == 25 || k == 27 else k != 25 && k != 27
    ensures Closes(before, s + [' '] + DICTIONARY[k].spelling)
  {
    hide Look, Words, Marks, Obeys, IsPlural, IsSingular;
    PowerAlone(Last(s), k);
    if n == 1 {
      Entry1(before, 0);
      assert DICTIONARY[0] == Entry("un", Small(1));
    }
    WellJoined(before, s, ' ', DICTIONARY[k].spelling);
  }

  /** At most one part, and it closes its group. */
  ghost predicate MayClose(before: string, more: seq<string>) {
    |more| <= 1 && (more != [] ==> Closes(before, more[0]))
  }

  lemma ThousandCloses(before: string, count: nat)
    requires StandsAlone(before) && count < 1_000
    ensures MayClose(before, ThousandPart(count))
  {
    hide DropTerminalS, ThreeDigits, IsGroup, Closes, Mean, IsPlural, Last, BareGroup, StandsAlone;
    PowerIs(24);
    if count == 1 {
      ThousandAlone(before);
    } else if count > 1 {
      DroppedIsBare(count);
      BareGroupWell(before, count);
      CountThen(before, BareGroup(count), count, 24);
      assert BareGroup(count) + " mille" == BareGroup(count) + [' '] + "mille";
    }
  }

  lemma ThousandAlone(before: string)
    ensures Closes(before, "mille")
  {
    hide Look, Words, Marks, Obeys, IsPlural, First, Last;
    PowerIs(24);
    PowerAlone(before, 24);
  }

  lemma ScaleCloses(before: string, count: nat, i: nat)
    requires StandsAlone(before) && count < 2_000 && i < 2
    ensures i < |SCALES| && MayClose(before, ScalePart(count, SCALES[i]))
  {
    hide DropTerminalS, ThreeDigits, IsGroup, Closes, Mean, IsPlural, Last, BareGroup, StandsAlone;
    TwoScales();
    var k := (if i == 0 then 27 else 25) + if count > 1 then 1 else 0;
    PowerIs(k);
    if count > 0 {
      DroppedIsBare(count);
      BareGroupWell(before, count);
      CountThen(before, BareGroup(count), count, k);
      OneIsUn();
      assert BareGroup(count) + " " + DICTIONARY[k].spelling == BareGroup(count) + [' '] + DICTIONARY[k].spelling;
      assert "un " + SCALES[i].singular == "un" + [' '] + SCALES[i].singular;
    }
  }

  lemma OneIsUn()
    ensures BareGroup(1) == "un"
  {
  }

  /** The word the next part stands behind. */
  function Behind(parts: seq<string>): string {
    if parts == [] then "" else Last(Joined(parts))
  }

  /** Every group so far is closed. */
  ghost predicate Closed(parts: seq<string>) {
    parts != [] ==> Well("", Joined(parts)) && IsPower(Behind(parts)) && !IsPlural(Behind(parts))
  }

  /** One more part behind closed groups. */
  lemma PartJoined(parts: seq<string>, s: string)
    requires Closed(parts) && Well(Behind(parts), s)
    requires Starts(First(s)) || Mean(First(s)) == Some(Power(1_000))
    ensures Well("", Joined(parts + [s])) && Last(Joined(parts + [s])) == Last(s)
  {
    hide Look, Words, Marks, Obeys, IsPlural, Joined;
    if parts == [] {
      assert parts + [s] == [s];
      OnePart(s);
    } else {
      JoinedSnoc(parts, s);
      WellJoined("", Joined(parts), ' ', s);
    }
  }

  lemma OnePart(s: string)
    ensures Joined([s]) == s
  {
  }

  lemma CloseMore(parts: seq<string>, more: seq<string>)
    requires Closed(parts) && MayClose(Behind(parts), more)
    ensures Closed(parts + more) && StandsAlone(Behind(parts + more))
  {
    hide Well, Mean, IsPlural, Joined, Last, First, Starts;
    if more == [] {
      assert parts + more == parts;
      NoneBehind(parts);
    } else {
      assert more == [more[0]];
      PartJoined(parts, more[0]);
    }
  }

  lemma NoneBehind(parts: seq<string>)
    requires Closed(parts)
    ensures StandsAlone(Behind(parts))
  {
  }

  lemma HighCloses(n: nat)
    requires n < 2_000_000_000_000
    ensures var high := ScaleParts(n, 0) + ThousandPart(n % 1_000_000 / 1_000);
            Closed(high) && StandsAlone(Behind(high))
  {
    hide Closed, Behind, StandsAlone, MayClose, ScalePart, ScaleParts, ThousandPart;
    var a, b, c := n / 1_000_000_000, n % 1_000_000_000 / 1_000_000, n % 1_000_000 / 1_000;
    PartsShape(n);
    NothingClosed();
    TwoScales();
    var p, q := ScalePart(a, SCALES[0]), ScalePart(b, SCALES[1]);
    ScaleCloses("", a, 0);
    CloseMore([], p);
    assert [] + p == p;
    ScaleCloses(Behind(p), b, 1);
    CloseMore(p, q);
    ThousandCloses(Behind(p + q), c);
    CloseMore(p + q, ThousandPart(c));
  }

  lemma NothingClosed()
    ensures Closed([]) && Behind([]) == "" && StandsAlone("")
  {
  }

  /** The last group, behind closed ones. */
  lemma LastGroup(parts: seq<string>, r: nat)
    requires Closed(parts) && StandsAlone(Behind(parts)) && 1 <= r < 1_000
    ensures Well("", Joined(parts + [ThreeDigits(r)]))
    ensures IsPlural(Last(Joined(parts + [ThreeDigits(r)]))) <==> r % 100 == 80 || (r % 100 == 0 && r >= 200)
  {
    hide Closed, Behind, StandsAlone, ThreeDigits, Joined, Well, Last, IsPlural, Starts, First, Mean, Is, Second, Words;
    GroupWell(Behind(parts), r);
    PartJoined(parts, ThreeDigits(r));
  }

  /**
   * Every number below two thousand milliards is spelled by the rules, and its last word is « vingts » or
   * « cents » exactly when it ends in eighty, or in two to nine round hundreds.
   */
  lemma SpelledByTheRules(n: nat)
    requires n < 2_000_000_000_000
    ensures Well("", InWords(n))
    ensures IsPlural(Last(InWords(n))) <==> n % 100 == 80 || (n % 100 == 0 && n % 1_000 >= 200)
  {
    hide *;
    if n == 0 {
      ZeroWell();
    } else {
      var high := ScaleParts(n, 0) + ThousandPart(n % 1_000_000 / 1_000);
      var r := n % 1_000;
      HighCloses(n);
      HighParts(n);
      PartsSplit(n);
      Hundreds(n);
      InWordsJoined(n);
      if r > 0 {
        LastGroup(high, r);
      } else {
        assert Parts(n) == high;
        ClosedAll(high);
      }
    }
  }

  lemma InWordsJoined(n: nat)
    requires n > 0
    ensures InWords(n) == Joined(Parts(n))
  {
  }

  lemma Hundreds(n: nat)
    ensures n % 1_000 % 100 == n % 100
  {
    var a, m := n / 1_000, n % 1_000;
    RemainderIs(n, 10 * a + m / 100, m % 100);
  }

  lemma RemainderIs(n: nat, q: nat, r: nat)
    requires n == 100 * q + r && r < 100
    ensures n % 100 == r
  {
  }

  lemma ClosedAll(parts: seq<string>)
    requires Closed(parts) && parts != []
    ensures Well("", Joined(parts)) && !IsPlural(Last(Joined(parts)))
  {
  }

  lemma ZeroWell()
    ensures Well("", InWords(0)) && !IsPlural(Last(InWords(0)))
  {
    hide Look, Words, Marks, Obeys, IsPlural;
    assert DICTIONARY[30] == Entry("zéro", Small(0));
    Entry1("", 30);
    PluralEntry(30);
  }

  /** « vingts » and « cents » stand nowhere but at the end, and there exactly as the number asks. */
  lemma WhereTheSStands(n: nat, i: nat)
    requires n < 2_000_000_000_000 && i < |Words(InWords(n))|
    ensures var word := Words(InWords(n))[i];
            word == "vingts" || word == "cents" <==>
              && i == |Words(InWords(n))| - 1
              && (n % 100 == 80 || (n % 100 == 0 && n % 1_000 >= 200))
  {
    hide InWords, Words;
    SpelledByTheRules(n);
  }
}
