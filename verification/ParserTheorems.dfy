/** What the items and issues of a document satisfy, whatever the document. */
module ParserTheorems {
  import opened Decimal
  import opened ParserModel

  // ------------------------------------------------------------------------------------------
  // Flattened contributions.

  lemma {:induction false} InFlatten<T>(parts: seq<seq<T>>, x: T)
    ensures x in Flatten(parts) <==> exists i :: 0 <= i < |parts| && x in parts[i]
  {
    if parts != [] {
      var k := |parts| - 1;
      InFlatten(parts[..k], x);
      if x in Flatten(parts[..k]) {
        var i :| 0 <= i < |parts[..k]| && x in parts[..k][i];
        assert x in parts[i];
      }
      if i :| 0 <= i < |parts| && x in parts[i] {
        assert i < k ==> x in parts[..k][i];
      }
    }
  }

  /** Every two items, in order, satisfy `ok`. */
  ghost predicate Pairwise(items: seq<ParsedItem>, ok: (ParsedItem, ParsedItem) -> bool) {
    forall p, q :: 0 <= p < q < |items| ==> ok(items[p], items[q])
  }

  ghost predicate Across(a: seq<ParsedItem>, b: seq<ParsedItem>, ok: (ParsedItem, ParsedItem) -> bool) {
    forall x, y :: x in a && y in b ==> ok(x, y)
  }

  lemma PairwiseConcat(a: seq<ParsedItem>, b: seq<ParsedItem>, ok: (ParsedItem, ParsedItem) -> bool)
    ensures Pairwise(a + b, ok) <==> Pairwise(a, ok) && Pairwise(b, ok) && Across(a, b, ok)
  {
    var s := a + b;
    if Pairwise(s, ok) {
      forall p, q | 0 <= p < q < |a| ensures ok(a[p], a[q]) { assert ok(s[p], s[q]); }
      forall p, q | 0 <= p < q < |b| ensures ok(b[p], b[q]) { assert ok(s[|a| + p], s[|a| + q]); }
      forall x, y | x in a && y in b ensures ok(x, y) {
        var p :| 0 <= p < |a| && a[p] == x;
        var q :| 0 <= q < |b| && b[q] == y;
        assert ok(s[p], s[|a| + q]);
      }
    }
  }

  lemma {:induction false} PairwiseFlatten(parts: seq<seq<ParsedItem>>, ok: (ParsedItem, ParsedItem) -> bool)
    ensures Pairwise(Flatten(parts), ok) <==>
      (forall i :: 0 <= i < |parts| ==> Pairwise(parts[i], ok))
      && forall i, j :: 0 <= i < j < |parts| ==> Across(parts[i], parts[j], ok)
  {
    if parts != [] {
      var k := |parts| - 1;
      var init := parts[..k];
      PairwiseFlatten(init, ok);
      PairwiseConcat(Flatten(init), parts[k], ok);
      AcrossFlatten(init, parts[k], ok);
      assert forall i :: 0 <= i < k ==> init[i] == parts[i];
    }
  }

  lemma AcrossFlatten(parts: seq<seq<ParsedItem>>, b: seq<ParsedItem>, ok: (ParsedItem, ParsedItem) -> bool)
    ensures Across(Flatten(parts), b, ok) <==> forall i :: 0 <= i < |parts| ==> Across(parts[i], b, ok)
  {
    forall x {
      InFlatten(parts, x);
    }
  }

  // ------------------------------------------------------------------------------------------
  // Keys.

  /** Only stories may share a key: they are pushed without a look at the keys already seen. */
  predicate SharedOnlyByStories(x: ParsedItem, y: ParsedItem) {
    x.key == y.key ==> x.kind.StoryItem? && y.kind.StoryItem?
  }

  predicate DifferentKeys(x: ParsedItem, y: ParsedItem) {
    x.key != y.key
  }

  function Contribution(lines: seq<Line>, i: nat): seq<ParsedItem>
    requires i < |lines|
  {
    ItemsAt(lines, i, |lines| + 1)
  }

  lemma StoryContribution(lines: seq<Line>, i: nat)
    requires i < |lines| && lines[i].says.StoriesStart?
    ensures var h := Owner(lines, i);
      var cs := StoryLines(lines, i + 1, 0);
      if h.None? then Contribution(lines, i) == []
      else |Contribution(lines, i)| == |cs| && forall k :: 0 <= k < |cs| ==>
        Contribution(lines, i)[k].kind == StoryItem
        && Contribution(lines, i)[k].key == StoryKey(lines[h.value].says.code, k + 1)
  {
  }

  lemma HeadingContribution(lines: seq<Line>, i: nat)
    requires i < |lines| && !lines[i].says.StoriesStart?
    ensures if HeadingKey(lines[i].says).Some? && Accepted(lines, i) then
        && |Contribution(lines, i)| == 1 && !Contribution(lines, i)[0].kind.StoryItem?
        && Contribution(lines, i)[0].key == HeadingKey(lines[i].says).value
      else Contribution(lines, i) == []
  {
  }

  /** Contributions of two lines meet in a key only when both are story blocks of one epic code. */
  lemma ContributionsApart(lines: seq<Line>, i: nat, j: nat)
    requires i < j < |lines|
    ensures Across(Contribution(lines, i), Contribution(lines, j), SharedOnlyByStories)
  {
    if lines[i].says.StoriesStart? { StoryContribution(lines, i); } else { HeadingContribution(lines, i); }
    if lines[j].says.StoriesStart? { StoryContribution(lines, j); } else { HeadingContribution(lines, j); }
    forall x, y | x in Contribution(lines, i) && y in Contribution(lines, j)
      ensures SharedOnlyByStories(x, y)
    {
      var p :| 0 <= p < |Contribution(lines, i)| && Contribution(lines, i)[p] == x;
      var q :| 0 <= q < |Contribution(lines, j)| && Contribution(lines, j)[q] == y;
    }
  }

  lemma ContributionOwnKeys(lines: seq<Line>, i: nat)
    requires i < |lines|
    ensures Pairwise(Contribution(lines, i), SharedOnlyByStories)
    ensures Pairwise(Contribution(lines, i), DifferentKeys)
  {
    if lines[i].says.StoriesStart? { StoryContribution(lines, i); } else { HeadingContribution(lines, i); }
  }

  lemma ItemsAreContributions(lines: seq<Line>) returns (parts: seq<seq<ParsedItem>>)
    ensures |parts| == |lines| && Items(lines) == Flatten(parts)
    ensures forall i :: 0 <= i < |lines| ==> parts[i] == Contribution(lines, i)
  {
    parts := Parts(lines, |lines|, |lines| + 1);
  }

  /** Domain, capability and epic keys are pairwise distinct, and none is a story's. */
  lemma HeadingKeysDistinct(lines: seq<Line>)
    ensures Pairwise(Items(lines), SharedOnlyByStories)
  {
    hide Items, Contribution;
    var parts := ItemsAreContributions(lines);
    forall i | 0 <= i < |lines| ensures Pairwise(Contribution(lines, i), SharedOnlyByStories) {
      ContributionOwnKeys(lines, i);
    }
    forall i, j | 0 <= i < j < |lines|
      ensures Across(Contribution(lines, i), Contribution(lines, j), SharedOnlyByStories)
    {
      ContributionsApart(lines, i, j);
    }
    PairwiseFlatten(parts, SharedOnlyByStories);
  }

  /** Line `i` starts a story block of the epic `code`, and the block lists at least one story. */
  predicate TellsStories(lines: seq<Line>, i: nat, code: string) {
    && i < |lines| && lines[i].says.StoriesStart? && StoryLines(lines, i + 1, 0) != []
    && Owner(lines, i).Some? && lines[Owner(lines, i).value].says.code == code
  }

  /** The blocks at `i` and `j` both list stories, of one epic code. */
  predicate BlocksMeet(lines: seq<Line>, i: nat, j: nat) {
    && i < |lines| && Owner(lines, i).Some?
    && TellsStories(lines, i, lines[Owner(lines, i).value].says.code)
    && TellsStories(lines, j, lines[Owner(lines, i).value].says.code)
  }

  predicate OneBlockPerEpic(lines: seq<Line>) {
    forall i, j :: 0 <= i < j < |lines| ==> !BlocksMeet(lines, i, j)
  }

  lemma BlocksApart(lines: seq<Line>, i: nat, j: nat)
    requires i < j < |lines|
    ensures Across(Contribution(lines, i), Contribution(lines, j), DifferentKeys)
      <==> !BlocksMeet(lines, i, j)
  {
    ContributionsApart(lines, i, j);
    var a, b := Contribution(lines, i), Contribution(lines, j);
    if lines[i].says.StoriesStart? { StoryContribution(lines, i); } else { HeadingContribution(lines, i); }
    if lines[j].says.StoriesStart? { StoryContribution(lines, j); } else { HeadingContribution(lines, j); }
    if a != [] && b != [] && a[0].kind.StoryItem? && b[0].kind.StoryItem? && a[0].key == b[0].key {
      assert a[0] in a && b[0] in b && !DifferentKeys(a[0], b[0]);
    } else {
      forall x, y | x in a && y in b ensures DifferentKeys(x, y) {
        var p :| 0 <= p < |a| && a[p] == x;
        var q :| 0 <= q < |b| && b[q] == y;
        assert SharedOnlyByStories(x, y);
      }
    }
  }

  /** All keys are distinct exactly when no epic code has two story blocks that list stories. */
  lemma AllKeysDistinct(lines: seq<Line>)
    ensures Pairwise(Items(lines), DifferentKeys) <==> OneBlockPerEpic(lines)
  {
    hide Items, Contribution;
    var parts := ItemsAreContributions(lines);
    forall i | 0 <= i < |lines| ensures Pairwise(Contribution(lines, i), DifferentKeys) {
      ContributionOwnKeys(lines, i);
    }
    forall i, j | 0 <= i < j < |lines|
      ensures Across(Contribution(lines, i), Contribution(lines, j), DifferentKeys)
        <==> !BlocksMeet(lines, i, j)
    {
      BlocksApart(lines, i, j);
    }
    PairwiseFlatten(parts, DifferentKeys);
  }

  // ------------------------------------------------------------------------------------------
  // Sections.

  /** `item` is the epic declared at line `h`, its section running to the next heading or the end. */
  predicate SectionOf(lines: seq<Line>, h: int, item: ParsedItem) {
    && 0 <= h < |lines| && lines[h].says.EpicHeading? && Accepted(lines, h)
    && item == EpicFrom(lines, h, NextHeading(lines, h + 1), true)
  }

  lemma EpicContribution(lines: seq<Line>, h: nat, item: ParsedItem)
    requires h < |lines|
    ensures item.kind.EpicItem? && item in Contribution(lines, h) <==> SectionOf(lines, h, item)
  {
    if lines[h].says.StoriesStart? {
      StoryContribution(lines, h);
    }
  }

  /**
   * The epics of a document are the accepted epic headings, and each one's body is exactly the
   * prose from after its heading to the next heading of any level or the end.
   */
  lemma EpicsAreSections(lines: seq<Line>, item: ParsedItem)
    ensures item.kind.EpicItem? && item in Items(lines) <==> exists h :: SectionOf(lines, h, item)
    ensures forall h :: SectionOf(lines, h, item) ==>
      && item.body == Excerpt(lines[h + 1..NextHeading(lines, h + 1)])
      && item.hashed == Hashed(item.title, item.body)
  {
    hide Items, Contribution;
    var parts := ItemsAreContributions(lines);
    InFlatten(parts, item);
    forall h | 0 <= h < |lines| ensures item.kind.EpicItem? && item in parts[h] <==> SectionOf(lines, h, item) {
      EpicContribution(lines, h, item);
    }
    if item.kind.EpicItem? && item in Items(lines) {
      var h :| 0 <= h < |parts| && item in parts[h];
      assert SectionOf(lines, h, item);
    }
    if h :| SectionOf(lines, h, item) {
      assert item in parts[h];
    }
  }

  /** Line `c` belongs to the list that is read from line `s` on, `started` or not. */
  ghost predicate Listed(lines: seq<Line>, s: nat, started: bool, c: nat) {
    && s <= c < |lines| && lines[c].says.Numbered?
    && (forall j :: s <= j < c ==> !IsHeading(lines[j].says))
    && (forall j, k :: s <= k < j < c && lines[k].says.Numbered? ==> lines[j].says.Numbered? || lines[j].says.Blank?)
    && (started ==> forall j :: s <= j < c ==> lines[j].says.Numbered? || lines[j].says.Blank?)
  }

  lemma ListedFromNext(lines: seq<Line>, s: nat, started: bool, c: nat)
    requires s < |lines| && !IsHeading(lines[s].says)
    requires lines[s].says.Numbered? || lines[s].says.Blank? || !started
    ensures Listed(lines, s, started, c)
      <==> (c == s && lines[s].says.Numbered?) || Listed(lines, s + 1, started || lines[s].says.Numbered?, c)
  {
  }

  /** A story block lists its numbered lines up to the first prose after the list, or a heading. */
  lemma {:induction false} StoryLinesAreListed(lines: seq<Line>, s: nat, index: nat, c: nat)
    requires s <= |lines|
    ensures c in StoryLines(lines, s, index) <==> Listed(lines, s, index > 0, c)
    decreases |lines| - s
  {
    if s < |lines| && !IsHeading(lines[s].says) && (lines[s].says.Numbered? || lines[s].says.Blank? || index == 0) {
      ListedFromNext(lines, s, index > 0, c);
      hide Listed;
      StoryLinesAreListed(lines, s + 1, if lines[s].says.Numbered? then index + 1 else index, c);
    }
  }

  // ------------------------------------------------------------------------------------------
  // Parents and issues.

  lemma {:induction false} MissingParentReported(items: seq<ParsedItem>, k: nat, known: set<Key>, i: nat)
    requires i < k <= |items|
    requires items[i].parent.Some? && items[i].parent.value !in known
    ensures MissingParent(items[i].key, items[i].parent.value, items[i].line) in MissingParents(items, k, known)
  {
    if i < k - 1 {
      MissingParentReported(items, k - 1, known, i);
    }
  }

  /** Every parent key is declared in the document, named by a « Domaine : » line, or warned about. */
  lemma ParentsAccountedFor(lines: seq<Line>, item: ParsedItem)
    requires item in Items(lines) && item.parent.Some?
    ensures item.parent.value in KeysOf(Items(lines))
         || item.parent.value in DomainsNamed(lines, |lines|)
         || MissingParent(item.key, item.parent.value, item.line) in Issues(lines)
  {
    hide Items, DomainsNamed, IssuesUpTo, KeysOf;
    var items := Items(lines);
    var i :| 0 <= i < |items| && items[i] == item;
    var known := KeysOf(items) + DomainsNamed(lines, |lines|);
    if item.parent.value !in known {
      MissingParentReported(items, |items|, known, i);
    }
  }

  /** The duplicate errors among the issues, in order. */
  function Duplicates(issues: seq<Issue>): seq<Issue> {
    if issues == [] then []
    else
      Duplicates(issues[..|issues| - 1]) + (if issues[|issues| - 1].DuplicateKey? then [issues[|issues| - 1]] else [])
  }

  lemma {:induction false} DuplicatesConcat(a: seq<Issue>, b: seq<Issue>)
    ensures Duplicates(a + b) == Duplicates(a) + Duplicates(b)
  {
    if b == [] {
      assert a + b == a;
    } else {
      DuplicatesConcat(a, b[..|b| - 1]);
      assert (a + b)[..|a + b| - 1] == a + b[..|b| - 1];
    }
  }

  /** The heading in line i declares a key that is taken. */
  predicate IsRejected(lines: seq<Line>, i: nat)
    requires i < |lines|
  {
    HeadingKey(lines[i].says).Some? && !Accepted(lines, i)
  }

  /** The error of a rejected heading: its own key, its own line, and the line that declared the key first. */
  function ErrorOf(lines: seq<Line>, i: nat): Issue
    requires i < |lines| && IsRejected(lines, i)
  {
    var key := HeadingKey(lines[i].says).value;
    DuplicateKey(key, i + 1, FirstWith(lines, 0, key) + 1)
  }

  /** The errors of the rejected headings before `n`, in document order. */
  function Rejections(lines: seq<Line>, n: nat): seq<Issue>
    requires n <= |lines|
  {
    if n == 0 then [] else Rejections(lines, n - 1) + (if IsRejected(lines, n - 1) then [ErrorOf(lines, n - 1)] else [])
  }

  lemma DuplicatesOfOne(issue: Issue)
    ensures Duplicates([issue]) == if issue.DuplicateKey? then [issue] else []
  {
    assert [issue][..0] == [];
  }

  lemma DuplicatesAt(lines: seq<Line>, i: nat)
    requires i < |lines|
    ensures Duplicates(IssuesAt(lines, i)) == if IsRejected(lines, i) then [ErrorOf(lines, i)] else []
  {
    var issues, dup := IssuesAt(lines, i), DuplicateAt(lines, i);
    if dup != [] {
      DuplicatesOfOne(dup[0]);
      assert dup == [dup[0]];
    }
    if lines[i].says.CapabilityHeading? {
      var elsewhere := issues[..|issues| - |dup|];
      assert issues == elsewhere + dup;
      DuplicatesConcat(elsewhere, dup);
      if elsewhere != [] {
        DuplicatesOfOne(elsewhere[0]);
        assert elsewhere == [elsewhere[0]];
      }
    } else if issues != [] {
      DuplicatesOfOne(issues[0]);
      assert issues == [issues[0]];
    }
  }

  lemma {:induction false} DuplicatesUpTo(lines: seq<Line>, n: nat)
    requires n <= |lines|
    ensures Duplicates(IssuesUpTo(lines, n)) == Rejections(lines, n)
  {
    hide IssuesAt, IsRejected, ErrorOf;
    if n > 0 {
      DuplicatesUpTo(lines, n - 1);
      DuplicatesAt(lines, n - 1);
      DuplicatesConcat(IssuesUpTo(lines, n - 1), IssuesAt(lines, n - 1));
    }
  }

  lemma {:induction false} NoDuplicateAmongMissing(items: seq<ParsedItem>, k: nat, known: set<Key>)
    requires k <= |items|
    ensures Duplicates(MissingParents(items, k, known)) == []
  {
    if k > 0 {
      NoDuplicateAmongMissing(items, k - 1, known);
      var more := if items[k - 1].parent.Some? && items[k - 1].parent.value !in known
        then [MissingParent(items[k - 1].key, items[k - 1].parent.value, items[k - 1].line)] else [];
      assert more != [] ==> more[..0] == [];
      DuplicatesConcat(MissingParents(items, k - 1, known), more);
    }
  }

  lemma {:induction false} RejectionsAre(lines: seq<Line>, n: nat, issue: Issue)
    requires n <= |lines|
    ensures issue in Rejections(lines, n) <==>
        exists i :: 0 <= i < n && IsRejected(lines, i) && issue == ErrorOf(lines, i)
  {
    hide FirstWith;
    if n > 0 {
      RejectionsAre(lines, n - 1, issue);
    }
  }

  /** Duplicate errors of lines that ascend, none past line n. */
  ghost predicate Ascending(errors: seq<Issue>, n: nat) {
    && (forall i :: 0 <= i < |errors| ==> errors[i].DuplicateKey? && errors[i].line <= n)
    && (forall i, j :: 0 <= i < j < |errors| ==> errors[i].line < errors[j].line)
  }

  lemma {:induction false} RejectionsAscend(lines: seq<Line>, n: nat)
    requires n <= |lines|
    ensures Ascending(Rejections(lines, n), n)
  {
    hide FirstWith;
    if n > 0 {
      RejectionsAscend(lines, n - 1);
    }
  }

  /**
   * The duplicate errors of a document are those of its rejected headings, one each and in order: an
   * error tells the heading's own key and line, and the line that declared the key first.
   */
  lemma OneErrorPerDuplicate(lines: seq<Line>)
    ensures Duplicates(Issues(lines)) == Rejections(lines, |lines|)
    ensures forall issue :: issue in Rejections(lines, |lines|) <==>
              exists i :: 0 <= i < |lines| && IsRejected(lines, i) && issue == ErrorOf(lines, i)
    ensures Ascending(Duplicates(Issues(lines)), |lines|)
  {
    hide Items, IssuesUpTo, IsRejected, ErrorOf, Rejections, Ascending;
    var items := Items(lines);
    var none := if items == [] then [NothingRecognised] else [];
    var missing := MissingParents(items, |items|, KeysOf(items) + DomainsNamed(lines, |lines|));
    DuplicatesUpTo(lines, |lines|);
    assert none != [] ==> none[..0] == [];
    DuplicatesConcat(IssuesUpTo(lines, |lines|), none);
    DuplicatesConcat(IssuesUpTo(lines, |lines|) + none, missing);
    NoDuplicateAmongMissing(items, |items|, KeysOf(items) + DomainsNamed(lines, |lines|));
    forall issue
      ensures issue in Rejections(lines, |lines|) <==>
          exists i :: 0 <= i < |lines| && IsRejected(lines, i) && issue == ErrorOf(lines, i)
    {
      RejectionsAre(lines, |lines|, issue);
    }
    RejectionsAscend(lines, |lines|);
  }

  // ------------------------------------------------------------------------------------------
  // The keys as the document writes them.

  predicate UpperLetter(c: char) {
    'A' <= c <= 'Z'
  }

  /** `[A-Z]{2,6}-\d{1,3}`: what an epic heading's code looks like. */
  predicate EpicCode(code: string) {
    exists k :: 2 <= k <= 6 && k < |code| <= k + 4 && code[k] == '-' && k + 1 < |code|
      && (forall i :: 0 <= i < k ==> UpperLetter(code[i]))
      && (forall i :: k < i < |code| ==> IsDigit(code[i]))
  }

  predicate WellFormed(key: Key) {
    match key
    case DomainKey(n) => n < 100
    case CapabilityKey(d, n) => d < 100 && n < 100
    case EpicKey(code) => EpicCode(code)
    case StoryKey(epic, _) => EpicCode(epic)
  }

  function Rendered(key: Key): string {
    match key
    case DomainKey(n) => "D" + PadStart(Digits(n), 2)
    case CapabilityKey(d, n) => "D" + PadStart(Digits(d), 2) + ".C" + PadStart(Digits(n), 2)
    case EpicKey(code) => code
    case StoryKey(epic, index) => "US-" + epic + "-" + Digits(index)
  }

  function Hyphens(s: string): nat {
    if s == "" then 0 else Hyphens(s[..|s| - 1]) + (if s[|s| - 1] == '-' then 1 else 0)
  }

  lemma {:induction false} HyphensConcat(a: string, b: string)
    ensures Hyphens(a + b) == Hyphens(a) + Hyphens(b)
  {
    if b == "" {
      assert a + b == a;
    } else {
      HyphensConcat(a, b[..|b| - 1]);
      assert (a + b)[..|a + b| - 1] == a + b[..|b| - 1];
    }
  }

  lemma {:induction false} NoHyphens(s: string)
    requires '-' !in s
    ensures Hyphens(s) == 0
  {
    if s != "" {
      NoHyphens(s[..|s| - 1]);
    }
  }

  lemma CodeHyphens(code: string)
    requires EpicCode(code)
    ensures Hyphens(code) == 1
  {
    var k :| 2 <= k <= 6 && k < |code| <= k + 4 && code[k] == '-' && k + 1 < |code|
      && (forall i :: 0 <= i < k ==> UpperLetter(code[i]))
      && (forall i :: k < i < |code| ==> IsDigit(code[i]));
    var a, b := code[..k], code[k + 1..];
    assert code == a + "-" + b;
    NoHyphens(a);
    NoHyphens(b);
    assert Hyphens("-") == 1 by { assert "-"[..0] == ""; }
    HyphensConcat(a, "-");
    HyphensConcat(a + "-", b);
  }

  /** The number of hyphens alone tells the kinds apart. */
  lemma RenderedHyphens(key: Key)
    requires WellFormed(key)
    ensures Hyphens(Rendered(key))
         == match key case DomainKey(_) => 0 case CapabilityKey(_, _) => 0 case EpicKey(_) => 1 case StoryKey(_, _) => 3
  {
    match key
    case DomainKey(n) => NoHyphens(Rendered(key));
    case CapabilityKey(d, n) => NoHyphens(Rendered(key));
    case EpicKey(code) => CodeHyphens(code);
    case StoryKey(epic, index) =>
      CodeHyphens(epic);
      NoHyphens(Digits(index));
      NoHyphens("US");
      assert Hyphens("-") == 1 by { assert "-"[..0] == ""; }
      HyphensConcat("US", "-");
      assert "US-" == "US" + "-";
      HyphensConcat("US-", epic);
      HyphensConcat("US-" + epic, "-");
      HyphensConcat("US-" + epic + "-", Digits(index));
  }

  lemma TwoDigits(n: nat)
    requires n < 100
    ensures |PadStart(Digits(n), 2)| == 2
  {
  }

  /** Two keys of a document are written alike only when they are the same key. */
  lemma RenderedInjective(a: Key, b: Key)
    requires WellFormed(a) && WellFormed(b) && Rendered(a) == Rendered(b)
    ensures a == b
  {
    RenderedHyphens(a);
    RenderedHyphens(b);
    match a
    case DomainKey(m) =>
      TwoDigits(m);
      if b.CapabilityKey? {
        TwoDigits(b.domain);
      } else {
        assert PadStart(Digits(m), 2) == Rendered(a)[1..] == Rendered(b)[1..];
        PaddedInjective(m, b.number, 2);
      }
    case CapabilityKey(d, m) =>
      TwoDigits(d);
      TwoDigits(m);
      TwoDigits(b.number);
      if b.CapabilityKey? {
        TwoDigits(b.domain);
        assert PadStart(Digits(d), 2) == Rendered(a)[1..3] == Rendered(b)[1..3];
        assert PadStart(Digits(m), 2) == Rendered(a)[5..] == Rendered(b)[5..];
        PaddedInjective(d, b.domain, 2);
        PaddedInjective(m, b.number, 2);
      }
    case EpicKey(code) =>
    case StoryKey(epic, index) =>
      SplitAtLastHyphen("US-" + epic, Digits(index), "US-" + b.epic, Digits(b.index));
      assert epic == ("US-" + epic)[3..] == ("US-" + b.epic)[3..] == b.epic;
      ReadsDigits(index);
      ReadsDigits(b.index);
  }
}
