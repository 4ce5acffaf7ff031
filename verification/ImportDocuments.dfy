/** The manifest that a document is stored as, and what the document says about its imports. */
module ImportDocuments {
  import opened Wrappers
  import opened Decimal
  import Placement
  import Import
  import ImportProofs
  import ImportConvergence
  import ImportContents
  import ParserContents
  import opened ParserModel
  import opened ParserTheorems

  function KindOf(kind: Kind): Placement.ItemKind {
    match kind
    case DomainItem => Placement.DomainItem
    case CapabilityItem => Placement.CapabilityItem
    case EpicItem => Placement.EpicItem
    case StoryItem => Placement.StoryItem
  }

  function SurfaceText(surface: Surface): string {
    match surface
    case Backend => "backend"
    case Frontend => "frontend"
    case Fullstack => "fullstack"
  }

  /** A parsed item as it is stored: keys as the document writes them, the hash as the text it is taken of. */
  function StoredAs(item: ParsedItem): Placement.ManifestItem {
    Placement.ManifestItem(
      KindOf(item.kind),
      Rendered(item.key),
      if item.parent.Some? then Some(Rendered(item.parent.value)) else None,
      item.title,
      item.body,
      item.priority,
      if item.surface.Some? then Some(SurfaceText(item.surface.value)) else None,
      item.targetVersion,
      item.hashed)
  }

  function ManifestOf(lines: seq<Line>): seq<Placement.ManifestItem> {
    var items := Items(lines);
    seq(|items|, i requires 0 <= i < |items| => StoredAs(items[i]))
  }

  /** The numbers and codes of the headings are what the patterns of the headings let through. */
  ghost predicate WellRead(lines: seq<Line>) {
    forall i :: 0 <= i < |lines| && HeadingKey(lines[i].says).Some? ==> WellFormed(HeadingKey(lines[i].says).value)
  }

  /** Lines beyond this number would number stories past what the reference of a ticket holds. */
  const LINES_MAX := 1_000_000_000_000_000_000

  lemma {:induction false} FewerStoriesThanLines(lines: seq<Line>, c: nat, index: nat)
    requires c <= |lines|
    ensures |StoryLines(lines, c, index)| <= |lines| - c
    decreases |lines| - c
  {
    if c < |lines| && !IsHeading(lines[c].says) && (lines[c].says.Numbered? || lines[c].says.Blank? || index == 0) {
      FewerStoriesThanLines(lines, c + 1, if lines[c].says.Numbered? then index + 1 else index);
    }
  }

  /** The key is well formed, and a story's number is within the lines. */
  predicate FitsIn(key: Key, lines: seq<Line>) {
    WellFormed(key) && (key.StoryKey? ==> key.index <= |lines|)
  }

  lemma ContributedKeysFit(lines: seq<Line>, i: nat, item: ParsedItem)
    requires WellRead(lines) && i < |lines| && item in Contribution(lines, i)
    ensures FitsIn(item.key, lines)
  {
    hide Contribution, StoryLines, EpicCode;
    var q :| 0 <= q < |Contribution(lines, i)| && Contribution(lines, i)[q] == item;
    if lines[i].says.StoriesStart? {
      StoryContribution(lines, i);
      FewerStoriesThanLines(lines, i + 1, 0);
      var h := Owner(lines, i).value;
      assert HeadingKey(lines[h].says) == Some(EpicKey(lines[h].says.code));
    } else {
      HeadingContribution(lines, i);
    }
  }

  lemma KeysFit(lines: seq<Line>, item: ParsedItem)
    requires WellRead(lines) && item in Items(lines)
    ensures FitsIn(item.key, lines)
  {
    hide Items, Contribution, FitsIn, WellRead;
    var parts := ItemsAreContributions(lines);
    InFlatten(parts, item);
    var i :| 0 <= i < |parts| && item in parts[i];
    ContributedKeysFit(lines, i, item);
  }

  /** The stored keys are distinct exactly when no epic code has two story blocks that list stories. */
  lemma ManifestKeysDistinct(lines: seq<Line>)
    requires WellRead(lines)
    ensures ImportProofs.DistinctKeys(ManifestOf(lines)) <==> OneBlockPerEpic(lines)
  {
    hide Items, OneBlockPerEpic, WellRead, WellFormed, Rendered;
    var items := Items(lines);
    AllKeysDistinct(lines);
    forall i, j | 0 <= i < j < |items|
      ensures ManifestOf(lines)[i].sourceKey == ManifestOf(lines)[j].sourceKey <==> items[i].key == items[j].key
    {
      KeysFit(lines, items[i]);
      KeysFit(lines, items[j]);
      if Rendered(items[i].key) == Rendered(items[j].key) {
        RenderedInjective(items[i].key, items[j].key);
      }
    }
    assert Pairwise(items, DifferentKeys) <==> forall i, j :: 0 <= i < j < |items| ==> items[i].key != items[j].key;
  }

  function Power(k: nat): nat {
    if k == 0 then 1 else 10 * Power(k - 1)
  }

  lemma {:induction false} DigitsFit(n: nat, k: nat)
    requires k > 0 && n < Power(k)
    ensures |Digits(n)| <= k
  {
    if n >= 10 {
      assert k > 1 by {
        assert Power(1) == 10 * Power(0);
      }
      DigitsFit(n / 10, k - 1);
    }
  }

  lemma EighteenDigits(n: nat)
    requires n < LINES_MAX
    ensures |Digits(n)| <= 18
  {
    assert Power(6) == 1_000_000 by {
      assert Power(3) == 1000;
    }
    assert Power(12) == 1_000_000 * Power(6) by {
      assert Power(9) == 1000 * Power(6);
      assert Power(12) == 1000 * Power(9);
    }
    assert Power(15) == 1000 * Power(12);
    assert Power(18) == 1000 * Power(15);
    DigitsFit(n, 18);
  }

  /** A key of a document of fewer lines than that is at most 32 characters long. */
  lemma RenderedShort(key: Key, lines: seq<Line>)
    requires FitsIn(key, lines) && |lines| < LINES_MAX
    ensures |Rendered(key)| <= 32
  {
    match key
    case DomainKey(n) => TwoDigits(n);
    case CapabilityKey(d, n) => TwoDigits(d); TwoDigits(n);
    case EpicKey(code) =>
    case StoryKey(epic, index) => EighteenDigits(index);
  }

  /**
   * No import of a document is ever aborted, over any backlog and at any step, when none of its epic
   * codes has two story blocks that list stories.
   */
  lemma DocumentNeverAborts(lines: seq<Line>, b0: Import.Backlog, req: Import.Request, dryRun: bool, n: nat)
    requires WellRead(lines) && |lines| < LINES_MAX && OneBlockPerEpic(lines)
    requires req.items == ManifestOf(lines)
    requires ImportProofs.Sound(b0) && n <= |ImportProofs.Sorted(req)|
    ensures !Import.After(b0, req, dryRun, n).failed
  {
    hide Items, OneBlockPerEpic, WellRead, Rendered, FitsIn, ImportProofs.Sound, Import.After, Import.EpicsFirst;
    ManifestKeysDistinct(lines);
    forall key | key in Import.DeclaredKeys(req)
      ensures Import.Prefix(key) == key
    {
      var i :| 0 <= i < |req.items| && Import.Importable(req.items[i]) && req.items[i].sourceKey == key;
      KeysFit(lines, Items(lines)[i]);
      RenderedShort(Items(lines)[i].key, lines);
    }
    ImportProofs.ImportNeverAborts(b0, req, dryRun, n);
  }

  /**
   * An epic whose title or prose changed between two documents is never reported as unchanged over the
   * row that an import of the first one wrote for it.
   */
  lemma ChangeIsSeen(lines: seq<Line>, x: ParsedItem, other: seq<Line>, y: ParsedItem,
      b0: Import.Backlog, first: Import.Request, second: Import.Request, j: nat, k: nat)
    requires ParserContents.IsEpicOf(lines, x) && ParserContents.IsEpicOf(other, y) && x.key == y.key
    requires x.title != y.title || x.body != y.body
    requires first.items == ManifestOf(lines) && second.items == ManifestOf(other)
    requires ImportProofs.Sound(b0) && !Import.Processed(b0, first, false).failed
    requires j < |ImportProofs.Sorted(first)| && ImportProofs.Sorted(first)[j] == StoredAs(x)
    requires k < |ImportProofs.Sorted(second)| && ImportProofs.Sorted(second)[k] == StoredAs(y)
    requires ImportConvergence.LastWriter(b0, first, |ImportProofs.Sorted(first)|, Rendered(x.key)) == j
    ensures var b := Import.Processed(b0, first, false).b;
            !ImportProofs.Verdict(b, second, StoredAs(y)).outcome.Unchanged?
  {
    hide Items, ImportProofs.Sorted, ImportProofs.Verdict, ImportProofs.Sound, Import.Processed, Rendered,
        ImportContents.TellsBefore, ImportContents.TellsReference, ImportConvergence.LastWriter,
        ParserContents.IsEpicOf, ImportConvergence.Latest;
    ParserContents.HashedExactly(lines, x, other, y);
    ImportConvergence.ItemsAreDeclared(first, j);
    ImportContents.RowTellsItem(b0, first, Rendered(x.key));
    ImportContents.VerdictTells(Import.Processed(b0, first, false).b, second, k);
  }

  // ------------------------------------------------------------------------------------------
  // A document with two story blocks under one epic.

  function TwoBlocksDocument(first: string, second: string): seq<Line> {
    [ Line("# EPIC GOV-01 - Audit", EpicHeading("GOV-01", "Audit")),
      Line("Stories :", StoriesStart),
      Line("1. " + first, Numbered(first, None)),
      Line("User stories :", StoriesStart),
      Line("1. " + second, Numbered(second, None))
    ]
  }

  const GOV_01 := EpicKey("GOV-01")

  function OnlyStory(sentence: string, line: nat): ParsedItem {
    ParsedItem(StoryItem, StoryKey("GOV-01", 1), Some(GOV_01), sentence, None, None, None, None, sentence, line)
  }

  lemma TwoBlocksLines(first: string, second: string)
    ensures var lines := TwoBlocksDocument(first, second);
            && FirstWith(lines, 0, GOV_01) == 0 && Accepted(lines, 0)
            && NextHeading(lines, 1) == 5
            && Owner(lines, 1) == Some(0) && Owner(lines, 3) == Some(0)
            && StoryLines(lines, 2, 0) == [2] && StoryLines(lines, 4, 0) == [4]
  {
    var lines := TwoBlocksDocument(first, second);
    assert NextHeading(lines, 4) == 5 && NextHeading(lines, 3) == 5 && NextHeading(lines, 2) == 5;
    assert LastHeading(lines, 1) == Some(0) && LastHeading(lines, 2) == Some(0) && LastHeading(lines, 3) == Some(0);
    assert StoryLines(lines, 5, 1) == [] && StoryLines(lines, 3, 1) == [];
  }

  lemma TwoBlocksContributions(first: string, second: string)
    ensures var lines := TwoBlocksDocument(first, second);
            && (exists body, hashed ::
                  ItemsAt(lines, 0, 6) ==
                      [ParsedItem(EpicItem, GOV_01, None, "Audit", body, None, None, None, hashed, 1)])
            && ItemsAt(lines, 1, 6) == [OnlyStory(first, 3)] && ItemsAt(lines, 2, 6) == []
            && ItemsAt(lines, 3, 6) == [OnlyStory(second, 5)] && ItemsAt(lines, 4, 6) == []
            && forall i :: 0 <= i < 5 ==> IssuesAt(lines, i) == []
  {
    hide StoryLines, NextHeading, FirstWith, LastHeading;
    var lines := TwoBlocksDocument(first, second);
    TwoBlocksLines(first, second);
    NothingSaid(lines, 5);
    NothingSaid(lines, 3);
    NothingSaid(lines, 1);
    var epic := EpicFrom(lines, 0, 5, true);
    assert epic == ParsedItem(EpicItem, GOV_01, None, "Audit", epic.body, None, None, None, epic.hashed, 1);
    assert ItemsAt(lines, 0, 6) == [epic];
  }

  /** Without a line about the epic nothing is known of it but its heading. */
  lemma {:induction false} NothingSaid(lines: seq<Line>, e: nat)
    requires 0 < e <= |lines|
    requires forall i :: 0 < i < e ==> lines[i].says.StoriesStart? || lines[i].says.Numbered?
    requires lines[0].says.EpicHeading?
    ensures PriorityIn(lines, 0, e) == None && SurfaceIn(lines, 0, e) == None
    ensures VersionIn(lines, 0, e) == None && DomainIn(lines, 0, e) == None
    ensures CapabilityAt(lines, 0) == None == DomainAt(lines, 0)
  {
    if e > 1 {
      NothingSaid(lines, e - 1);
    }
  }

  /** The parser files both stories, under one key, and has nothing to report. */
  lemma TwoBlocksParse(first: string, second: string)
    ensures var lines := TwoBlocksDocument(first, second);
            && |Items(lines)| == 3
            && Items(lines)[0].(body := None, hashed := "") ==
               ParsedItem(EpicItem, GOV_01, None, "Audit", None, None, None, None, "", 1)
            && Items(lines)[1] == OnlyStory(first, 3) && Items(lines)[2] == OnlyStory(second, 5)
            && Issues(lines) == []
  {
    hide ItemsAt, IssuesAt;
    var lines := TwoBlocksDocument(first, second);
    TwoBlocksContributions(first, second);
    var parts := Parts(lines, 5, 6);
    assert parts[..4][..3][..2][..1][..0] == [];
    assert Flatten(parts[..4][..3][..2][..1]) == parts[0];
    assert Flatten(parts[..4][..3][..2]) == parts[0] + parts[1];
    assert Flatten(parts[..4][..3]) == parts[0] + parts[1];
    assert Flatten(parts[..4]) == parts[0] + parts[1] + parts[3];
    assert Items(lines) == parts[0] + parts[1] + parts[3];
    var items := Items(lines);
    assert IssuesUpTo(lines, 1) == [] && IssuesUpTo(lines, 2) == [] && IssuesUpTo(lines, 3) == [];
    assert IssuesUpTo(lines, 4) == [] && IssuesUpTo(lines, 5) == [];
    var known := KeysOf(items) + DomainsNamed(lines, 5);
    assert items[0].key in KeysOf(items) && GOV_01 in known;
    assert MissingParents(items, 1, known) == [] && MissingParents(items, 2, known) == [];
    assert MissingParents(items, 3, known) == [];
  }
}
