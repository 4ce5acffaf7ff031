/** What the items and issues of a document hold, told on its lines. */
module ParserContents {
  import opened Wrappers
  import opened ParserModel
  import opened ParserTheorems

  // ------------------------------------------------------------------------------------------
  // The text of a section, and what its hash is taken of.

  lemma {:induction false} TrimStartDrops(s: string) returns (front: string)
    ensures s == front + TrimStart(s) && forall c :: c in front ==> c in " \t\n\r"
    ensures TrimStart(s) != "" ==> TrimStart(s)[0] !in " \t\n\r"
  {
    if s != "" && Space(s[0]) {
      var rest := TrimStart(s[1..]);
      var more := TrimStartDrops(s[1..]);
      front := [s[0]] + more;
      assert s == [s[0]] + (more + rest) == front + rest;
    } else {
      front := "";
    }
  }

  lemma {:induction false} TrimEndDrops(s: string) returns (back: string)
    ensures s == TrimEnd(s) + back && forall c :: c in back ==> c in " \t\n\r"
    ensures TrimEnd(s) != "" ==> TrimEnd(s)[|TrimEnd(s)| - 1] !in " \t\n\r"
  {
    if s != "" && Space(s[|s| - 1]) {
      var rest := TrimEnd(s[..|s| - 1]);
      var more := TrimEndDrops(s[..|s| - 1]);
      back := more + [s[|s| - 1]];
      assert s == (rest + more) + [s[|s| - 1]] == rest + back;
    } else {
      back := "";
    }
  }

  /** The lines of a text, one newline between two of them. */
  lemma {:induction false} JoinedTells(a: seq<Line>, b: seq<Line>)
    requires a != [] && b != []
    ensures Joined(a + b) == Joined(a) + "\n" + Joined(b)
    ensures |a| == 1 ==> Joined(a) == a[0].text
  {
    assert (a + b)[1..] == a[1..] + b;
    if |a| > 1 {
      JoinedTells(a[1..], b);
      assert a[0].text + "\n" + (Joined(a[1..]) + "\n" + Joined(b))
          == a[0].text + "\n" + Joined(a[1..]) + "\n" + Joined(b);
    }
  }

  predicate IsBlank(s: string) {
    forall c :: c in s ==> c in " \t\n\r"
  }

  /** The body of a section is its text without the white space at its ends, and there is none when nothing is left. */
  lemma ExcerptTells(lines: seq<Line>)
    ensures Excerpt(lines) == None <==> IsBlank(Joined(lines))
    ensures Excerpt(lines).Some? ==>
              var body := Excerpt(lines).value;
              && body != "" && body[0] !in " \t\n\r" && body[|body| - 1] !in " \t\n\r"
              && exists front, back :: IsBlank(front) && IsBlank(back) && Joined(lines) == front + body + back
  {
    hide TrimStart, TrimEnd, Joined;
    var text := Joined(lines);
    var front := TrimStartDrops(text);
    var started := TrimStart(text);
    var back := TrimEndDrops(started);
    var body := TrimEnd(started);
    assert text == front + (body + back) == front + body + back;
    if body == "" {
      assert text == front + back;
    } else {
      assert body[0] == started[0] && body[0] in text;
      assert IsBlank(front) && IsBlank(back);
    }
  }

  lemma FirstNewline(a: string, x: string, b: string, y: string)
    requires '\n' !in a && '\n' !in b && a + "\n" + x == b + "\n" + y
    ensures a == b && x == y
  {
    var s, t := a + "\n" + x, b + "\n" + y;
    assert s[|a|] == '\n' && t[|b|] == '\n';
    assert forall k :: 0 <= k < |a| ==> s[k] == a[k] && a[k] in a;
    assert forall k :: 0 <= k < |b| ==> t[k] == b[k] && b[k] in b;
    assert |a| == |b|;
    assert a == s[..|a|] && b == t[..|b|];
    assert x == s[|a| + 1..] && y == t[|b| + 1..];
  }

  /** The item is an epic of the document, its title a single line, as the title of a heading is. */
  ghost predicate IsEpicOf(lines: seq<Line>, item: ParsedItem) {
    item.kind.EpicItem? && item in Items(lines) && '\n' !in item.title
  }

  /** Two epics, of one document or of two, have one hash input exactly when title and body are the same. */
  lemma HashedExactly(lines: seq<Line>, x: ParsedItem, other: seq<Line>, y: ParsedItem)
    requires IsEpicOf(lines, x) && IsEpicOf(other, y)
    ensures x.hashed == y.hashed <==> x.title == y.title && x.body == y.body
  {
    hide Items, Excerpt;
    EpicsAreSections(lines, x);
    EpicsAreSections(other, y);
    var h :| SectionOf(lines, h, x);
    var i :| SectionOf(other, i, y);
    ExcerptTells(lines[h + 1..NextHeading(lines, h + 1)]);
    ExcerptTells(other[i + 1..NextHeading(other, i + 1)]);
    var a, b := if x.body.Some? then x.body.value else "", if y.body.Some? then y.body.value else "";
    if x.hashed == y.hashed {
      FirstNewline(x.title, a, y.title, b);
    }
  }

  // ------------------------------------------------------------------------------------------
  // What the lines about an epic say: the last one of its section wins.

  /** Between the heading and line `e` the last priority line says this. */
  ghost predicate PriorityIs(lines: seq<Line>, h: nat, e: nat, priority: Option<string>)
    requires e <= |lines|
  {
    match priority
    case None => forall i :: h < i < e ==> !lines[i].says.PriorityLine?
    case Some(p) =>
      exists i ::
        h < i < e && lines[i].says == PriorityLine(p) && forall j :: i < j < e ==> !lines[j].says.PriorityLine?
  }

  lemma {:induction false} PriorityTells(lines: seq<Line>, h: nat, e: nat)
    requires e <= |lines|
    ensures PriorityIs(lines, h, e, PriorityIn(lines, h, e))
  {
    if e > h + 1 && !lines[e - 1].says.PriorityLine? {
      PriorityTells(lines, h, e - 1);
    } else if e > h + 1 {
      assert lines[e - 1].says == PriorityLine(lines[e - 1].says.priority);
    }
  }

  predicate SaysSurface(line: Line) {
    line.says.SurfaceLine? && line.says.word in SURFACE_WORDS
  }

  ghost predicate SurfaceIs(lines: seq<Line>, h: nat, e: nat, surface: Option<Surface>)
    requires e <= |lines|
  {
    match surface
    case None => forall i :: h < i < e ==> !SaysSurface(lines[i])
    case Some(s) =>
      exists i :: h < i < e && SaysSurface(lines[i]) && SURFACE_WORDS[lines[i].says.word] == s &&
        forall j :: i < j < e ==> !SaysSurface(lines[j])
  }

  lemma {:induction false} SurfaceTells(lines: seq<Line>, h: nat, e: nat)
    requires e <= |lines|
    ensures SurfaceIs(lines, h, e, SurfaceIn(lines, h, e))
  {
    if e > h + 1 && !SaysSurface(lines[e - 1]) {
      SurfaceTells(lines, h, e - 1);
    } else if e > h + 1 {
      assert SaysSurface(lines[e - 1]);
    }
  }

  predicate SaysVersion(line: Line) {
    line.says.VersionLine? && |line.says.version| <= 32
  }

  /** The last version line that is short enough; an empty one takes the version back. */
  ghost predicate VersionIs(lines: seq<Line>, h: nat, e: nat, version: Option<string>)
    requires e <= |lines|
  {
    || (version.None? && forall i :: h < i < e ==> !SaysVersion(lines[i]))
    || exists i :: h < i < e && SaysVersion(lines[i]) && (forall j :: i < j < e ==> !SaysVersion(lines[j])) &&
         version == if lines[i].says.version == "" then None else Some(lines[i].says.version)
  }

  lemma {:induction false} VersionTells(lines: seq<Line>, h: nat, e: nat)
    requires e <= |lines|
    ensures VersionIs(lines, h, e, VersionIn(lines, h, e))
  {
    if e > h + 1 && !SaysVersion(lines[e - 1]) {
      VersionTells(lines, h, e - 1);
    } else if e > h + 1 {
      assert SaysVersion(lines[e - 1]);
    }
  }

  ghost predicate DomainLineIs(lines: seq<Line>, h: nat, e: nat, key: Option<Key>)
    requires e <= |lines|
  {
    match key
    case None => forall i :: h < i < e ==> !lines[i].says.DomainLine?
    case Some(k) =>
      exists i :: h < i < e && lines[i].says.DomainLine? && k == DomainKey(lines[i].says.number) &&
        forall j :: i < j < e ==> !lines[j].says.DomainLine?
  }

  lemma {:induction false} DomainLineTells(lines: seq<Line>, h: nat, e: nat)
    requires e <= |lines|
    ensures DomainLineIs(lines, h, e, DomainIn(lines, h, e))
  {
    if e > h + 1 && !lines[e - 1].says.DomainLine? {
      DomainLineTells(lines, h, e - 1);
    } else if e > h + 1 {
      assert lines[e - 1].says.DomainLine?;
    }
  }

  /** The last domain heading before the line. */
  ghost predicate DomainIs(lines: seq<Line>, i: nat, key: Option<Key>)
    requires i <= |lines|
  {
    match key
    case None => forall j :: 0 <= j < i ==> !lines[j].says.DomainHeading?
    case Some(k) =>
      exists j :: 0 <= j < i && lines[j].says.DomainHeading? && k == DomainKey(lines[j].says.number) &&
        forall m :: j < m < i ==> !lines[m].says.DomainHeading?
  }

  lemma {:induction false} DomainTells(lines: seq<Line>, i: nat)
    requires i <= |lines|
    ensures DomainIs(lines, i, DomainAt(lines, i))
  {
    if i > 0 && !lines[i - 1].says.DomainHeading? {
      DomainTells(lines, i - 1);
    } else if i > 0 {
      assert lines[i - 1].says.DomainHeading?;
    }
  }

  lemma DomainOnce(lines: seq<Line>, i: nat, a: Option<Key>, b: Option<Key>)
    requires i <= |lines| && DomainIs(lines, i, a) && DomainIs(lines, i, b)
    ensures a == b
  {
  }

  predicate SetsCapability(line: Line) {
    line.says.DomainHeading? || line.says.CapabilityHeading?
  }

  /** The last capability heading before the line, with no domain heading since. */
  ghost predicate CapabilityIs(lines: seq<Line>, i: nat, key: Option<Key>)
    requires i <= |lines|
  {
    || (key.None? && forall j :: 0 <= j < i ==> !SetsCapability(lines[j]))
    || exists j :: 0 <= j < i && SetsCapability(lines[j]) && (forall m :: j < m < i ==> !SetsCapability(lines[m])) &&
         key == if lines[j].says.DomainHeading? then None
                else Some(CapabilityKey(lines[j].says.domain, lines[j].says.number))
  }

  lemma {:induction false} CapabilityTells(lines: seq<Line>, i: nat)
    requires i <= |lines|
    ensures CapabilityIs(lines, i, CapabilityAt(lines, i))
  {
    if i > 0 && !SetsCapability(lines[i - 1]) {
      CapabilityTells(lines, i - 1);
    } else if i > 0 {
      assert SetsCapability(lines[i - 1]);
    }
  }

  /** The first project line before line `i`. */
  ghost predicate ProjectIs(lines: seq<Line>, i: nat, project: Option<string>)
    requires i <= |lines|
  {
    match project
    case None => forall j :: 0 <= j < i ==> !lines[j].says.ProjectLine?
    case Some(name) =>
      exists j ::
        0 <= j < i && lines[j].says == ProjectLine(name) && forall m :: 0 <= m < j ==> !lines[m].says.ProjectLine?
  }

  lemma {:induction false} ProjectTells(lines: seq<Line>, i: nat)
    requires i <= |lines|
    ensures ProjectIs(lines, i, ProjectAt(lines, i))
  {
    if i > 0 {
      ProjectTells(lines, i - 1);
      if ProjectAt(lines, i - 1).None? && lines[i - 1].says.ProjectLine? {
        assert lines[i - 1].says == ProjectLine(lines[i - 1].says.name);
      }
    }
  }

  lemma ProjectOnce(lines: seq<Line>, i: nat, a: Option<string>, b: Option<string>)
    requires i <= |lines| && ProjectIs(lines, i, a) && ProjectIs(lines, i, b)
    ensures a == b
  {
  }

  /** Where an epic belongs: what its domain line says, or else the capability it stands under, or else the domain. */
  ghost predicate ParentIs(lines: seq<Line>, h: nat, e: nat, parent: Option<Key>)
    requires h <= e <= |lines|
  {
    || (parent.Some? && DomainLineIs(lines, h, e, parent))
    || (DomainLineIs(lines, h, e, None) && parent.Some? && CapabilityIs(lines, h, parent))
    || (DomainLineIs(lines, h, e, None) && CapabilityIs(lines, h, None) && DomainIs(lines, h, parent))
  }

  /** All that is known of an epic from the lines of its section before `e`. */
  ghost predicate TellsEpic(lines: seq<Line>, h: nat, e: nat, item: ParsedItem)
    requires h < e <= |lines| && lines[h].says.EpicHeading?
  {
    && item.kind.EpicItem? && item.key == EpicKey(lines[h].says.code) && item.title == lines[h].says.title
    && item.line == h + 1
    && ParentIs(lines, h, e, item.parent)
    && PriorityIs(lines, h, e, item.priority) && SurfaceIs(lines, h, e, item.surface)
    && VersionIs(lines, h, e, item.targetVersion)
  }

  lemma EpicTells(lines: seq<Line>, h: nat, e: nat, closed: bool)
    requires h < e <= |lines| && lines[h].says.EpicHeading?
    ensures TellsEpic(lines, h, e, EpicFrom(lines, h, e, closed))
  {
    hide PriorityIn, SurfaceIn, VersionIn, DomainIn, CapabilityAt, DomainAt, Excerpt, Hashed;
    hide PriorityIs, SurfaceIs, VersionIs, DomainLineIs, CapabilityIs, DomainIs;
    PriorityTells(lines, h, e);
    SurfaceTells(lines, h, e);
    VersionTells(lines, h, e);
    DomainLineTells(lines, h, e);
    CapabilityTells(lines, h);
    DomainTells(lines, h);
  }

  /** Every epic of a document holds what its section says, to the next heading or the end. */
  lemma EpicsTell(lines: seq<Line>, item: ParsedItem)
    requires item.kind.EpicItem? && item in Items(lines)
    ensures exists h :: SectionOf(lines, h, item) && TellsEpic(lines, h, NextHeading(lines, h + 1), item)
  {
    hide Items, TellsEpic, EpicFrom;
    EpicsAreSections(lines, item);
    var h :| SectionOf(lines, h, item);
    EpicTells(lines, h, NextHeading(lines, h + 1), true);
  }

  // ------------------------------------------------------------------------------------------
  // Stories, domains and capabilities.

  /** Places in ascending order, none before `from`. */
  ghost predicate Ascending(cs: seq<nat>, from: nat) {
    && (forall k :: 0 <= k < |cs| ==> from <= cs[k])
    && forall k, m :: 0 <= k < m < |cs| ==> cs[k] < cs[m]
  }

  lemma AscendingMore(cs: seq<nat>, c: nat)
    requires Ascending(cs, c + 1)
    ensures Ascending(cs, c) && Ascending([c] + cs, c)
  {
  }

  lemma {:induction false} StoryLinesAscend(lines: seq<Line>, c: nat, index: nat)
    requires c <= |lines|
    ensures Ascending(StoryLines(lines, c, index), c)
    decreases |lines| - c
  {
    if c < |lines| && !IsHeading(lines[c].says) && (lines[c].says.Numbered? || lines[c].says.Blank? || index == 0) {
      var next := if lines[c].says.Numbered? then index + 1 else index;
      StoryLinesAscend(lines, c + 1, next);
      AscendingMore(StoryLines(lines, c + 1, next), c);
    }
  }

  /** The story of the k-th listed line, with what its epic has said so far. */
  ghost predicate TellsStory(lines: seq<Line>, block: nat, h: nat, c: nat, k: nat, item: ParsedItem)
    requires h < block < |lines| && lines[h].says.EpicHeading? && c < |lines| && lines[c].says.Numbered?
  {
    && item.kind.StoryItem? && item.key == StoryKey(lines[h].says.code, k + 1)
    && item.parent == Some(EpicKey(lines[h].says.code))
    && item.title == lines[c].says.sentence && item.hashed == lines[c].says.sentence
    && item.body.None? && item.line == c + 1
    && PriorityIs(lines, h, block, item.priority) && VersionIs(lines, h, block, item.targetVersion)
    && if lines[c].says.tag.Some? then item.surface == lines[c].says.tag else SurfaceIs(lines, h, block, item.surface)
  }

  /** A block under an epic files one story for each line it lists, in order; under no epic it files none. */
  lemma StoriesTell(lines: seq<Line>, block: nat)
    requires block < |lines| && lines[block].says.StoriesStart?
    ensures var h, cs, items := Owner(lines, block), StoryLines(lines, block + 1, 0), Contribution(lines, block);
            if h.None? then items == []
            else |items| == |cs| && forall k :: 0 <= k < |cs| ==> TellsStory(lines, block, h.value, cs[k], k, items[k])
  {
    hide StoryLines, TellsEpic;
    var h := Owner(lines, block);
    if h.Some? {
      EpicTells(lines, h.value, block, false);
      var epic, cs := EpicFrom(lines, h.value, block, false), StoryLines(lines, block + 1, 0);
      forall k | 0 <= k < |cs|
        ensures TellsStory(lines, block, h.value, cs[k], k, Contribution(lines, block)[k])
      {
        StoryFields(lines, block, h.value, epic, cs[k], k);
      }
    }
  }

  lemma StoryFields(lines: seq<Line>, block: nat, h: nat, epic: ParsedItem, c: nat, k: nat)
    requires h < block < |lines| && lines[h].says.EpicHeading? && TellsEpic(lines, h, block, epic)
    requires c < |lines| && lines[c].says.Numbered?
    ensures TellsStory(lines, block, h, c, k, Story(epic, lines[h].says.code, k + 1, lines[c], c + 1))
  {
    hide PriorityIs, SurfaceIs, VersionIs, ParentIs;
  }

  /** A domain or capability heading files its item when it is the first of its key, a capability under its domain. */
  lemma HeadingsTell(lines: seq<Line>, i: nat)
    requires i < |lines| && (lines[i].says.DomainHeading? || lines[i].says.CapabilityHeading?)
    ensures var key := HeadingKey(lines[i].says).value;
            var first := forall j :: 0 <= j < i ==> HeadingKey(lines[j].says) != Some(key);
            if !first then Contribution(lines, i) == []
            else
              && |Contribution(lines, i)| == 1
              && var item := Contribution(lines, i)[0];
              && item.key == key && item.title == lines[i].says.title && item.hashed == lines[i].says.title
              && item.line == i + 1 && item.body.None? && item.priority.None? && item.surface.None?
              && item.targetVersion.None?
              && (lines[i].says.DomainHeading? ==>
                    item.kind.DomainItem? && key == DomainKey(lines[i].says.number) && item.parent.None?)
              && (lines[i].says.CapabilityHeading? ==>
                    && item.kind.CapabilityItem?
                    && key == CapabilityKey(lines[i].says.domain, lines[i].says.number)
                    && item.parent == Some(DomainKey(lines[i].says.domain)))
  {
    var key := HeadingKey(lines[i].says).value;
    var f := FirstWith(lines, 0, key);
    assert Accepted(lines, i) <==> f == i;
  }

  // ------------------------------------------------------------------------------------------
  // Issues.

  ghost predicate ListsNothing(lines: seq<Line>, s: nat) {
    forall c: nat :: !Listed(lines, s, false, c)
  }

  /** Line i gives cause for this issue. */
  ghost predicate IsCause(lines: seq<Line>, i: nat, issue: Issue)
    requires i < |lines|
  {
    var says := lines[i].says;
    match issue
    case DuplicateKey(key, line, previous) =>
      line == i + 1 && HeadingKey(says) == Some(key) &&
      exists j :: 0 <= j < i && previous == j + 1 && HeadingKey(lines[j].says) == Some(key) &&
        forall m :: 0 <= m < j ==> HeadingKey(lines[m].says) != Some(key)
    case CapabilityElsewhere(key, line, under) =>
      && line == i + 1 && says.CapabilityHeading? && key == CapabilityKey(says.domain, says.number)
      && under != DomainKey(says.domain) && DomainIs(lines, i, Some(under))
    case TwoProjects(kept, dropped, line) =>
      line == i + 1 && says == ProjectLine(dropped) && kept != dropped && ProjectIs(lines, i, Some(kept))
    case UnknownSurface(key, line) =>
      line == i + 1 && says.SurfaceLine? && says.word !in SURFACE_WORDS && IsUnder(lines, i, key)
    case VersionTooLong(key, line) =>
      line == i + 1 && says.VersionLine? && |says.version| > 32 && IsUnder(lines, i, key)
    case EmptyStoryBlock(key, line) =>
      && line == i + 1 && says.StoriesStart? && IsUnder(lines, i, key)
      && ListsNothing(lines, i + 1)
    case NothingRecognised => false
    case MissingParent(_, _, _) => false
  }

  /** Line i stands in the section of this epic. */
  ghost predicate IsUnder(lines: seq<Line>, i: nat, key: Key)
    requires i < |lines|
  {
    exists h :: 0 <= h < i && lines[h].says.EpicHeading? && key == EpicKey(lines[h].says.code) &&
      forall j :: h < j < i ==> !IsHeading(lines[j].says)
  }

  lemma OwnerIs(lines: seq<Line>, i: nat, key: Key)
    requires i < |lines|
    ensures IsUnder(lines, i, key) <==> Owner(lines, i).Some? && key == EpicKey(lines[Owner(lines, i).value].says.code)
  {
    if IsUnder(lines, i, key) {
      var h :| 0 <= h < i && lines[h].says.EpicHeading? && key == EpicKey(lines[h].says.code) &&
        forall j :: h < j < i ==> !IsHeading(lines[j].says);
      assert IsHeading(lines[h].says);
      assert LastHeading(lines, i) == Some(h);
    }
  }

  lemma ListsNothingExactly(lines: seq<Line>, s: nat)
    requires s <= |lines|
    ensures ListsNothing(lines, s) <==> StoryLines(lines, s, 0) == []
  {
    hide Listed, StoryLines;
    forall c: nat {
      StoryLinesAreListed(lines, s, 0, c);
    }
    if StoryLines(lines, s, 0) != [] {
      assert StoryLines(lines, s, 0)[0] in StoryLines(lines, s, 0);
    }
  }

  lemma DuplicateCause(lines: seq<Line>, i: nat, issue: Issue)
    requires i < |lines| && HeadingKey(lines[i].says).Some?
    ensures issue in DuplicateAt(lines, i) <==> issue.DuplicateKey? && IsCause(lines, i, issue)
  {
    var key := HeadingKey(lines[i].says).value;
    var f := FirstWith(lines, 0, key);
    if issue in DuplicateAt(lines, i) {
      assert HeadingKey(lines[f].says) == Some(key);
    }
  }

  /** Line by line, the issues are those there is cause for. */
  lemma CauseTells(lines: seq<Line>, i: nat, issue: Issue)
    requires i < |lines|
    ensures issue in IssuesAt(lines, i) <==> IsCause(lines, i, issue)
  {
    hide DomainAt, ProjectAt, DomainIs, ProjectIs, IsUnder, Owner, FirstWith, DuplicateAt, ListsNothing, StoryLines;
    DomainTells(lines, i);
    ProjectTells(lines, i);
    ListsNothingExactly(lines, i + 1);
    match issue
    case DuplicateKey(key, _, _) =>
      if HeadingKey(lines[i].says).Some? {
        DuplicateCause(lines, i, issue);
      }
    case CapabilityElsewhere(_, _, under) =>
      if HeadingKey(lines[i].says).Some? {
        DuplicateCause(lines, i, issue);
      }
      if DomainIs(lines, i, Some(under)) {
        DomainOnce(lines, i, Some(under), DomainAt(lines, i));
      }
    case TwoProjects(kept, _, _) =>
      if HeadingKey(lines[i].says).Some? {
        DuplicateCause(lines, i, issue);
      }
      if ProjectIs(lines, i, Some(kept)) {
        ProjectOnce(lines, i, Some(kept), ProjectAt(lines, i));
      }
    case UnknownSurface(key, _) => OwnerIs(lines, i, key); OnlyDuplicates(lines, i, issue);
    case VersionTooLong(key, _) => OwnerIs(lines, i, key); OnlyDuplicates(lines, i, issue);
    case EmptyStoryBlock(key, _) => OwnerIs(lines, i, key); OnlyDuplicates(lines, i, issue);
    case NothingRecognised => OnlyDuplicates(lines, i, issue);
    case MissingParent(_, _, _) => OnlyDuplicates(lines, i, issue);
  }

  lemma OnlyDuplicates(lines: seq<Line>, i: nat, issue: Issue)
    requires i < |lines|
    ensures issue in DuplicateAt(lines, i) ==> issue.DuplicateKey?
  {
  }

  lemma {:induction false} CausesUpTo(lines: seq<Line>, n: nat, issue: Issue)
    requires n <= |lines|
    ensures issue in IssuesUpTo(lines, n) <==> exists i :: 0 <= i < n && IsCause(lines, i, issue)
  {
    hide IssuesAt, IsCause;
    if n > 0 {
      CausesUpTo(lines, n - 1, issue);
      CauseTells(lines, n - 1, issue);
      assert issue in IssuesUpTo(lines, n) <==> issue in IssuesUpTo(lines, n - 1) || issue in IssuesAt(lines, n - 1);
    }
  }

  lemma {:induction false} MissingExactly(items: seq<ParsedItem>, n: nat, known: set<Key>, issue: Issue)
    requires n <= |items|
    ensures issue in MissingParents(items, n, known) <==>
            exists i :: 0 <= i < n && items[i].parent.Some? && items[i].parent.value !in known &&
              issue == MissingParent(items[i].key, items[i].parent.value, items[i].line)
  {
    if n > 0 {
      MissingExactly(items, n - 1, known, issue);
    }
  }

  /** The key is an item's, or a domain line in the section of an epic names it. */
  ghost predicate IsKnown(lines: seq<Line>, key: Key) {
    || (exists i :: 0 <= i < |Items(lines)| && Items(lines)[i].key == key)
    || (exists i :: 0 <= i < |lines| && lines[i].says.DomainLine? && key == DomainKey(lines[i].says.number) &&
          Owner(lines, i).Some?)
  }

  lemma KnownExactly(lines: seq<Line>, key: Key)
    ensures key in KeysOf(Items(lines)) + DomainsNamed(lines, |lines|) <==> IsKnown(lines, key)
  {
    hide Items, Owner;
  }

  /** The issues of a document are exactly those there is cause for, in a line or in a parent nobody declares. */
  lemma IssuesExactly(lines: seq<Line>, issue: Issue)
    ensures issue in Issues(lines) <==>
            || (exists i :: 0 <= i < |lines| && IsCause(lines, i, issue))
            || (issue.NothingRecognised? && Items(lines) == [])
            || (issue.MissingParent? && !IsKnown(lines, issue.parent) &&
                exists i :: 0 <= i < |Items(lines)| && Items(lines)[i].parent == Some(issue.parent) &&
                  Items(lines)[i].key == issue.key && Items(lines)[i].line == issue.line)
  {
    hide Items, IssuesUpTo, IsCause, KeysOf, DomainsNamed, IsKnown, MissingParents;
    CausesUpTo(lines, |lines|, issue);
    var known := KeysOf(Items(lines)) + DomainsNamed(lines, |lines|);
    MissingExactly(Items(lines), |Items(lines)|, known, issue);
    forall key
      ensures key in known <==> IsKnown(lines, key)
    {
      KnownExactly(lines, key);
    }
  }
}
