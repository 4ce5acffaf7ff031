/**
 * An execution reference as classified lines, and what it declares: a segmentation told line by
 * line, without any state.
 */
module ParserModel {
  import opened Wrappers

  datatype Surface = Backend | Frontend | Fullstack

  /** `D06`, `D06.C03`, `EXE-05`, `US-EXE-05-1`: the numbers inside, so that `D6` and `D06` are one key. */
  datatype Key =
    | DomainKey(number: nat)
    | CapabilityKey(domain: nat, number: nat)
    | EpicKey(code: string)
    | StoryKey(epic: string, index: nat)

  /** What the parser's regular expressions make of one line; no line matches two of them. */
  datatype Reading =
    | DomainHeading(number: nat, title: string)
    | CapabilityHeading(domain: nat, number: nat, title: string)
    | EpicHeading(code: string, title: string)
    | OtherHeading
    | PriorityLine(priority: string)
    | ProjectLine(name: string)
    | SurfaceLine(word: string)
    | VersionLine(version: string)
    | DomainLine(number: nat)
    | StoriesStart
    | Numbered(sentence: string, tag: Option<Surface>)
    | Blank
    | Prose

  datatype Line = Line(text: string, says: Reading)

  datatype Kind = DomainItem | CapabilityItem | EpicItem | StoryItem

  /** `hashed` is the text whose SHA-256 the source stores; empty while a section is still open. */
  datatype ParsedItem = ParsedItem(
    kind: Kind,
    key: Key,
    parent: Option<Key>,
    title: string,
    body: Option<string>,
    priority: Option<string>,
    surface: Option<Surface>,
    targetVersion: Option<string>,
    hashed: string,
    line: nat)

  datatype Issue =
    | DuplicateKey(key: Key, line: nat, previous: int)
    | CapabilityElsewhere(key: Key, line: nat, under: Key)
    | TwoProjects(kept: string, dropped: string, line: nat)
    | UnknownSurface(key: Key, line: nat)
    | VersionTooLong(key: Key, line: nat)
    | EmptyStoryBlock(key: Key, line: nat)
    | NothingRecognised
    | MissingParent(key: Key, parent: Key, line: nat)

  const TARGET_VERSION_MAX := 32

  /** What people write for a side. */
  const SURFACE_WORDS: map<string, Surface> := map[
    "backend" := Backend, "back" := Backend, "api" := Backend, "serveur" := Backend,
    "frontend" := Frontend, "front" := Frontend, "ui" := Frontend, "interface" := Frontend,
    "fullstack" := Fullstack, "full" := Fullstack, "les deux" := Fullstack, "deux" := Fullstack, "both" := Fullstack]

  function ReadSurface(word: string): Option<Surface> {
    if word in SURFACE_WORDS then Some(SURFACE_WORDS[word]) else None
  }

  // ------------------------------------------------------------------------------------------
  // Text.

  function Joined(lines: seq<Line>): string {
    if lines == [] then ""
    else if |lines| == 1 then lines[0].text
    else lines[0].text + "\n" + Joined(lines[1..])
  }

  predicate Space(c: char) {
    c in {' ', '\t', '\n', '\r'}
  }

  function TrimStart(s: string): string {
    if s != "" && Space(s[0]) then TrimStart(s[1..]) else s
  }

  function TrimEnd(s: string): string {
    if s != "" && Space(s[|s| - 1]) then TrimEnd(s[..|s| - 1]) else s
  }

  /** The prose of a section, verbatim; nothing when it is blank. */
  function Excerpt(lines: seq<Line>): Option<string> {
    var raw := TrimEnd(TrimStart(Joined(lines)));
    if raw == "" then None else Some(raw)
  }

  function Hashed(title: string, body: Option<string>): string {
    title + "\n" + if body.Some? then body.value else ""
  }

  // ------------------------------------------------------------------------------------------
  // Where a line stands.

  predicate IsHeading(r: Reading) {
    r.DomainHeading? || r.CapabilityHeading? || r.EpicHeading? || r.OtherHeading?
  }

  function NextHeading(lines: seq<Line>, i: nat): (j: nat)
    requires i <= |lines|
    ensures i <= j <= |lines|
    ensures j < |lines| ==> IsHeading(lines[j].says)
    ensures forall k :: i <= k < j ==> !IsHeading(lines[k].says)
    decreases |lines| - i
  {
    if i == |lines| || IsHeading(lines[i].says) then i else NextHeading(lines, i + 1)
  }

  /** The last heading before line `i`. */
  function LastHeading(lines: seq<Line>, i: nat): (h: Option<nat>)
    requires i <= |lines|
    ensures h.Some? ==> h.value < i && IsHeading(lines[h.value].says)
    ensures forall k :: (if h.Some? then h.value < k else 0 <= k) && k < i ==> !IsHeading(lines[k].says)
  {
    if i == 0 then None
    else if IsHeading(lines[i - 1].says) then Some(i - 1)
    else LastHeading(lines, i - 1)
  }

  /** The epic whose section line `i` is in. */
  function Owner(lines: seq<Line>, i: nat): (h: Option<nat>)
    requires i <= |lines|
    ensures h.Some? ==> h.value < i && lines[h.value].says.EpicHeading?
    ensures h.Some? ==> forall k :: h.value < k < i ==> !IsHeading(lines[k].says)
  {
    var h := LastHeading(lines, i);
    if h.Some? && lines[h.value].says.EpicHeading? then h else None
  }

  /** The domain declared last before line `i`. */
  function DomainAt(lines: seq<Line>, i: nat): Option<Key>
    requires i <= |lines|
  {
    if i == 0 then None
    else if lines[i - 1].says.DomainHeading? then Some(DomainKey(lines[i - 1].says.number))
    else DomainAt(lines, i - 1)
  }

  /** The capability declared last before line `i`, unless a domain came since. */
  function CapabilityAt(lines: seq<Line>, i: nat): Option<Key>
    requires i <= |lines|
  {
    if i == 0 || lines[i - 1].says.DomainHeading? then None
    else if lines[i - 1].says.CapabilityHeading? then
      Some(CapabilityKey(lines[i - 1].says.domain, lines[i - 1].says.number))
    else CapabilityAt(lines, i - 1)
  }

  function ProjectAt(lines: seq<Line>, i: nat): Option<string>
    requires i <= |lines|
  {
    if i == 0 then None
    else ProjectAt(lines, i - 1).Or(
           if lines[i - 1].says.ProjectLine? then Some(lines[i - 1].says.name) else None)
  }

  // ------------------------------------------------------------------------------------------
  // What the lines of a section say, the last one winning.

  function PriorityIn(lines: seq<Line>, h: nat, e: nat): Option<string>
    requires e <= |lines|
  {
    if e <= h + 1 then None
    else if lines[e - 1].says.PriorityLine? then Some(lines[e - 1].says.priority)
    else PriorityIn(lines, h, e - 1)
  }

  function SurfaceIn(lines: seq<Line>, h: nat, e: nat): Option<Surface>
    requires e <= |lines|
  {
    if e <= h + 1 then None
    else if lines[e - 1].says.SurfaceLine? && ReadSurface(lines[e - 1].says.word).Some? then
      ReadSurface(lines[e - 1].says.word)
    else SurfaceIn(lines, h, e - 1)
  }

  function VersionIn(lines: seq<Line>, h: nat, e: nat): Option<string>
    requires e <= |lines|
  {
    if e <= h + 1 then None
    else if lines[e - 1].says.VersionLine? && |lines[e - 1].says.version| <= TARGET_VERSION_MAX then
      if lines[e - 1].says.version == "" then None else Some(lines[e - 1].says.version)
    else VersionIn(lines, h, e - 1)
  }

  function DomainIn(lines: seq<Line>, h: nat, e: nat): Option<Key>
    requires e <= |lines|
  {
    if e <= h + 1 then None
    else if lines[e - 1].says.DomainLine? then Some(DomainKey(lines[e - 1].says.number))
    else DomainIn(lines, h, e - 1)
  }

  // ------------------------------------------------------------------------------------------
  // Keys.

  function HeadingKey(r: Reading): Option<Key> {
    match r
    case DomainHeading(n, _) => Some(DomainKey(n))
    case CapabilityHeading(d, n, _) => Some(CapabilityKey(d, n))
    case EpicHeading(code, _) => Some(EpicKey(code))
    case _ => None
  }

  /** The first line, from `i` on, whose heading declares a key. */
  function FirstWith(lines: seq<Line>, i: nat, key: Key): (j: nat)
    requires i <= |lines|
    ensures i <= j <= |lines|
    ensures j < |lines| ==> HeadingKey(lines[j].says) == Some(key)
    ensures forall k :: i <= k < j ==> HeadingKey(lines[k].says) != Some(key)
    decreases |lines| - i
  {
    if i == |lines| || HeadingKey(lines[i].says) == Some(key) then i else FirstWith(lines, i + 1, key)
  }

  /** A heading is accepted when it is the first to declare its key. */
  predicate Accepted(lines: seq<Line>, i: nat)
    requires i < |lines|
  {
    HeadingKey(lines[i].says).Some? && FirstWith(lines, 0, HeadingKey(lines[i].says).value) == i
  }

  // ------------------------------------------------------------------------------------------
  // Items.

  /** The epic declared at `h`, from the lines of its section before `e`. */
  function EpicFrom(lines: seq<Line>, h: nat, e: nat, closed: bool): ParsedItem
    requires h < e <= |lines| && lines[h].says.EpicHeading?
  {
    var title := lines[h].says.title;
    var body := if closed then Excerpt(lines[h + 1..e]) else None;
    ParsedItem(
      EpicItem, EpicKey(lines[h].says.code),
      DomainIn(lines, h, e).Or(CapabilityAt(lines, h).Or(DomainAt(lines, h))),
      title, body, PriorityIn(lines, h, e), SurfaceIn(lines, h, e), VersionIn(lines, h, e),
      if closed then Hashed(title, body) else "", h + 1)
  }

  /** The list items of a story block, from line `c` on; `index` of them are already found. */
  function StoryLines(lines: seq<Line>, c: nat, index: nat): (cs: seq<nat>)
    requires c <= |lines|
    ensures forall k :: 0 <= k < |cs| ==> c <= cs[k] < |lines| && lines[cs[k]].says.Numbered?
    decreases |lines| - c
  {
    if c == |lines| || IsHeading(lines[c].says) then []
    else if lines[c].says.Numbered? then [c] + StoryLines(lines, c + 1, index + 1)
    else if !lines[c].says.Blank? && index > 0 then []
    else StoryLines(lines, c + 1, index)
  }

  function Story(epic: ParsedItem, code: string, index: nat, line: Line, lineNumber: nat): ParsedItem
    requires line.says.Numbered?
  {
    ParsedItem(StoryItem, StoryKey(code, index), Some(epic.key), line.says.sentence, None, epic.priority,
               line.says.tag.Or(epic.surface), epic.targetVersion, line.says.sentence, lineNumber)
  }

  function Stories(lines: seq<Line>, epic: ParsedItem, code: string, cs: seq<nat>): (items: seq<ParsedItem>)
    requires forall k :: 0 <= k < |cs| ==> cs[k] < |lines| && lines[cs[k]].says.Numbered?
    ensures |items| == |cs|
  {
    seq(|cs|, k requires 0 <= k < |cs| => Story(epic, code, k + 1, lines[cs[k]], cs[k] + 1))
  }

  /** What line `i` contributes to the items, once the lines before `n` are read. */
  function ItemsAt(lines: seq<Line>, i: nat, n: nat): seq<ParsedItem>
    requires i < |lines| && i < n <= |lines| + 1
  {
    match lines[i].says
    case DomainHeading(number, title) =>
      if Accepted(lines, i) then
        [ParsedItem(DomainItem, DomainKey(number), None, title, None, None, None, None, title, i + 1)]
      else []
    case CapabilityHeading(domain, number, title) =>
      if Accepted(lines, i) then
        [ParsedItem(CapabilityItem, CapabilityKey(domain, number), Some(DomainKey(domain)), title,
                    None, None, None, None, title, i + 1)]
      else []
    case EpicHeading(_, _) =>
      if !Accepted(lines, i) then []
      else if NextHeading(lines, i + 1) < n then [EpicFrom(lines, i, NextHeading(lines, i + 1), true)]
      else [EpicFrom(lines, i, n, false)]
    case StoriesStart =>
      var h := Owner(lines, i);
      if h.None? then []
      else Stories(lines, EpicFrom(lines, h.value, i, false), lines[h.value].says.code, StoryLines(lines, i + 1, 0))
    case _ => []
  }

  function Flatten<T>(parts: seq<seq<T>>): seq<T> {
    if parts == [] then [] else Flatten(parts[..|parts| - 1]) + parts[|parts| - 1]
  }

  /** The contributions of the first `k` lines, once the lines before `n` are read. */
  function Parts(lines: seq<Line>, k: nat, n: nat): seq<seq<ParsedItem>>
    requires k <= |lines| && k <= n <= |lines| + 1
  {
    seq(k, i requires 0 <= i < k => ItemsAt(lines, i, n))
  }

  function ItemsUpTo(lines: seq<Line>, k: nat, n: nat): seq<ParsedItem>
    requires k <= |lines| && k <= n <= |lines| + 1
  {
    Flatten(Parts(lines, k, n))
  }

  /** Every item of the document, sections closed. */
  function Items(lines: seq<Line>): seq<ParsedItem> {
    ItemsUpTo(lines, |lines|, |lines| + 1)
  }

  // ------------------------------------------------------------------------------------------
  // Issues.

  function DuplicateAt(lines: seq<Line>, i: nat): seq<Issue>
    requires i < |lines|
  {
    var key := HeadingKey(lines[i].says);
    if key.None? || Accepted(lines, i) then []
    else [DuplicateKey(key.value, i + 1, FirstWith(lines, 0, key.value) + 1)]
  }

  function IssuesAt(lines: seq<Line>, i: nat): seq<Issue>
    requires i < |lines|
  {
    var h := Owner(lines, i);
    match lines[i].says
    case DomainHeading(_, _) => DuplicateAt(lines, i)
    case CapabilityHeading(domain, number, _) =>
      (if DomainAt(lines, i).Some? && DomainAt(lines, i).value != DomainKey(domain) then
         [CapabilityElsewhere(CapabilityKey(domain, number), i + 1, DomainAt(lines, i).value)]
       else [])
      + DuplicateAt(lines, i)
    case EpicHeading(_, _) => DuplicateAt(lines, i)
    case ProjectLine(name) =>
      if ProjectAt(lines, i).Some? && ProjectAt(lines, i).value != name then
        [TwoProjects(ProjectAt(lines, i).value, name, i + 1)]
      else []
    case SurfaceLine(word) =>
      if h.Some? && ReadSurface(word).None? then [UnknownSurface(EpicKey(lines[h.value].says.code), i + 1)] else []
    case VersionLine(version) =>
      if h.Some? && |version| > TARGET_VERSION_MAX then
        [VersionTooLong(EpicKey(lines[h.value].says.code), i + 1)]
      else []
    case StoriesStart =>
      if h.Some? && StoryLines(lines, i + 1, 0) == [] then
        [EmptyStoryBlock(EpicKey(lines[h.value].says.code), i + 1)]
      else []
    case _ => []
  }

  function IssuesUpTo(lines: seq<Line>, n: nat): seq<Issue>
    requires n <= |lines|
  {
    if n == 0 then [] else IssuesUpTo(lines, n - 1) + IssuesAt(lines, n - 1)
  }

  /** Domains a « Domaine : » line of an epic names: they live in the registry, not in the document. */
  function DomainsNamed(lines: seq<Line>, n: nat): set<Key>
    requires n <= |lines|
  {
    set i | 0 <= i < n && lines[i].says.DomainLine? && Owner(lines, i).Some? :: DomainKey(lines[i].says.number)
  }

  function KeysOf(items: seq<ParsedItem>): set<Key> {
    set i | 0 <= i < |items| :: items[i].key
  }

  function MissingParents(items: seq<ParsedItem>, k: nat, known: set<Key>): seq<Issue>
    requires k <= |items|
  {
    if k == 0 then []
    else
      MissingParents(items, k - 1, known)
      + (if items[k - 1].parent.Some? && items[k - 1].parent.value !in known then
           [MissingParent(items[k - 1].key, items[k - 1].parent.value, items[k - 1].line)]
         else [])
  }

  function Issues(lines: seq<Line>): seq<Issue> {
    var items := Items(lines);
    IssuesUpTo(lines, |lines|)
    + (if items == [] then [NothingRecognised] else [])
    + MissingParents(items, |items|, KeysOf(items) + DomainsNamed(lines, |lines|))
  }
}
