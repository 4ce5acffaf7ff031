/**
 * The import of an execution manifest into the backlog: the stored rows, the import itself as a
 * loop over the manifest's items, and the function that loop computes.
 */
module Import {
  import opened Wrappers
  import opened Placement

  datatype Status = Triage | Todo | InProgress | Blocked | Review | Resolved | Closed

  datatype WorkType = Epic | Story | OtherType

  datatype WorkItem = WorkItem(
    reference: Option<string>,
    projectId: Option<string>,
    title: string,
    description: Option<string>,
    kind: WorkType,
    status: Status,
    priority: string,
    domainId: Option<string>,
    capabilityId: Option<string>,
    surface: Option<string>,
    releaseId: Option<string>,
    parentId: Option<int>,
    reporter: string,
    assignee: Option<string>,
    fromManifest: bool,
    sourceRefId: Option<string>,
    sourceKey: Option<string>,
    sourceAuthor: Option<string>,
    excerptHash: Option<string>,
    createdAt: int,
    updatedAt: int)

  /** The `work_items` table: rows by serial id, every id below `nextId`. */
  datatype Backlog = Backlog(rows: map<nat, WorkItem>, nextId: nat)

  /** Everything one import reads besides the backlog: manifest, registries and the version imported. */
  datatype Request = Request(
    items: seq<ManifestItem>,
    registry: Registry,
    referenceProject: Option<string>,
    documentProject: Option<string>,
    releases: map<string, string>,
    versionId: string,
    referenceVersions: set<string>,
    receivedFrom: string,
    actor: string,
    now: int)

  datatype Outcome = Added | Modified | Unchanged | Deprecated | Removed | Conflict | Skipped

  datatype Reason =
    | NoReason
    | NotPlaced(why: Refusal)
    | EpicNotImported(parentKey: Option<string>)
    | ChangedAfterAcceptance(status: Status)
    | NeverAccepted
    | AlreadyAccepted(status: Status)

  datatype Line = Line(sourceKey: string, outcome: Outcome, workItemId: Option<int>, reason: Reason)

  // ------------------------------------------------------------------------------------------
  // The project a document declares.

  /** A project of the registry; key, title and label are compared trimmed and in lower case. */
  datatype Project = Project(id: string, keyPrefix: Option<string>, title: string, archived: bool)

  predicate Answers(p: Project, needle: string) {
    !p.archived && (p.keyPrefix == Some(needle) || p.title == needle)
  }

  /** Exactly one active project, the i-th, answers to the name. */
  ghost predicate OnlyAnswer(projects: seq<Project>, needle: string, i: int) {
    && 0 <= i < |projects| && Answers(projects[i], needle)
    && forall j :: 0 <= j < |projects| && Answers(projects[j], needle) ==> j == i
  }

  datatype ProjectNote = NoNote | UnknownProject | SeveralProjects(count: nat)

  /** A name designates a project exactly when one active project, and only one, answers to it. */
  method ResolveDocumentProject(declared: Option<string>, projects: seq<Project>)
    returns (id: Option<string>, note: ProjectNote)
    ensures declared.None? || declared.value == "" ==> id.None? && note.NoNote?
    ensures declared.Some? && declared.value != "" ==>
      && (id.Some? <==> note.NoNote?)
      && (id.Some? <==> exists i :: OnlyAnswer(projects, declared.value, i))
      && (forall i :: OnlyAnswer(projects, declared.value, i) ==> id == Some(projects[i].id))
      && (note.UnknownProject? <==> forall j :: 0 <= j < |projects| ==> !Answers(projects[j], declared.value))
  {
    if declared.None? || declared.value == "" {
      return None, NoNote;
    }
    var matches: seq<int> := [];
    for k := 0 to |projects|
      invariant forall m :: 0 <= m < |matches| ==> 0 <= matches[m] < k && Answers(projects[matches[m]], declared.value)
      invariant forall m, n :: 0 <= m < n < |matches| ==> matches[m] < matches[n]
      invariant forall j :: 0 <= j < k && Answers(projects[j], declared.value) ==> j in matches
    {
      var p := projects[k];
      if !p.archived && (p.keyPrefix == declared || p.title == declared.value) {
        matches := matches + [k];
      }
    }
    if |matches| == 1 {
      assert OnlyAnswer(projects, declared.value, matches[0]);
      return Some(projects[matches[0]].id), NoNote;
    }
    if |matches| == 0 {
      return None, UnknownProject;
    }
    assert matches[0] < matches[1];
    return None, SeveralProjects(|matches|);
  }

  // ------------------------------------------------------------------------------------------
  // What the import asks the database and the manifest.

  predicate Importable(item: ManifestItem) {
    item.kind.EpicItem? || item.kind.StoryItem?
  }

  function OfKind(items: seq<ManifestItem>, kind: ItemKind): seq<ManifestItem> {
    if items == [] then []
    else (if items[0].kind == kind then [items[0]] else []) + OfKind(items[1..], kind)
  }

  /** The stable sort of the importable items: epics first, each group in manifest order. */
  function EpicsFirst(items: seq<ManifestItem>): seq<ManifestItem> {
    OfKind(items, EpicItem) + OfKind(items, StoryItem)
  }

  /** The manifest by key; of two items under one key the later wins, as in `new Map(pairs)`. */
  function ByKey(items: seq<ManifestItem>): (m: Manifest)
    ensures Keyed(m)
    ensures forall k :: k in m <==> exists i :: 0 <= i < |items| && items[i].sourceKey == k
    ensures forall k :: k in m ==> m[k] in items
  {
    if items == [] then map[]
    else
      var last := items[|items| - 1];
      ByKey(items[..|items| - 1])[last.sourceKey := last]
  }

  function DeclaredKeys(req: Request): set<string> {
    set i | 0 <= i < |req.items| && Importable(req.items[i]) :: req.items[i].sourceKey
  }

  /** The first 32 characters of a key: what the unique `reference` column can hold. */
  function Prefix(key: string): string {
    if |key| <= 32 then key else key[..32]
  }

  predicate Carries(row: WorkItem, key: string) {
    row.fromManifest && row.sourceKey == Some(key)
  }

  /** The row below `n` that carries a key, the latest when several do. */
  function LatestWith(rows: map<nat, WorkItem>, n: nat, key: string): (id: Option<nat>)
    ensures id.Some? ==> id.value < n && id.value in rows && Carries(rows[id.value], key)
    ensures id.None? ==> forall i: nat :: i < n && i in rows ==> !Carries(rows[i], key)
    ensures id.Some? ==> forall i: nat :: id.value < i < n && i in rows ==> !Carries(rows[i], key)
  {
    if n == 0 then None
    else if n - 1 in rows && Carries(rows[n - 1], key) then Some(n - 1)
    else LatestWith(rows, n - 1, key)
  }

  /** `existing.get(key)`: looked up once, before the first write. */
  function Existing(b: Backlog, req: Request, key: string): Option<nat> {
    if key in DeclaredKeys(req) then LatestWith(b.rows, b.nextId, key) else None
  }

  /** References somebody else already uses. */
  function Taken(b: Backlog, req: Request): set<string> {
    set id | id in b.rows && b.rows[id].reference.Some?
          && b.rows[id].reference.value in (set k | k in DeclaredKeys(req) :: Prefix(k))
          && Existing(b, req, b.rows[id].reference.value) != Some(id)
       :: b.rows[id].reference.value
  }

  /** Rows an earlier version of this reference produced and the manifest no longer mentions, by id. */
  function Withdrawn(rows: map<nat, WorkItem>, n: nat, req: Request): seq<nat> {
    if n == 0 then []
    else
      Withdrawn(rows, n - 1, req)
      + (if n - 1 in rows && Gone(rows[n - 1], req) then [n - 1] else [])
  }

  predicate Gone(row: WorkItem, req: Request) {
    && row.fromManifest
    && row.sourceRefId.Some? && row.sourceRefId.value in req.referenceVersions
    && row.sourceKey.Some? && row.sourceKey.value !in DeclaredKeys(req)
  }

  // ------------------------------------------------------------------------------------------
  // One step of the loop, as a function of the state it updates.

  /** `failed` stands for the constraint violation that aborts an import halfway. */
  datatype Run = Run(b: Backlog, epicIds: map<string, int>, lines: seq<Line>, failed: bool) {
    function Say(line: Line): Run {
      this.(lines := lines + [line])
    }

    /** Reports an item and, when it is an epic, lets its stories find it under `id`. */
    function Settle(item: ManifestItem, line: Line, id: int): Run {
      this.(lines := lines + [line],
            epicIds := if item.kind.EpicItem? then epicIds[item.sourceKey := id] else epicIds)
    }
  }

  /** The row an item is written as; `current` is the row it had before the import. */
  function Written(
    req: Request, taken: set<string>, item: ManifestItem, current: Option<WorkItem>,
    domainId: Option<string>, capabilityId: Option<string>, parentId: Option<int>): WorkItem
  {
    var minted := if Prefix(item.sourceKey) in taken then None else Some(Prefix(item.sourceKey));
    var was := if current.Some? then current.value
               else WorkItem(None, None, "", None, OtherType, Triage, "", None, None, None, None, None, "", None,
                             false, None, None, None, None, req.now, req.now);
    WorkItem(
      was.reference.Or(minted),
      was.projectId.Or(req.referenceProject).Or(req.documentProject),
      if |item.title| <= 200 then item.title else item.title[..200],
      item.body,
      if item.kind.EpicItem? then Epic else Story,
      Triage,
      if item.priority.Some? then item.priority.value else "P2",
      domainId,
      capabilityId,
      item.surface.Or(was.surface),
      was.releaseId.Or(TargetRelease(req, item)),
      parentId,
      req.actor,
      was.assignee,
      true,
      Some(req.versionId),
      Some(item.sourceKey),
      Some(req.receivedFrom),
      Some(item.excerptHash),
      was.createdAt,
      req.now)
  }

  function TargetRelease(req: Request, item: ManifestItem): Option<string> {
    if item.targetVersion.Some? && item.targetVersion.value in req.releases
    then Some(req.releases[item.targetVersion.value])
    else None
  }

  /** Another row already holds the reference this one asks for: the UNIQUE constraint refuses it. */
  predicate Clashes(rows: map<nat, WorkItem>, id: nat, row: WorkItem) {
    row.reference.Some? && exists other :: other in rows && other != id && rows[other].reference == row.reference
  }

  function Step(b0: Backlog, req: Request, dryRun: bool, s: Run, item: ManifestItem): Run {
    if s.failed then s
    else StepAs(b0, req, dryRun, s, item,
                Resolve(item, ByKey(req.items), req.registry), Existing(b0, req, item.sourceKey))
  }

  function StepAs(
    b0: Backlog, req: Request, dryRun: bool, s: Run, item: ManifestItem, placing: Placing, id: Option<nat>): Run
    requires id.Some? ==> id.value in b0.rows
  {
    match placing
    case Refused(why) => s.Say(Line(item.sourceKey, Skipped, None, NotPlaced(why)))
    case Placed(domainId, capabilityId) =>
      var parentId := if item.kind.StoryItem? && HasParent(item) && item.parentKey.value in s.epicIds
                      then Some(s.epicIds[item.parentKey.value]) else None;
      if item.kind.StoryItem? && parentId.None? then
        s.Say(Line(item.sourceKey, Skipped, None, EpicNotImported(item.parentKey)))
      else if id.Some? && b0.rows[id.value].excerptHash == Some(item.excerptHash) then
        s.Settle(item, Line(item.sourceKey, Unchanged, id, NoReason), id.value)
      else if id.Some? && b0.rows[id.value].status != Triage then
        s.Settle(item, Line(item.sourceKey, Conflict, id, ChangedAfterAcceptance(b0.rows[id.value].status)), id.value)
      else if dryRun then
        s.Settle(item, Line(item.sourceKey, if id.Some? then Modified else Added, id, NoReason),
                 if id.Some? then id.value else -1)
      else
        var current := if id.Some? then Some(b0.rows[id.value]) else None;
        var row := Written(req, Taken(b0, req), item, current, domainId, capabilityId, parentId);
        var target := if id.Some? then id.value else s.b.nextId;
        if Clashes(s.b.rows, target, row) then s.(failed := true)
        else
          s.(b := Backlog(s.b.rows[target := row], if id.Some? then s.b.nextId else s.b.nextId + 1))
           .Settle(item, Line(item.sourceKey, if id.Some? then Modified else Added, Some(target), NoReason), target)
  }

  /** The state after the first `n` items of the sorted list. */
  function After(b0: Backlog, req: Request, dryRun: bool, n: nat): Run
    requires n <= |EpicsFirst(req.items)|
  {
    if n == 0 then Run(b0, map[], [], false)
    else Step(b0, req, dryRun, After(b0, req, dryRun, n - 1), EpicsFirst(req.items)[n - 1])
  }

  function Processed(b0: Backlog, req: Request, dryRun: bool): Run {
    After(b0, req, dryRun, |EpicsFirst(req.items)|)
  }

  function GoneLine(rows: map<nat, WorkItem>, id: nat): Line
    requires id in rows && rows[id].sourceKey.Some?
  {
    var row := rows[id];
    if row.status == Triage then Line(row.sourceKey.value, Removed, Some(id), NeverAccepted)
    else Line(row.sourceKey.value, Deprecated, Some(id), AlreadyAccepted(row.status))
  }

  /** The report lines about withdrawn rows, in id order. */
  function GoneLines(rows: map<nat, WorkItem>, n: nat, req: Request): seq<Line> {
    if n == 0 then []
    else
      GoneLines(rows, n - 1, req)
      + (if n - 1 in rows && Gone(rows[n - 1], req) then [GoneLine(rows, n - 1)] else [])
  }

  function CountOf(lines: seq<Line>, o: Outcome): nat {
    if lines == [] then 0
    else CountOf(lines[..|lines| - 1], o) + (if lines[|lines| - 1].outcome == o then 1 else 0)
  }

  datatype Report = Report(dryRun: bool, counts: map<Outcome, nat>, items: seq<Line>)

  predicate Tallies(counts: map<Outcome, nat>, lines: seq<Line>) {
    && counts.Keys == {Added, Modified, Unchanged, Deprecated, Removed, Conflict, Skipped}
    && forall o :: o in counts ==> counts[o] == CountOf(lines, o)
  }

  lemma CountOfSnoc(lines: seq<Line>, line: Line, o: Outcome)
    ensures CountOf(lines + [line], o) == CountOf(lines, o) + (if line.outcome == o then 1 else 0)
  {
    assert (lines + [line])[..|lines|] == lines;
  }

  /** The service over its stored rows. */
  class ExecutionImport {
    var rows: map<nat, WorkItem>
    var nextId: nat

    function Stored(): Backlog
      reads this
    {
      Backlog(rows, nextId)
    }

    constructor ()
      ensures Stored() == Backlog(map[], 0)
    {
      rows := map[];
      nextId := 0;
    }

    /**
     * Saves a row under an id, or refuses it when its reference is somebody else's.
     */
    method Save(id: nat, row: WorkItem) returns (ok: bool)
      modifies this
      ensures ok == !Clashes(old(rows), id, row)
      ensures rows == if ok then old(rows)[id := row] else old(rows)
      ensures nextId == if ok && id == old(nextId) then old(nextId) + 1 else old(nextId)
    {
      ok := !Clashes(rows, id, row);
      if ok {
        rows := rows[id := row];
        if id == nextId {
          nextId := nextId + 1;
        }
      }
    }

    /** The body of the loop: one item of the sorted list, against what was read before the loop. */
    method ImportItem(
      b0: Backlog, req: Request, dryRun: bool, item: ManifestItem,
      manifestByKey: Manifest, taken: set<string>, epicIds: map<string, int>, ghost lines: seq<Line>)
      returns (ok: bool, line: Line, epicIds': map<string, int>)
      requires manifestByKey == ByKey(req.items) && taken == Taken(b0, req)
      requires b0.nextId <= nextId
      modifies this
      ensures Step(b0, req, dryRun, Run(old(Stored()), epicIds, lines, false), item)
           == if ok then Run(Stored(), epicIds', lines + [line], false)
              else Run(Stored(), epicIds, lines, true)
      ensures b0.nextId <= nextId
    {
      ok, epicIds' := true, epicIds;
      line := Line(item.sourceKey, Skipped, None, NoReason);
      var placement := ResolvePlacement(item, manifestByKey, req.registry);
      if placement.Refused? {
        line := line.(reason := NotPlaced(placement.why));
        return;
      }

      var parentId := None;
      if item.kind.StoryItem? && HasParent(item) && item.parentKey.value in epicIds {
        parentId := Some(epicIds[item.parentKey.value]);
      }
      if item.kind.StoryItem? && parentId.None? {
        line := line.(reason := EpicNotImported(item.parentKey));
        return;
      }

      var current := Existing(b0, req, item.sourceKey);
      var settledId: int;
      if current.Some? && b0.rows[current.value].excerptHash == Some(item.excerptHash) {
        line := Line(item.sourceKey, Unchanged, current, NoReason);
        settledId := current.value;
      } else if current.Some? && b0.rows[current.value].status != Triage {
        line := Line(item.sourceKey, Conflict, current, ChangedAfterAcceptance(b0.rows[current.value].status));
        settledId := current.value;
      } else if dryRun {
        line := Line(item.sourceKey, if current.Some? then Modified else Added, current, NoReason);
        settledId := if current.Some? then current.value else -1;
      } else {
        var target := if current.Some? then current.value else nextId;
        var row := Written(req, taken, item, if current.Some? then Some(b0.rows[current.value]) else None,
                           placement.domainId, placement.capabilityId, parentId);
        ok := Save(target, row);
        if !ok {
          return;
        }
        line := Line(item.sourceKey, if current.Some? then Modified else Added, Some(target), NoReason);
        settledId := target;
      }
      if item.kind.EpicItem? {
        epicIds' := epicIds[item.sourceKey := settledId];
      }
    }

    /** The loop over the sorted items. `ok` is false when a constraint violation aborted it. */
    method ImportItems(req: Request, dryRun: bool) returns (ok: bool, counts: map<Outcome, nat>, lines: seq<Line>)
      modifies this
      ensures var p := Processed(old(Stored()), req, dryRun);
        Stored() == p.b && ok == !p.failed && (ok ==> lines == p.lines)
      ensures Tallies(counts, lines)
    {
      var b0 := Stored();
      var manifestByKey := ByKey(req.items);
      var taken := Taken(b0, req);
      var epicWorkItemId: map<string, int> := map[];
      counts, lines := NoCounts(), [];
      ok := true;

      var sorted := EpicsFirst(req.items);
      for i := 0 to |sorted|
        invariant ok && After(b0, req, dryRun, i) == Run(Stored(), epicWorkItemId, lines, false)
        invariant Tallies(counts, lines)
        invariant b0.nextId <= nextId
      {
        var line;
        ok, line, epicWorkItemId :=
          ImportItem(b0, req, dryRun, sorted[i], manifestByKey, taken, epicWorkItemId, lines);
        assert After(b0, req, dryRun, i + 1) == Step(b0, req, dryRun, After(b0, req, dryRun, i), sorted[i]);
        if !ok {
          FailedStays(b0, req, dryRun, i + 1, |sorted|);
          return;
        }
        counts, lines := Tally(counts, lines, line);
      }
    }

    /** `ok` is false when a constraint violation aborted the import: there is then no report. */
    method Import(req: Request, dryRun: bool) returns (ok: bool, report: Report)
      modifies this
      ensures var p := Processed(old(Stored()), req, dryRun);
        && Stored() == p.b
        && ok == !p.failed
        && report.dryRun == dryRun
        && (ok ==> report.items == p.lines + GoneLines(p.b.rows, p.b.nextId, req))
        && Tallies(report.counts, report.items)
    {
      var counts, lines;
      ok, counts, lines := ImportItems(req, dryRun);
      if ok {
        ghost var imported := lines;
        for id := 0 to nextId
          modifies {}
          invariant Tallies(counts, lines)
          invariant lines == imported + GoneLines(rows, id, req)
        {
          if id in rows && Gone(rows[id], req) {
            counts, lines := Tally(counts, lines, GoneLine(rows, id));
          }
        }
      }
      report := Report(dryRun, counts, lines);
    }
  }

  function NoCounts(): (counts: map<Outcome, nat>)
    ensures Tallies(counts, [])
  {
    map[Added := 0, Modified := 0, Unchanged := 0, Deprecated := 0, Removed := 0, Conflict := 0, Skipped := 0]
  }

  method Tally(counts: map<Outcome, nat>, lines: seq<Line>, line: Line)
    returns (counts': map<Outcome, nat>, lines': seq<Line>)
    requires Tallies(counts, lines)
    ensures Tallies(counts', lines') && lines' == lines + [line]
  {
    CountsStep(counts, lines, line);
    counts' := counts[line.outcome := counts[line.outcome] + 1];
    lines' := lines + [line];
  }

  lemma CountsStep(counts: map<Outcome, nat>, lines: seq<Line>, line: Line)
    requires Tallies(counts, lines)
    ensures line.outcome in counts
    ensures Tallies(counts[line.outcome := counts[line.outcome] + 1], lines + [line])
  {
    forall o | o in counts {
      CountOfSnoc(lines, line, o);
    }
  }

  lemma {:induction false} FailedStays(b0: Backlog, req: Request, dryRun: bool, m: nat, n: nat)
    requires m <= n <= |EpicsFirst(req.items)|
    requires After(b0, req, dryRun, m).failed
    ensures After(b0, req, dryRun, n) == After(b0, req, dryRun, m)
  {
    if m < n {
      FailedStays(b0, req, dryRun, m, n - 1);
    }
  }
}
