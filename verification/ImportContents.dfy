/** What an import writes, told field by field on the rows it leaves. */
module ImportContents {
  import opened Wrappers
  import opened Placement
  import opened Import
  import opened ImportProofs
  import opened ImportConvergence

  /** What a written row takes from the item and the request. */
  ghost predicate TellsItem(row: WorkItem, item: ManifestItem, req: Request) {
    && row.title <= item.title && |row.title| == (if |item.title| <= 200 then |item.title| else 200)
    && row.description == item.body
    && (row.kind == Epic <==> item.kind.EpicItem?) && (row.kind == Story <==> !item.kind.EpicItem?)
    && row.status == Triage
    && (if item.priority.Some? then item.priority == Some(row.priority) else row.priority == "P2")
    && Resolve(item, ByKey(req.items), req.registry) == Placed(row.domainId, row.capabilityId)
    && row.reporter == req.actor && row.updatedAt == req.now
    && row.fromManifest && row.sourceKey == Some(item.sourceKey) && row.excerptHash == Some(item.excerptHash)
    && row.sourceRefId == Some(req.versionId) && row.sourceAuthor == Some(req.receivedFrom)
  }

  /** The version an item aims at, where the registry of versions has it. */
  ghost predicate IsAimedAt(release: Option<string>, item: ManifestItem, req: Request) {
    match release
    case Some(id) => item.targetVersion.Some? && item.targetVersion.value in req.releases
                     && req.releases[item.targetVersion.value] == id
    case None => item.targetVersion.None? || item.targetVersion.value !in req.releases
  }

  /** What a written row keeps of the row it had, if any, and where the rest comes from. */
  ghost predicate TellsBefore(row: WorkItem, before: Option<WorkItem>, item: ManifestItem, req: Request) {
    && row.projectId == (if before.Some? && before.value.projectId.Some? then before.value.projectId
                         else if req.referenceProject.Some? then req.referenceProject
                         else req.documentProject)
    && row.surface == (if item.surface.Some? then item.surface
                       else if before.Some? then before.value.surface
                       else None)
    && row.assignee == (if before.Some? then before.value.assignee else None)
    && (if before.Some? && before.value.releaseId.Some? then row.releaseId == before.value.releaseId
        else IsAimedAt(row.releaseId, item, req))
    && row.createdAt == (if before.Some? then before.value.createdAt else req.now)
  }

  /** Somebody else has it: a row that holds the reference and is not the one that the reference itself designates. */
  ghost predicate IsTaken(b0: Backlog, req: Request, r: string) {
    exists other :: other in b0.rows && b0.rows[other].reference == Some(r) &&
      !(r in DeclaredKeys(req) && Latest(b0, r) == Some(other))
  }

  /** The reference of a row: the one it had, or the first 32 characters of the key unless somebody else has them. */
  ghost predicate TellsReference(row: WorkItem, before: Option<WorkItem>, b0: Backlog, req: Request,
      item: ManifestItem) {
    var r := item.sourceKey[..if |item.sourceKey| < 32 then |item.sourceKey| else 32];
    if before.Some? && before.value.reference.Some? then row.reference == before.value.reference
    else row.reference == if IsTaken(b0, req, r) then None else Some(r)
  }

  function RowBefore(b0: Backlog, key: string): Option<WorkItem> {
    var id := Latest(b0, key);
    if id.Some? then Some(b0.rows[id.value]) else None
  }

  lemma ByKeyStep(items: seq<ManifestItem>)
    requires items != []
    ensures var n := |items| - 1;
            ByKey(items) == ByKey(items[..n])[items[n].sourceKey := items[n]]
  {
  }

  /** Of two items under one key the manifest holds the later one. */
  lemma {:induction false} ManifestHoldsLast(items: seq<ManifestItem>, i: nat)
    requires i < |items| && forall j :: i < j < |items| ==> items[j].sourceKey != items[i].sourceKey
    ensures items[i].sourceKey in ByKey(items) && ByKey(items)[items[i].sourceKey] == items[i]
  {
    hide ByKey;
    var n := |items| - 1;
    ByKeyStep(items);
    if i < n {
      ManifestHoldsLast(items[..n], i);
    }
  }

  lemma TakenExactly(b0: Backlog, req: Request, key: string)
    requires key in DeclaredKeys(req)
    ensures Prefix(key) in Taken(b0, req) <==> IsTaken(b0, req, Prefix(key))
  {
    hide LatestWith;
    assert Prefix(key) in (set k | k in DeclaredKeys(req) :: Prefix(k));
  }

  lemma WrittenReference(b0: Backlog, req: Request, item: ManifestItem, before: Option<WorkItem>, row: WorkItem)
    requires row == Written(req, Taken(b0, req), item, before, row.domainId, row.capabilityId, row.parentId)
    requires item.sourceKey in DeclaredKeys(req)
    ensures TellsReference(row, before, b0, req, item)
  {
    hide Taken, IsTaken, TargetRelease;
    TakenExactly(b0, req, item.sourceKey);
    var key := item.sourceKey;
    assert key[..|key|] == key;
    assert Prefix(key) == key[..if |key| < 32 then |key| else 32];
  }

  lemma WrittenTells(req: Request, taken: set<string>, item: ManifestItem, before: Option<WorkItem>, row: WorkItem)
    requires row == Written(req, taken, item, before, row.domainId, row.capabilityId, row.parentId)
    requires StandsFor(req, item, row)
    ensures TellsItem(row, item, req) && TellsBefore(row, before, item, req)
  {
    hide ByKey, Resolve, Prefix;
  }

  lemma ByItemTells(b0: Backlog, req: Request, item: ManifestItem, id: nat, row: WorkItem)
    requires ByItem(b0, req, item, id, row) && item.sourceKey in DeclaredKeys(req)
    ensures Tells(row, RowBefore(b0, item.sourceKey), b0, req, item)
  {
    hide Taken, Written, LatestWith, StandsFor, TellsItem, TellsBefore, TellsReference;
    WrittenTells(req, Taken(b0, req), item, RowBefore(b0, item.sourceKey), row);
    WrittenReference(b0, req, item, RowBefore(b0, item.sourceKey), row);
    EpicHangsOffNothing(req, item, row);
  }

  lemma EpicHangsOffNothing(req: Request, item: ManifestItem, row: WorkItem)
    requires StandsFor(req, item, row)
    ensures !item.kind.StoryItem? ==> row.parentId == None
  {
    hide Resolve, ByKey;
  }

  /** All fields of a written row. */
  ghost predicate Tells(row: WorkItem, before: Option<WorkItem>, b0: Backlog, req: Request, item: ManifestItem) {
    && TellsItem(row, item, req)
    && TellsBefore(row, before, item, req)
    && TellsReference(row, before, b0, req, item)
    && (!item.kind.StoryItem? ==> row.parentId == None)
  }

  /**
   * After an import that was not aborted the row of a key is, field by field, what the last item
   * written under it says: its title cut at 200, body, kind, priority or P2 and placement, its surface
   * or the old one, and project, release, assignee and reference as they were set before or else from
   * reference, document, target version and key. Without such an item it is the row it was.
   */
  lemma RowTellsItem(b0: Backlog, req: Request, key: string)
    requires Sound(b0) && key in DeclaredKeys(req) && !Processed(b0, req, false).failed
    ensures var b, j := Processed(b0, req, false).b, LastWriter(b0, req, |Sorted(req)|, key);
            if j >= 0 then
              var id := Latest(b, key);
              && Sorted(req)[j].sourceKey == key && id.Some?
              && Tells(b.rows[id.value], RowBefore(b0, key), b0, req, Sorted(req)[j])
            else
              Latest(b, key) == Latest(b0, key) && RowBefore(b, key) == RowBefore(b0, key)
  {
    hide Verdict, Writes, EpicsFirst, After, ByItem, Tells, LatestWith;
    var j := LastWriter(b0, req, |Sorted(req)|, key);
    LatestAfter(b0, req, |Sorted(req)|, key);
    if j >= 0 {
      var b := Processed(b0, req, false).b;
      ByItemTells(b0, req, Sorted(req)[j], Latest(b, key).value, b.rows[Latest(b, key).value]);
    }
  }

  /** The items written are those that find their place and whose row, if any, is in triage with another content. */
  lemma WrittenExactly(b0: Backlog, req: Request, j: nat)
    requires j < |Sorted(req)|
    ensures var item := Sorted(req)[j];
            Writes(Verdict(b0, req, item)) <==>
              && FindsPlace(b0, req, j)
              && (var before := RowBefore(b0, item.sourceKey);
                  before.Some? ==> before.value.status == Triage && before.value.excerptHash != Some(item.excerptHash))
  {
    hide Verdict, Writes, EpicsFirst, LatestWith, FindsPlace;
    ItemsAreDeclared(req, j);
    WritesExactly(b0, req, j);
  }

  // ------------------------------------------------------------------------------------------
  // What an import reports.

  /** The item is a story whose parent is no epic of the manifest that finds its own place. */
  ghost predicate IsOrphan(req: Request, item: ManifestItem) {
    && item.kind.StoryItem?
    && forall i :: 0 <= i < |Sorted(req)| && Sorted(req)[i].kind.EpicItem? ==>
         || Some(Sorted(req)[i].sourceKey) != item.parentKey
         || item.parentKey == Some("")
         || Resolve(Sorted(req)[i], ByKey(req.items), req.registry).Refused?
  }

  lemma OrphansExactly(req: Request, item: ManifestItem)
    ensures IsOrphan(req, item) <==>
            item.kind.StoryItem? && !(HasParent(item) && item.parentKey.value in EpicKeys(req, |Sorted(req)|))
  {
    hide Resolve, ByKey, EpicsFirst;
  }

  /** The line of an item, in the order of the checks: its place, its epic, its row's content, its row's status. */
  lemma VerdictTells(b0: Backlog, req: Request, j: nat)
    requires j < |Sorted(req)|
    ensures var item, line := Sorted(req)[j], Verdict(b0, req, Sorted(req)[j]);
            var placing := Resolve(item, ByKey(req.items), req.registry);
            var id, before := Latest(b0, item.sourceKey), RowBefore(b0, item.sourceKey);
            line == Line(item.sourceKey, line.outcome, line.workItemId, line.reason) &&
            if placing.Refused? then line.outcome == Skipped && line.reason == NotPlaced(placing.why)
            else if IsOrphan(req, item) then line.outcome == Skipped && line.reason == EpicNotImported(item.parentKey)
            else if before.None? then line.outcome == Added && line.reason == NoReason
            else if before.value.excerptHash == Some(item.excerptHash) then
              line.outcome == Unchanged && line.workItemId == id && line.reason == NoReason
            else if before.value.status == Triage then
              line.outcome == Modified && line.workItemId == id && line.reason == NoReason
            else
              line.outcome == Conflict && line.workItemId == id &&
              line.reason == ChangedAfterAcceptance(before.value.status)
  {
    hide Resolve, ByKey, EpicsFirst, EpicKeys, LatestWith, IsOrphan;
    ItemsAreDeclared(req, j);
    OrphansExactly(req, Sorted(req)[j]);
  }

  /** An earlier version of the reference made the row, and no epic or story of the manifest has its key. */
  ghost predicate IsWithdrawn(row: WorkItem, req: Request) {
    && row.fromManifest && row.sourceRefId.Some? && row.sourceRefId.value in req.referenceVersions
    && row.sourceKey.Some?
    && forall i :: 0 <= i < |req.items| && (req.items[i].kind.EpicItem? || req.items[i].kind.StoryItem?) ==>
         req.items[i].sourceKey != row.sourceKey.value
  }

  /** The line of a withdrawn row: to be removed when nobody accepted it, deprecated otherwise. */
  ghost predicate TellsWithdrawn(line: Line, id: nat, row: WorkItem) {
    && Some(line.sourceKey) == row.sourceKey && line.workItemId == Some(id)
    && if row.status == Triage then line.outcome == Removed && line.reason == NeverAccepted
       else line.outcome == Deprecated && line.reason == AlreadyAccepted(row.status)
  }

  ghost predicate IsLineOf(line: Line, rows: map<nat, WorkItem>, id: nat, req: Request) {
    id in rows && IsWithdrawn(rows[id], req) && TellsWithdrawn(line, id, rows[id])
  }

  /** The withdrawn lines are exactly those of the withdrawn rows. */
  lemma {:induction false} WithdrawnExactly(rows: map<nat, WorkItem>, n: nat, req: Request, line: Line)
    ensures line in GoneLines(rows, n, req) <==> exists id: nat :: id < n && IsLineOf(line, rows, id, req)
  {
    if n > 0 {
      hide IsLineOf;
      WithdrawnExactly(rows, n - 1, req, line);
      LineOfOne(rows, n - 1, req, line);
    }
  }

  lemma LineOfOne(rows: map<nat, WorkItem>, id: nat, req: Request, line: Line)
    ensures IsLineOf(line, rows, id, req) <==> id in rows && Gone(rows[id], req) && line == GoneLine(rows, id)
  {
    if id in rows {
      GoneExactly(rows[id], req);
    }
  }

  /** Lines of rows in the order of their ids, all below n. */
  ghost predicate Ascend(lines: seq<Line>, n: nat) {
    && (forall i :: 0 <= i < |lines| ==> lines[i].workItemId.Some? && lines[i].workItemId.value < n)
    && (forall i, j :: 0 <= i < j < |lines| ==> lines[i].workItemId.value < lines[j].workItemId.value)
  }

  lemma AscendMore(lines: seq<Line>, n: nat, last: Line)
    requires Ascend(lines, n)
    ensures Ascend(lines, n + 1)
    ensures last.workItemId == Some(n) ==> Ascend(lines + [last], n + 1)
  {
  }

  /** There is one line for each withdrawn row, in the order of their ids. */
  lemma {:induction false} WithdrawnAscend(rows: map<nat, WorkItem>, n: nat, req: Request)
    ensures Ascend(GoneLines(rows, n, req), n)
  {
    if n > 0 {
      hide Ascend;
      var before := GoneLines(rows, n - 1, req);
      WithdrawnAscend(rows, n - 1, req);
      if n - 1 in rows && Gone(rows[n - 1], req) {
        AscendMore(before, n - 1, GoneLine(rows, n - 1));
      } else {
        AscendMore(before, n - 1, Line("", Removed, None, NoReason));
        assert GoneLines(rows, n, req) == before;
      }
    } else {
      assert GoneLines(rows, n, req) == [];
    }
  }

  lemma GoneExactly(row: WorkItem, req: Request)
    ensures Gone(row, req) <==> IsWithdrawn(row, req)
  {
  }
}
