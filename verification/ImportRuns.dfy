/** Any run of imports and human decisions over one backlog. */
module ImportRuns {
  import opened Wrappers
  import opened Placement
  import opened Import
  import opened ImportProofs
  import opened ImportTheorems

  // ------------------------------------------------------------------------------------------
  // One import, completed or aborted, keeps what people decided.

  ghost predicate KeepsDecisions(b0: Backlog, b: Backlog) {
    forall id :: id in b0.rows ==> id in b.rows && KeepsRow(b0.rows[id], b.rows[id])
  }

  predicate KeepsRow(was: WorkItem, row: WorkItem) {
    && (was.status != Triage ==> row == was)
    && (was.projectId.Some? ==> row.projectId == was.projectId)
    && (was.releaseId.Some? ==> row.releaseId == was.releaseId)
    && (was.reference.Some? ==> row.reference == was.reference)
    && (was.surface.Some? ==> row.surface.Some?)
    && row.assignee == was.assignee
    && row.createdAt == was.createdAt
  }

  /** No condition on the manifest: it holds of duplicate keys and of aborted imports as well. */
  lemma ImportKeepsDecisions(b0: Backlog, req: Request, dryRun: bool)
    requires Sound(b0)
    ensures KeepsDecisions(b0, Processed(b0, req, dryRun).b)
  {
    var n := |Sorted(req)|;
    var b := Processed(b0, req, dryRun).b;
    if dryRun {
      DryNeverFails(b0, req, n);
    } else {
      ImportExplained(b0, req, n);
      forall id | id in b0.rows ensures KeepsRow(b0.rows[id], b.rows[id]) {
        if !Untouched(b0, b, id) {
          var j :| 0 <= j < n && ByItem(b0, req, Sorted(req)[j], id, b.rows[id]);
        }
      }
    }
  }

  // ------------------------------------------------------------------------------------------
  // Stories hang off the row of their epic.

  /** Every row is still there and carries the keys it carried. */
  ghost predicate CarriesOn(b: Backlog, b': Backlog) {
    forall id :: id in b.rows ==> id in b'.rows && (b.rows[id].fromManifest ==>
      b'.rows[id].fromManifest && b'.rows[id].sourceKey == b.rows[id].sourceKey)
  }

  /** The row an item overwrites carried that item's key all along. */
  lemma OverwrittenCarries(b0: Backlog, req: Request, n: nat, b: Backlog, item: ManifestItem, t: nat)
    requires Sound(b0) && n <= |Sorted(req)| && Explained(b0, req, n, b)
    requires t in b.rows && t == TargetOf(b0, req, b, item)
    ensures Carries(b.rows[t], item.sourceKey)
  {
    assert Existing(b0, req, item.sourceKey) == Some(t);
    if !Untouched(b0, b, t) {
      var j :| 0 <= j < n && ByItem(b0, req, Sorted(req)[j], t, b.rows[t]);
    }
  }

  lemma StepCarriesOn(b0: Backlog, req: Request, n: nat)
    requires Sound(b0) && n < |Sorted(req)| && !After(b0, req, false, n + 1).failed
    ensures CarriesOn(After(b0, req, false, n).b, After(b0, req, false, n + 1).b)
  {
    var b, b' := After(b0, req, false, n).b, After(b0, req, false, n + 1).b;
    var item := Sorted(req)[n];
    var row := RealStep(b0, req, n);
    if Writes(Verdict(b0, req, item)) {
      var t := TargetOf(b0, req, b, item);
      assert Carries(row, item.sourceKey);
      if t in b.rows {
        OverwrittenCarries(b0, req, n, b, item, t);
      }
      WriteCarriesOn(b, b', t, row);
    }
  }

  lemma WriteCarriesOn(b: Backlog, b': Backlog, t: nat, row: WorkItem)
    requires b'.rows == b.rows[t := row] && row.fromManifest
    requires t in b.rows ==> b.rows[t].sourceKey == row.sourceKey
    ensures CarriesOn(b, b')
  {
  }

  predicate HoldsKey(rows: map<nat, WorkItem>, id: int, key: string) {
    0 <= id && id as nat in rows && Carries(rows[id as nat], key)
  }

  /** The id a story finds for its epic is the id of a row that carries the epic's key. */
  ghost predicate PointsAtEpics(epicIds: map<string, int>, rows: map<nat, WorkItem>) {
    forall k :: k in epicIds ==> HoldsKey(rows, epicIds[k], k)
  }

  lemma {:induction false} EpicIdsPoint(b0: Backlog, req: Request, n: nat)
    requires Sound(b0) && n <= |Sorted(req)| && !After(b0, req, false, n).failed
    ensures PointsAtEpics(After(b0, req, false, n).epicIds, After(b0, req, false, n).b.rows)
  {
    if n > 0 {
      StepCarriesOn(b0, req, n - 1);
      EpicIdsPoint(b0, req, n - 1);
      NewEpicPoints(b0, req, n - 1);
    }
  }

  lemma NewEpicPoints(b0: Backlog, req: Request, n: nat)
    requires Sound(b0) && n < |Sorted(req)| && !After(b0, req, false, n + 1).failed
    ensures var s, s' := After(b0, req, false, n), After(b0, req, false, n + 1);
      var k := Sorted(req)[n].sourceKey;
      s'.epicIds == s.epicIds ||
      (k in s'.epicIds && s'.epicIds == s.epicIds[k := s'.epicIds[k]] && HoldsKey(s'.b.rows, s'.epicIds[k], k))
  {
    var s := After(b0, req, false, n);
    var item := Sorted(req)[n];
    var id := Existing(b0, req, item.sourceKey);
    ImportExplained(b0, req, n);
    if id.Some? && !Untouched(b0, s.b, id.value) {
      var j :| 0 <= j < n && ByItem(b0, req, Sorted(req)[j], id.value, s.b.rows[id.value]);
    }
    assert id.Some? ==> id.value in s.b.rows && Carries(s.b.rows[id.value], item.sourceKey);
    StepAsPoints(b0, req, s, item, Resolve(item, ByKey(req.items), req.registry), id);
  }

  lemma StepAsPoints(b0: Backlog, req: Request, s: Run, item: ManifestItem, placing: Placing, id: Option<nat>)
    requires id.Some? ==> id.value in b0.rows
    requires id.Some? ==> id.value in s.b.rows && Carries(s.b.rows[id.value], item.sourceKey)
    ensures var s' := StepAs(b0, req, false, s, item, placing, id);
      var k := item.sourceKey;
      s'.epicIds == s.epicIds ||
      (k in s'.epicIds && s'.epicIds == s.epicIds[k := s'.epicIds[k]] && HoldsKey(s'.b.rows, s'.epicIds[k], k))
  {
  }

  // ------------------------------------------------------------------------------------------
  // The invariant of the backlog, and the manifests that keep it.

  /**
   * `kindOf` says what a key names; a document never uses one key for two kinds of item, because
   * an epic's key and a story's key have different shapes.
   */
  ghost predicate Proper(req: Request, kindOf: string -> ItemKind) {
    && DistinctKeys(req.items) && DistinctPrefixes(req)
    && forall item :: item in req.items ==> kindOf(item.sourceKey) == item.kind
  }

  ghost predicate RowFits(row: WorkItem, kindOf: string -> ItemKind) {
    row.fromManifest ==>
      row.sourceKey.Some? && row.kind == if kindOf(row.sourceKey.value) == EpicItem then Epic else Story
  }

  /** A manifest story has a parent row, and that row is a manifest epic. */
  ghost predicate HasEpic(rows: map<nat, WorkItem>, row: WorkItem) {
    row.fromManifest && row.kind == Story ==>
      && row.parentId.Some? && 0 <= row.parentId.value && row.parentId.value as nat in rows
      && rows[row.parentId.value as nat].fromManifest && rows[row.parentId.value as nat].kind == Epic
  }

  ghost predicate OneRowPerKey(rows: map<nat, WorkItem>) {
    forall i, j ::
      (i in rows && j in rows && rows[i].fromManifest && rows[j].fromManifest
       && rows[i].sourceKey == rows[j].sourceKey) ==> i == j
  }

  ghost predicate Healthy(b: Backlog, kindOf: string -> ItemKind) {
    && Sound(b)
    && (forall id :: id in b.rows ==> RowFits(b.rows[id], kindOf))
    && (forall id :: id in b.rows ==> HasEpic(b.rows, b.rows[id]))
    && OneRowPerKey(b.rows)
  }

  /** The row is what the j-th item, a story, wrote, and its parent is the row of the epic that item names. */
  predicate LinkedBy(b0: Backlog, req: Request, j: nat, rows: map<nat, WorkItem>, id: nat)
    requires j < |Sorted(req)| && id in rows
  {
    var item := Sorted(req)[j];
    && ByItem(b0, req, item, id, rows[id])
    && item.kind.StoryItem?
    && HasParent(item) && item.parentKey.value in EpicKeys(req, |Sorted(req)|)
    && rows[id].parentId.Some? && HoldsKey(rows, rows[id].parentId.value, item.parentKey.value)
  }

  /** Every story row that is not the old one hangs off the row of its own epic. */
  ghost predicate StoriesLinked(b0: Backlog, req: Request, n: nat, b: Backlog)
    requires n <= |Sorted(req)|
  {
    forall id :: id in b.rows && !Untouched(b0, b, id) && b.rows[id].kind == Story ==>
      exists j :: 0 <= j < n && LinkedBy(b0, req, j, b.rows, id)
  }

  lemma LinkCarriesOn(b0: Backlog, req: Request, j: nat, b: Backlog, b': Backlog, id: nat)
    requires j < |Sorted(req)| && id in b.rows && LinkedBy(b0, req, j, b.rows, id)
    requires CarriesOn(b, b') && id in b'.rows && b'.rows[id] == b.rows[id]
    ensures LinkedBy(b0, req, j, b'.rows, id)
  {
    hide ByItem, EpicKeys, EpicsFirst;
  }

  /**
   * Whatever the manifest, and after an abort as well: a story row an import has written hangs off the
   * stored row of the epic its item names, an epic of the same manifest.
   */
  lemma {:induction false} WrittenStoriesLinked(b0: Backlog, req: Request, n: nat)
    requires Sound(b0) && n <= |Sorted(req)|
    ensures StoriesLinked(b0, req, n, After(b0, req, false, n).b)
  {
    hide After, EpicsFirst, LinkedBy;
    if n == 0 {
      NothingLinkedYet(b0, req);
    } else if After(b0, req, false, n).failed {
      WrittenStoriesLinked(b0, req, n - 1);
      FailedKeeps(b0, req, n - 1);
    } else {
      NotFailedBefore(b0, req, n - 1);
      var b, b' := After(b0, req, false, n - 1).b, After(b0, req, false, n).b;
      WrittenStoriesLinked(b0, req, n - 1);
      StepCarriesOn(b0, req, n - 1);
      forall id | id in b'.rows && !Untouched(b0, b', id) && b'.rows[id].kind == Story
        ensures exists j :: 0 <= j < n && LinkedBy(b0, req, j, b'.rows, id)
      {
        if id in b.rows && b.rows[id] == b'.rows[id] {
          var j :| 0 <= j < n - 1 && LinkedBy(b0, req, j, b.rows, id);
          LinkCarriesOn(b0, req, j, b, b', id);
        } else {
          NewStoryIsLinked(b0, req, n - 1, id);
        }
      }
    }
  }

  lemma NothingLinkedYet(b0: Backlog, req: Request)
    ensures StoriesLinked(b0, req, 0, After(b0, req, false, 0).b)
  {
  }

  lemma NotFailedBefore(b0: Backlog, req: Request, n: nat)
    requires n < |Sorted(req)| && !After(b0, req, false, n + 1).failed
    ensures !After(b0, req, false, n).failed
  {
  }

  lemma NewStoryIsLinked(b0: Backlog, req: Request, n: nat, id: nat)
    requires Sound(b0) && n < |Sorted(req)| && !After(b0, req, false, n + 1).failed
    requires var s, s' := After(b0, req, false, n), After(b0, req, false, n + 1);
      id in s'.b.rows && !(id in s.b.rows && s.b.rows[id] == s'.b.rows[id]) && s'.b.rows[id].kind == Story
    ensures LinkedBy(b0, req, n, After(b0, req, false, n + 1).b.rows, id)
  {
    hide After, EpicsFirst, ByItem, EpicKeys, Verdict, Writes;
    var s, s', item := After(b0, req, false, n), After(b0, req, false, n + 1), Sorted(req)[n];
    NewStoryLinked(b0, req, n, id);
    EpicIdsPoint(b0, req, n);
    EpicIdsAreKeys(b0, req, false, n);
    StepCarriesOn(b0, req, n);
    var row := RealStep(b0, req, n);
    StoryOfKind(b0, req, item, id, row);
    SortedFacts(req);
    assert item in Sorted(req);
    StoriesSeeAllEpics(req, n);
  }

  lemma StoryOfKind(b0: Backlog, req: Request, item: ManifestItem, id: nat, row: WorkItem)
    requires ByItem(b0, req, item, id, row) || row.kind != Story
    ensures row.kind == Story ==> !item.kind.EpicItem?
  {
  }

  lemma NewStoryLinked(b0: Backlog, req: Request, n: nat, id: nat)
    requires Sound(b0) && n < |Sorted(req)| && !After(b0, req, false, n + 1).failed
    requires var s, s' := After(b0, req, false, n), After(b0, req, false, n + 1);
      id in s'.b.rows && !(id in s.b.rows && s.b.rows[id] == s'.b.rows[id]) && s'.b.rows[id].kind == Story
    ensures var s, s' := After(b0, req, false, n), After(b0, req, false, n + 1);
      var item := Sorted(req)[n];
      && !s.failed && HasParent(item) && item.parentKey.value in s.epicIds
      && s'.b.rows[id].parentId == Some(s.epicIds[item.parentKey.value])
  {
    var s := After(b0, req, false, n);
    var item := Sorted(req)[n];
    ImportExplained(b0, req, n);
    StepEffect(b0, req, s, item);
    SortedFacts(req);
    assert item in Sorted(req);
    var placing := Resolve(item, ByKey(req.items), req.registry);
    assert Writes(VerdictIn(b0, req, s.epicIds.Keys, item));
    StoryRow(b0, req, s.epicIds, item, placing);
  }

  lemma StoryRow(b0: Backlog, req: Request, epicIds: map<string, int>, item: ManifestItem, placing: Placing)
    requires placing.Placed? && Importable(item)
    requires Writes(VerdictAs(b0, epicIds.Keys, item, placing, Existing(b0, req, item.sourceKey)))
    ensures var row := RowOf(b0, req, epicIds, item, placing);
      row.kind == Story ==>
        && HasParent(item) && item.parentKey.value in epicIds
        && row.parentId == Some(epicIds[item.parentKey.value])
  {
  }

  // ------------------------------------------------------------------------------------------
  // An import keeps the backlog healthy.

  lemma RowsFit(b0: Backlog, req: Request, b: Backlog, kindOf: string -> ItemKind)
    requires Healthy(b0, kindOf) && Proper(req, kindOf) && Explained(b0, req, |Sorted(req)|, b)
    ensures forall id :: id in b.rows ==> RowFits(b.rows[id], kindOf)
  {
    SortedFacts(req);
    forall id | id in b.rows ensures RowFits(b.rows[id], kindOf) {
      if !Untouched(b0, b, id) {
        var j :| 0 <= j < |Sorted(req)| && ByItem(b0, req, Sorted(req)[j], id, b.rows[id]);
        assert Sorted(req)[j] in Sorted(req);
      }
    }
  }

  /** Where a row of a key comes from: an old row of that key, or an item of that key. */
  lemma KeyOrigin(b0: Backlog, req: Request, n: nat, b: Backlog, id: nat, key: string)
    requires Sound(b0) && n <= |Sorted(req)| && Explained(b0, req, n, b)
    requires id in b.rows && Carries(b.rows[id], key)
    ensures (id in b0.rows && Carries(b0.rows[id], key))
         || (exists j :: 0 <= j < n && Sorted(req)[j].sourceKey == key)
  {
    if !Untouched(b0, b, id) {
      var j :| 0 <= j < n && ByItem(b0, req, Sorted(req)[j], id, b.rows[id]);
      assert Sorted(req)[j].sourceKey == key;
    }
  }

  lemma {:induction false} OneRowPerKeyKept(b0: Backlog, req: Request, n: nat)
    requires Sound(b0) && OneRowPerKey(b0.rows) && DistinctKeys(req.items)
    requires n <= |Sorted(req)| && !After(b0, req, false, n).failed
    ensures OneRowPerKey(After(b0, req, false, n).b.rows)
  {
    if n > 0 {
      var b := After(b0, req, false, n - 1).b;
      var item := Sorted(req)[n - 1];
      var row := RealStep(b0, req, n - 1);
      OneRowPerKeyKept(b0, req, n - 1);
      if Writes(Verdict(b0, req, item)) {
        var t := TargetOf(b0, req, b, item);
        assert Carries(row, item.sourceKey);
        SortedFacts(req);
        assert item in Sorted(req);
        forall id | id in b.rows && Carries(b.rows[id], item.sourceKey) ensures id == t {
          KeyOrigin(b0, req, n - 1, b, id, item.sourceKey);
          assert Existing(b0, req, item.sourceKey).Some?;
          assert Carries(b0.rows[t], item.sourceKey);
        }
        OneMoreRow(b.rows, t, row, item.sourceKey);
      }
    }
  }

  lemma OneMoreRow(rows: map<nat, WorkItem>, t: nat, row: WorkItem, key: string)
    requires OneRowPerKey(rows) && Carries(row, key)
    requires forall id :: id in rows && Carries(rows[id], key) ==> id == t
    ensures OneRowPerKey(rows[t := row])
  {
  }

  lemma StoriesKeepEpics(b0: Backlog, req: Request, kindOf: string -> ItemKind)
    requires Healthy(b0, kindOf) && Proper(req, kindOf) && !Processed(b0, req, false).failed
    ensures var rows := Processed(b0, req, false).b.rows;
      forall id :: id in rows ==> HasEpic(rows, rows[id])
  {
    var n := |Sorted(req)|;
    var s := After(b0, req, false, n);
    ImportExplained(b0, req, n);
    RowsFit(b0, req, s.b, kindOf);
    WrittenStoriesLinked(b0, req, n);
    EpicIdsAreKeys(b0, req, false, n);
    AllCarryOn(b0, req, n);
    forall id | id in s.b.rows ensures HasEpic(s.b.rows, s.b.rows[id]) {
      var row := s.b.rows[id];
      if row.fromManifest && row.kind == Story {
        if Untouched(b0, s.b, id) {
          OldEpicStays(b0, s.b, row.parentId.value as nat, kindOf);
        } else {
          var j :| 0 <= j < n && LinkedBy(b0, req, j, s.b.rows, id);
          EpicKeyIsEpic(req, Sorted(req)[j].parentKey.value, kindOf);
        }
      }
    }
  }

  lemma EpicKeyIsEpic(req: Request, k: string, kindOf: string -> ItemKind)
    requires Proper(req, kindOf) && k in EpicKeys(req, |Sorted(req)|)
    ensures kindOf(k) == EpicItem
  {
    SortedFacts(req);
    var i :| 0 <= i < |Sorted(req)| && Sorted(req)[i].kind.EpicItem? && Sorted(req)[i].sourceKey == k;
    assert Sorted(req)[i] in Sorted(req);
  }

  /** A row's kind follows its key, and an import never changes a row's key. */
  lemma OldEpicStays(b0: Backlog, b: Backlog, p: nat, kindOf: string -> ItemKind)
    requires p in b0.rows && b0.rows[p].fromManifest && b0.rows[p].kind == Epic
    requires CarriesOn(b0, b)
    requires RowFits(b0.rows[p], kindOf) && p in b.rows && RowFits(b.rows[p], kindOf)
    ensures b.rows[p].fromManifest && b.rows[p].kind == Epic
  {
  }

  lemma {:induction false} AllCarryOn(b0: Backlog, req: Request, n: nat)
    requires Sound(b0) && n <= |Sorted(req)| && !After(b0, req, false, n).failed
    ensures CarriesOn(b0, After(b0, req, false, n).b)
  {
    if n > 0 {
      StepCarriesOn(b0, req, n - 1);
      AllCarryOn(b0, req, n - 1);
      CarriesOnTransitive(b0, After(b0, req, false, n - 1).b, After(b0, req, false, n).b);
    }
  }

  lemma CarriesOnTransitive(a: Backlog, b: Backlog, c: Backlog)
    requires CarriesOn(a, b) && CarriesOn(b, c)
    ensures CarriesOn(a, c)
  {
  }

  /** An import of a proper manifest, real or preview, keeps the backlog healthy. */
  lemma ImportKeepsHealthy(b0: Backlog, req: Request, dryRun: bool, kindOf: string -> ItemKind)
    requires Healthy(b0, kindOf) && Proper(req, kindOf)
    ensures !Processed(b0, req, dryRun).failed
    ensures Healthy(Processed(b0, req, dryRun).b, kindOf)
  {
    var n := |Sorted(req)|;
    if dryRun {
      DryNeverFails(b0, req, n);
    } else {
      ImportNeverAborts(b0, req, false, n);
      ImportExplained(b0, req, n);
      SoundKept(b0, req, n);
      RowsFit(b0, req, Processed(b0, req, false).b, kindOf);
      StoriesKeepEpics(b0, req, kindOf);
      OneRowPerKeyKept(b0, req, n);
    }
  }

  // ------------------------------------------------------------------------------------------
  // Runs.

  datatype Event =
    | Imported(req: Request, dryRun: bool)
    /** A person moves a ticket along, assigns it, or files it under a project or a release. */
    | Decided(id: nat, status: Status, projectId: Option<string>, releaseId: Option<string>, assignee: Option<string>)
    /** A person types a ticket; the reference it asks for is refused when somebody uses it. */
    | Typed(row: WorkItem)

  function Happen(b: Backlog, e: Event): Backlog {
    match e
    case Imported(req, dryRun) => Processed(b, req, dryRun).b
    case Decided(id, status, projectId, releaseId, assignee) =>
      if id in b.rows then
        b.(rows := b.rows[id := b.rows[id].(status := status, projectId := projectId,
                                            releaseId := releaseId, assignee := assignee)])
      else b
    case Typed(row) =>
      var typed := row.(fromManifest := false, sourceRefId := None, sourceKey := None, excerptHash := None);
      if Clashes(b.rows, b.nextId, typed) then b
      else Backlog(b.rows[b.nextId := typed], b.nextId + 1)
  }

  function History(events: seq<Event>): Backlog {
    if events == [] then Backlog(map[], 0)
    else Happen(History(events[..|events| - 1]), events[|events| - 1])
  }

  ghost predicate ProperRun(events: seq<Event>, kindOf: string -> ItemKind) {
    forall i :: 0 <= i < |events| && events[i].Imported? ==> Proper(events[i].req, kindOf)
  }

  lemma DecisionKeepsHealthy(b: Backlog, e: Event, kindOf: string -> ItemKind)
    requires Healthy(b, kindOf) && e.Decided?
    ensures Healthy(Happen(b, e), kindOf)
  {
  }

  lemma TypingKeepsHealthy(b: Backlog, e: Event, kindOf: string -> ItemKind)
    requires Healthy(b, kindOf) && e.Typed?
    ensures Healthy(Happen(b, e), kindOf)
  {
  }

  lemma HappenKeepsHealthy(b: Backlog, e: Event, kindOf: string -> ItemKind)
    requires Healthy(b, kindOf) && (e.Imported? ==> Proper(e.req, kindOf))
    ensures Healthy(Happen(b, e), kindOf)
  {
    hide Healthy, Proper;
    match e
    case Imported(req, dryRun) => ImportKeepsHealthy(b, req, dryRun, kindOf);
    case Decided(_, _, _, _, _) => DecisionKeepsHealthy(b, e, kindOf);
    case Typed(_) => TypingKeepsHealthy(b, e, kindOf);
  }

  /**
   * Over any run: references are unique, a key has one row, a row's kind is its key's, and every
   * manifest story hangs off a stored manifest epic.
   */
  lemma {:induction false} HistoryIsHealthy(events: seq<Event>, kindOf: string -> ItemKind)
    requires ProperRun(events, kindOf)
    ensures Healthy(History(events), kindOf)
  {
    if events != [] {
      HistoryIsHealthy(events[..|events| - 1], kindOf);
      HappenKeepsHealthy(History(events[..|events| - 1]), events[|events| - 1], kindOf);
    }
  }

  lemma HappenKeepsSound(b: Backlog, e: Event)
    requires Sound(b)
    ensures Sound(Happen(b, e))
  {
    match e
    case Imported(req, dryRun) =>
      hide Sound, After;
      if dryRun {
        DryNeverFails(b, req, |Sorted(req)|);
      } else {
        SoundKept(b, req, |Sorted(req)|);
      }
    case Decided(_, _, _, _, _) =>
    case Typed(_) =>
  }

  /** Whatever the manifests, aborted imports included, references stay unique over any run. */
  lemma {:induction false} HistoryIsSound(events: seq<Event>)
    ensures Sound(History(events))
  {
    if events != [] {
      HistoryIsSound(events[..|events| - 1]);
      HappenKeepsSound(History(events[..|events| - 1]), events[|events| - 1]);
    }
  }

  /**
   * A row a person accepted stays as they left it through any number of imports in a row, whatever
   * came before and whatever the manifests: repeated keys, previews and aborted imports included.
   */
  lemma {:induction false} AcceptedWorkSurvives(past: seq<Event>, imports: seq<Event>, id: nat)
    requires forall i :: 0 <= i < |imports| ==> imports[i].Imported?
    requires id in History(past).rows && History(past).rows[id].status != Triage
    ensures id in History(past + imports).rows
    ensures History(past + imports).rows[id] == History(past).rows[id]
  {
    hide Sound, Processed;
    if imports == [] {
      assert past + imports == past;
    } else {
      var k := |imports| - 1;
      var before := past + imports[..k];
      assert (past + imports)[..|past + imports| - 1] == before;
      AcceptedWorkSurvives(past, imports[..k], id);
      HistoryIsSound(before);
      assert (past + imports)[|past + imports| - 1] == imports[k];
      ImportKeepsDecisions(History(before), imports[k].req, imports[k].dryRun);
    }
  }
}
