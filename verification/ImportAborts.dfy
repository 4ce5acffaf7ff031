/** Exactly when the unique reference aborts an import. */
module ImportAborts {
  import opened Wrappers
  import opened Placement
  import opened Import
  import opened ImportProofs
  import opened ImportTheorems
  import opened ImportConvergence
  import ImportDocuments
  import ParserModel
  import ParserTheorems

  /** The reference an item's row is written with: the one it has, or its key's prefix when nobody else has it. */
  function ReferenceFor(b0: Backlog, req: Request, item: ManifestItem): Option<string> {
    var e := Existing(b0, req, item.sourceKey);
    if e.Some? && b0.rows[e.value].reference.Some? then b0.rows[e.value].reference
    else if Prefix(item.sourceKey) in Taken(b0, req) then None
    else Some(Prefix(item.sourceKey))
  }

  /** The item is written, over no reference of its own, with the prefix of its key. */
  predicate Mints(b0: Backlog, req: Request, item: ManifestItem) {
    var e := Existing(b0, req, item.sourceKey);
    && Writes(Verdict(b0, req, item))
    && (e.Some? ==> b0.rows[e.value].reference.None?)
    && Prefix(item.sourceKey) !in Taken(b0, req)
  }

  predicate Inherits(b0: Backlog, r: string) {
    exists id :: id in b0.rows && b0.rows[id].reference == Some(r)
  }

  /** The prefix the j-th item mints is a stored row's, or an earlier item mints it too for another row. */
  ghost predicate Collides(b0: Backlog, req: Request, j: nat)
    requires j < |Sorted(req)|
  {
    && Mints(b0, req, Sorted(req)[j])
    && (|| Inherits(b0, Prefix(Sorted(req)[j].sourceKey))
        || exists i :: 0 <= i < j && Mints(b0, req, Sorted(req)[i]) && Contend(b0, req, Sorted(req)[i], Sorted(req)[j]))
  }

  /** Two items of one prefix that do not overwrite one row. */
  predicate Contend(b0: Backlog, req: Request, x: ManifestItem, y: ManifestItem) {
    && Prefix(x.sourceKey) == Prefix(y.sourceKey)
    && (x.sourceKey != y.sourceKey || Existing(b0, req, y.sourceKey).None?)
  }

  /** A real step fails exactly when its item is written with a reference that another row holds. */
  lemma StepFails(b0: Backlog, req: Request, n: nat)
    requires Sound(b0) && n < |Sorted(req)| && !After(b0, req, false, n).failed
    ensures var b, item := After(b0, req, false, n).b, Sorted(req)[n];
      After(b0, req, false, n + 1).failed <==>
        && Writes(Verdict(b0, req, item))
        && ReferenceFor(b0, req, item).Some?
        && exists other :: other in b.rows && other != TargetOf(b0, req, b, item)
             && b.rows[other].reference == ReferenceFor(b0, req, item)
  {
    var s := After(b0, req, false, n);
    var item := Sorted(req)[n];
    ImportExplained(b0, req, n);
    ExplainedIds(b0, req, n, s.b);
    EpicIdsAreKeys(b0, req, false, n);
    if item.kind.StoryItem? {
      StoriesSeeAllEpics(req, n);
    }
    VerdictSameFor(b0, req, s.epicIds.Keys, item);
    hide Resolve, Verdict, VerdictIn, Writes, EpicsFirst, Explained, Taken, StepAs;
    StepEffect(b0, req, s, item);
  }

  /** Every row that is not the old one was written by an item that writes. */
  lemma {:induction false} WritersWrite(b0: Backlog, req: Request, n: nat)
    requires Sound(b0) && n <= |Sorted(req)| && !After(b0, req, false, n).failed
    ensures var b := After(b0, req, false, n).b;
      forall id :: id in b.rows && !Untouched(b0, b, id) ==> WrittenBySome(b0, req, n, id, b.rows[id])
  {
    if n > 0 {
      hide Verdict, Writes, ByItem, EpicsFirst, Step, Explained;
      var row := RealStep(b0, req, n - 1);
      WritersWrite(b0, req, n - 1);
      var before, b := After(b0, req, false, n - 1).b, After(b0, req, false, n).b;
      var item := Sorted(req)[n - 1];
      forall id | id in b.rows && !Untouched(b0, b, id)
        ensures WrittenBySome(b0, req, n, id, b.rows[id])
      {
        if id in before.rows && b.rows[id] == before.rows[id] {
          var j :| 0 <= j < n - 1 && WrittenBy(b0, req, j, id, before.rows[id]);
          assert WrittenBy(b0, req, j, id, b.rows[id]);
        } else {
          assert WrittenBy(b0, req, n - 1, id, b.rows[id]);
        }
      }
    }
  }

  predicate WrittenBy(b0: Backlog, req: Request, j: nat, id: nat, row: WorkItem)
    requires j < |Sorted(req)|
  {
    Writes(Verdict(b0, req, Sorted(req)[j])) && ByItem(b0, req, Sorted(req)[j], id, row)
  }

  ghost predicate WrittenBySome(b0: Backlog, req: Request, n: nat, id: nat, row: WorkItem)
    requires n <= |Sorted(req)|
  {
    exists j :: 0 <= j < n && WrittenBy(b0, req, j, id, row)
  }

  lemma ByItemReference(b0: Backlog, req: Request, item: ManifestItem, id: nat, row: WorkItem)
    requires ByItem(b0, req, item, id, row)
    ensures row.reference == ReferenceFor(b0, req, item)
  {
  }

  /** A reference that was there stays there. */
  lemma ReferencesStay(b0: Backlog, req: Request, n: nat, b: Backlog, id: nat)
    requires Sound(b0) && n <= |Sorted(req)| && Explained(b0, req, n, b)
    requires id in b0.rows && b0.rows[id].reference.Some?
    ensures id in b.rows && b.rows[id].reference == b0.rows[id].reference
  {
    if !Untouched(b0, b, id) {
      var j :| 0 <= j < n && ByItem(b0, req, Sorted(req)[j], id, b.rows[id]);
    }
  }

  /** An item that collides is where the import stops, if it has come so far. */
  lemma CollisionFails(b0: Backlog, req: Request, j: nat)
    requires Sound(b0) && j < |Sorted(req)|
    requires Collides(b0, req, j) && !After(b0, req, false, j).failed
    ensures After(b0, req, false, j + 1).failed
  {
    hide Verdict, Writes, EpicsFirst, After, Taken, Existing;
    var b, y := After(b0, req, false, j).b, Sorted(req)[j];
    var r := Prefix(y.sourceKey);
    StepFails(b0, req, j);
    ImportExplained(b0, req, j);
    if Inherits(b0, r) {
      var other :| other in b0.rows && b0.rows[other].reference == Some(r);
      ReferencesStay(b0, req, j, b, other);
      InheritorIsOther(b0, req, b, y, other);
    } else {
      var i :| 0 <= i < j && Mints(b0, req, Sorted(req)[i]) && Contend(b0, req, Sorted(req)[i], y);
      var id := MintedStays(b0, req, i, j);
      if Sorted(req)[i].sourceKey != y.sourceKey {
        OtherKeyOtherTarget(b0, req, j, b, Sorted(req)[i].sourceKey, y, id);
      }
    }
  }

  /** A minted reference stays on the row of its key. */
  lemma MintedStays(b0: Backlog, req: Request, i: nat, n: nat) returns (id: nat)
    requires Sound(b0) && i < n <= |Sorted(req)| && !After(b0, req, false, n).failed && Mints(b0, req, Sorted(req)[i])
    ensures var b, x := After(b0, req, false, n).b, Sorted(req)[i];
      id in b.rows && id < b.nextId && Carries(b.rows[id], x.sourceKey)
          && b.rows[id].reference == Some(Prefix(x.sourceKey))
  {
    hide Verdict, Writes, EpicsFirst, After, Taken, ByItem;
    var b, x := After(b0, req, false, n).b, Sorted(req)[i];
    ItemsAreDeclared(req, i);
    LatestAfter(b0, req, n, x.sourceKey);
    var last := LastWriter(b0, req, n, x.sourceKey);
    id := Latest(b, x.sourceKey).value;
    ByItemReference(b0, req, Sorted(req)[last], id, b.rows[id]);
  }

  /** A row that carries one key is not what an item of another key is written to. */
  lemma OtherKeyOtherTarget(b0: Backlog, req: Request, n: nat, b: Backlog, key: string, item: ManifestItem, id: nat)
    requires Sound(b0) && n <= |Sorted(req)| && Explained(b0, req, n, b)
    requires id in b.rows && Carries(b.rows[id], key) && key != item.sourceKey
    ensures id != TargetOf(b0, req, b, item)
  {
    TargetCarries(b0, req, n, b, item);
  }

  lemma InheritorIsOther(b0: Backlog, req: Request, b: Backlog, item: ManifestItem, other: nat)
    requires Sound(b0) && b0.nextId <= b.nextId && Mints(b0, req, item)
    requires other in b0.rows && b0.rows[other].reference.Some?
    ensures other != TargetOf(b0, req, b, item)
  {
    hide Verdict, Writes, Taken;
  }

  /** Without a collision among the first n items the import comes past them. */
  lemma {:induction false} NoCollisionNoAbort(b0: Backlog, req: Request, n: nat)
    requires Sound(b0) && n <= |Sorted(req)|
    requires forall j :: 0 <= j < n ==> !Collides(b0, req, j)
    ensures !After(b0, req, false, n).failed
  {
    if n > 0 {
      NoCollisionNoAbort(b0, req, n - 1);
      NextStepToo(b0, req, n - 1);
    }
  }

  lemma NextStepToo(b0: Backlog, req: Request, n: nat)
    requires Sound(b0) && n < |Sorted(req)| && !After(b0, req, false, n).failed
    requires forall j :: 0 <= j <= n ==> !Collides(b0, req, j)
    ensures !After(b0, req, false, n + 1).failed
  {
    hide Verdict, Writes, EpicsFirst, After, Taken, Existing, ByItem, Untouched, Collides, ReferenceFor, TargetOf,
        Explained, WrittenBySome;
    var b, y := After(b0, req, false, n).b, Sorted(req)[n];
    StepFails(b0, req, n);
    WritersWrite(b0, req, n);
    ImportExplained(b0, req, n);
    ExplainedIds(b0, req, n, b);
    if After(b0, req, false, n + 1).failed {
      var other :| other in b.rows && other != TargetOf(b0, req, b, y)
          && b.rows[other].reference == ReferenceFor(b0, req, y);
      ClashIsCollision(b0, req, n, b, other);
      assert false;
    }
  }

  /** A clash at a step is a collision there or before. */
  lemma ClashIsCollision(b0: Backlog, req: Request, n: nat, b: Backlog, other: nat)
    requires Sound(b0) && n < |Sorted(req)|
    requires b0.nextId <= b.nextId
    requires forall id :: id in b.rows && !Untouched(b0, b, id) ==> WrittenBySome(b0, req, n, id, b.rows[id])
    requires other in b.rows && other != TargetOf(b0, req, b, Sorted(req)[n])
    requires Writes(Verdict(b0, req, Sorted(req)[n])) && ReferenceFor(b0, req, Sorted(req)[n]).Some?
    requires b.rows[other].reference == ReferenceFor(b0, req, Sorted(req)[n])
    ensures exists j :: 0 <= j <= n && Collides(b0, req, j)
  {
    var y := Sorted(req)[n];
    var r := ReferenceFor(b0, req, y).value;
    if other in b0.rows && b0.rows[other].reference == Some(r) {
      HeldBefore(b0, req, n, b, other);
    } else {
      var j :| 0 <= j < n && WrittenBy(b0, req, j, other, b.rows[other]);
      ByItemReference(b0, req, Sorted(req)[j], other, b.rows[other]);
      MintedBefore(b0, req, n, j, r, b, other);
    }
  }

  lemma HeldBefore(b0: Backlog, req: Request, n: nat, b: Backlog, other: nat)
    requires Sound(b0) && n < |Sorted(req)| && b0.nextId <= b.nextId
    requires other in b0.rows && b0.rows[other].reference == ReferenceFor(b0, req, Sorted(req)[n])
    requires other != TargetOf(b0, req, b, Sorted(req)[n])
    requires Writes(Verdict(b0, req, Sorted(req)[n])) && ReferenceFor(b0, req, Sorted(req)[n]).Some?
    ensures Collides(b0, req, n)
  {
    hide Verdict, Writes, Taken, EpicsFirst;
    assert Inherits(b0, ReferenceFor(b0, req, Sorted(req)[n]).value);
  }

  lemma MintedBefore(b0: Backlog, req: Request, n: nat, i: nat, r: string, b: Backlog, id: nat)
    requires Sound(b0) && i < n < |Sorted(req)|
    requires id in b.rows && id != TargetOf(b0, req, b, Sorted(req)[n]) && WrittenBy(b0, req, i, id, b.rows[id])
    requires b.rows[id].reference == Some(r) == ReferenceFor(b0, req, Sorted(req)[i])
    requires !(id in b0.rows && b0.rows[id].reference == Some(r))
    requires Writes(Verdict(b0, req, Sorted(req)[n])) && ReferenceFor(b0, req, Sorted(req)[n]) == Some(r)
    ensures Collides(b0, req, i) || Collides(b0, req, n)
  {
    hide Verdict, Writes, Taken, EpicsFirst;
    var x, y := Sorted(req)[i], Sorted(req)[n];
    assert Mints(b0, req, x) && r == Prefix(x.sourceKey);
    var e := Existing(b0, req, y.sourceKey);
    if e.Some? && b0.rows[e.value].reference.Some? {
      assert Inherits(b0, r);
    } else {
      assert Contend(b0, req, x, y);
    }
  }

  /**
   * Whatever the manifest, an import is aborted exactly when some item would mint a reference that a
   * stored row has, or that an item before it mints for another row: two keys that share their first
   * 32 characters, or one key twice with no row yet.
   */
  lemma AbortsExactly(b0: Backlog, req: Request)
    requires Sound(b0)
    ensures Processed(b0, req, false).failed <==> exists j :: 0 <= j < |Sorted(req)| && Collides(b0, req, j)
  {
    hide Collides, After, EpicsFirst;
    var n := |Sorted(req)|;
    if j :| 0 <= j < n && Collides(b0, req, j) {
      if !After(b0, req, false, j).failed {
        CollisionFails(b0, req, j);
        FailedStays(b0, req, false, j + 1, n);
      } else {
        FailedStays(b0, req, false, j, n);
      }
    } else {
      NoCollisionNoAbort(b0, req, n);
    }
  }

  /**
   * The preview and the import agree, in every outcome, reason and count, exactly when no two items
   * contend for a reference: otherwise the import is aborted and reports nothing.
   */
  lemma PreviewAgreesExactly(b0: Backlog, req: Request)
    requires Sound(b0)
    ensures var preview, actual := Processed(b0, req, true), Processed(b0, req, false);
      && !preview.failed && preview.b == b0
      && (!actual.failed && AllAgree(ReportLines(preview, req), ReportLines(actual, req))
            && (forall o :: CountOf(ReportLines(preview, req), o) == CountOf(ReportLines(actual, req), o))
          <==> forall j :: 0 <= j < |Sorted(req)| ==> !Collides(b0, req, j))
  {
    hide Collides, After, EpicsFirst, Processed, ReportLines, CountOf;
    AbortsExactly(b0, req);
    PreviewEqualsImport(b0, req);
  }

  // ------------------------------------------------------------------------------------------
  // One key twice.

  /** The import of a document with two story blocks under one epic, which the parser accepts. */
  function TwoBlocks(first: string, second: string): Request {
    var items := ImportDocuments.ManifestOf(ImportDocuments.TwoBlocksDocument(first, second));
    Request(items, Registry(map[], map[]), None, None, map[], "v", {}, "", "", 0)
  }

  const EPIC_KEY := "GOV-01"
  const STORY_KEY := "US-GOV-01-1"
  const EMPTY := Backlog(map[], 0)

  lemma EpicThenStories(x: ManifestItem, y: ManifestItem, z: ManifestItem)
    requires x.kind.EpicItem? && y.kind.StoryItem? && z.kind.StoryItem?
    ensures EpicsFirst([x, y, z]) == [x, y, z]
  {
    assert [x, y, z][1..] == [y, z] && [y, z][1..] == [z] && [z][1..] == [];
    assert OfKind([z], EpicItem) == [];
    assert OfKind([y, z], EpicItem) == [];
    assert OfKind([x, y, z], EpicItem) == [x];
    assert OfKind([z], StoryItem) == [z];
    assert OfKind([y, z], StoryItem) == [y, z];
    assert OfKind([x, y, z], StoryItem) == [y, z];
  }

  /** One epic, and one story key twice. */
  lemma TwoBlocksItems(first: string, second: string)
    ensures var items := TwoBlocks(first, second).items;
      && |items| == 3 && EPIC_KEY != STORY_KEY
      && items[0].kind == EpicItem && items[0].sourceKey == EPIC_KEY && items[0].parentKey == None
      && items[1].kind == StoryItem && items[1].sourceKey == STORY_KEY && items[1].parentKey == Some(EPIC_KEY)
      && items[2].kind == StoryItem && items[2].sourceKey == STORY_KEY && items[2].parentKey == Some(EPIC_KEY)
      && items[1].excerptHash == first && items[2].excerptHash == second
  {
    hide ParserModel.Items;
    ImportDocuments.TwoBlocksParse(first, second);
    assert ParserTheorems.Rendered(ParserModel.StoryKey("GOV-01", 1)) == STORY_KEY;
    assert |EPIC_KEY| == 6 && |STORY_KEY| == 11;
  }

  lemma TwoBlocksSorted(first: string, second: string)
    ensures var req := TwoBlocks(first, second);
      && Sorted(req) == req.items && |req.items| == 3
      && DeclaredKeys(req) == {EPIC_KEY, STORY_KEY}
      && DistinctPrefixes(req)
  {
    hide OfKind, TwoBlocks;
    var req := TwoBlocks(first, second);
    var items := req.items;
    TwoBlocksItems(first, second);
    EpicThenStories(items[0], items[1], items[2]);
    assert items == [items[0], items[1], items[2]];
    assert Importable(items[0]) && Importable(items[1]) && Importable(items[2]);
    assert items[0].sourceKey in DeclaredKeys(req) && items[1].sourceKey in DeclaredKeys(req);
    assert |EPIC_KEY| == 6 && |STORY_KEY| == 11;
  }

  /** Nothing is registered, inherited or versioned for it. */
  lemma TwoBlocksAlone(first: string, second: string)
    ensures TwoBlocks(first, second).registry == Registry(map[], map[])
  {
  }

  lemma TwoBlocksEnter(first: string, second: string, b: Backlog, j: nat)
    requires j < 3
    ensures |Sorted(TwoBlocks(first, second))| == 3 && FindsPlace(b, TwoBlocks(first, second), j)
  {
    hide EpicsFirst, ByKey, TwoBlocks;
    var req := TwoBlocks(first, second);
    TwoBlocksItems(first, second);
    TwoBlocksAlone(first, second);
    TwoBlocksSorted(first, second);
    var byKey := ByKey(req.items);
    assert req.items[0].sourceKey == EPIC_KEY;
    assert EPIC_KEY in byKey && byKey[EPIC_KEY] == req.items[0];
    var epic := req.items[0];
    assert Resolve(epic, byKey, req.registry).Placed?;
    assert Enters(req, Sorted(req)[0]);
    assert EPIC_KEY in EpicKeys(req, 3);
    assert ResolveFrom(epic, {} + {STORY_KEY}, byKey, req.registry).Placed?;
    assert j > 0 ==> HopFrom(req.items[j], byKey, req.registry) == Climb(epic);
    assert Resolve(req.items[j], byKey, req.registry).Placed?;
  }

  /** Both keys have a row with a reference; the story's is in triage, with this content. */
  ghost predicate HoldsStory(b: Backlog, hash: string) {
    && Sound(b)
    && Latest(b, EPIC_KEY).Some? && b.rows[Latest(b, EPIC_KEY).value].reference.Some?
    && Latest(b, STORY_KEY).Some?
    && var row := b.rows[Latest(b, STORY_KEY).value];
    && row.reference.Some? && row.status == Triage && row.excerptHash == Some(hash)
  }

  /**
   * Two story blocks under one epic abort their first import on the second story, although all
   * prefixes are distinct and the preview reports no trouble; the first story stays stored.
   */
  lemma RepeatedStoryAborts(first: string, second: string)
    ensures var req := TwoBlocks(first, second);
      && ParserModel.Issues(ImportDocuments.TwoBlocksDocument(first, second)) == []
      && DistinctPrefixes(req)
      && !Processed(EMPTY, req, true).failed
      && Processed(EMPTY, req, false).failed
      && HoldsStory(Processed(EMPTY, req, false).b, first)
  {
    hide Verdict, Writes, EpicsFirst, After, ByItem, TwoBlocks, ParserModel.Issues;
    var req := TwoBlocks(first, second);
    ImportDocuments.TwoBlocksParse(first, second);
    TwoBlocksItems(first, second);
    TwoBlocksSorted(first, second);
    DryNeverFails(EMPTY, req, 3);
    forall j | 0 <= j < 3
      ensures Writes(Verdict(EMPTY, req, Sorted(req)[j])) && Mints(EMPTY, req, Sorted(req)[j])
    {
      TwoBlocksEnter(first, second, EMPTY, j);
      WritesExactly(EMPTY, req, j);
    }
    assert Contend(EMPTY, req, Sorted(req)[1], Sorted(req)[2]);
    assert Collides(EMPTY, req, 2);
    assert Prefix(EPIC_KEY) != Prefix(STORY_KEY) by {
      assert |EPIC_KEY| == 6 && |STORY_KEY| == 11;
    }
    assert !Collides(EMPTY, req, 0) && !Collides(EMPTY, req, 1);
    NoCollisionNoAbort(EMPTY, req, 2);
    AbortsExactly(EMPTY, req);
    FailedKeeps(EMPTY, req, 2);
    SoundKept(EMPTY, req, 2);
    var b := After(EMPTY, req, false, 2).b;
    RowAfter(EMPTY, req, 2, EPIC_KEY, 0);
    RowAfter(EMPTY, req, 2, STORY_KEY, 1);
  }

  /** The row of a key after the last item written under it. */
  lemma RowAfter(b0: Backlog, req: Request, n: nat, key: string, j: nat)
    requires Sound(b0) && n <= |Sorted(req)| && !After(b0, req, false, n).failed && key in DeclaredKeys(req)
    requires LastWriter(b0, req, n, key) == j
    ensures var b := After(b0, req, false, n).b;
      && Latest(b, key).Some?
      && var row := b.rows[Latest(b, key).value];
      && row.status == Triage && row.excerptHash == Some(Sorted(req)[j].excerptHash)
      && row.reference == ReferenceFor(b0, req, Sorted(req)[j])
  {
    hide Verdict, Writes, EpicsFirst, After, ByItem;
    var b := After(b0, req, false, n).b;
    LatestAfter(b0, req, n, key);
    var id := Latest(b, key).value;
    WrittenRow(b0, req, Sorted(req)[j], id, b.rows[id]);
    ByItemReference(b0, req, Sorted(req)[j], id, b.rows[id]);
  }

  /** A row with a reference keeps it through an import. */
  lemma ReferenceAfter(b: Backlog, req: Request, n: nat, key: string)
    requires Sound(b) && n <= |Sorted(req)| && !After(b, req, false, n).failed && key in DeclaredKeys(req)
    requires Latest(b, key).Some? && b.rows[Latest(b, key).value].reference.Some?
    ensures var b' := After(b, req, false, n).b;
      Latest(b', key).Some? && b'.rows[Latest(b', key).value].reference.Some?
  {
    hide Verdict, Writes, EpicsFirst, After, ByItem;
    LatestAfter(b, req, n, key);
    var last := LastWriter(b, req, n, key);
    if last >= 0 {
      RowAfter(b, req, n, key, last);
    }
  }

  /** Imported again, the story row is rewritten with the content it does not have. */
  lemma StoryFlips(b: Backlog, first: string, second: string, hash: string)
    requires first != second && hash in {first, second} && HoldsStory(b, hash)
    ensures var p := Processed(b, TwoBlocks(first, second), false);
      !p.failed && HoldsStory(p.b, if hash == first then second else first)
  {
    hide Verdict, Writes, EpicsFirst, After, ByItem, TwoBlocks;
    var req := TwoBlocks(first, second);
    TwoBlocksItems(first, second);
    TwoBlocksSorted(first, second);
    forall j | 0 <= j < 3
      ensures FindsPlace(b, req, j) && !Mints(b, req, Sorted(req)[j])
    {
      TwoBlocksEnter(first, second, b, j);
    }
    AbortsExactly(b, req);
    var other := if hash == first then 2 else 1;
    WritesExactly(b, req, 1);
    WritesExactly(b, req, 2);
    assert EPIC_KEY != STORY_KEY by {
      assert |EPIC_KEY| == 6 && |STORY_KEY| == 11;
    }
    assert LastWriter(b, req, 3, STORY_KEY) == other;
    RowAfter(b, req, 3, STORY_KEY, other);
    ReferenceAfter(b, req, 3, STORY_KEY);
    ReferenceAfter(b, req, 3, EPIC_KEY);
    SoundKept(b, req, 3);
  }

  /** A backlog that holds one content is not one that holds the other. */
  lemma HoldsOne(b: Backlog, c: Backlog, hash: string, other: string)
    requires hash != other
    ensures HoldsStory(b, hash) && HoldsStory(c, other) ==> b != c
  {
  }

  /** The backlog after the first, aborted import and k more of the same manifest. */
  function Reimported(first: string, second: string, k: nat): Backlog {
    Processed(if k == 0 then EMPTY else Reimported(first, second, k - 1), TwoBlocks(first, second), false).b
  }

  /**
   * So no number of imports settles such a manifest: from the second on none is aborted, and each
   * changes the story.
   */
  lemma {:induction false} RepeatedStoryNeverSettles(first: string, second: string, k: nat)
    requires first != second
    ensures HoldsStory(Reimported(first, second, k), if k % 2 == 0 then first else second)
    ensures !Processed(Reimported(first, second, k), TwoBlocks(first, second), false).failed
    ensures Reimported(first, second, k + 1) != Reimported(first, second, k)
  {
    hide TwoBlocks, Processed, HoldsStory;
    HoldsOne(Reimported(first, second, k), Reimported(first, second, k + 1), first, second);
    HoldsOne(Reimported(first, second, k), Reimported(first, second, k + 1), second, first);
    var hash := if k % 2 == 0 then first else second;
    if k == 0 {
      RepeatedStoryAborts(first, second);
    } else {
      RepeatedStoryNeverSettles(first, second, k - 1);
      StoryFlips(Reimported(first, second, k - 1), first, second, if k % 2 == 0 then second else first);
    }
    StoryFlips(Reimported(first, second, k), first, second, hash);
  }
}
