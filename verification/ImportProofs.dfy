/**
 * What an import promises: the preview reports what the import does, a second import changes
 * nothing, and accepted work survives any run of imports and human decisions.
 */
module ImportProofs {
  import opened Wrappers
  import opened Placement
  import opened Import

  // ------------------------------------------------------------------------------------------
  // The sorted list.

  function Sorted(req: Request): seq<ManifestItem> {
    EpicsFirst(req.items)
  }

  predicate DistinctKeys(items: seq<ManifestItem>) {
    forall i, j :: 0 <= i < j < |items| ==> items[i].sourceKey != items[j].sourceKey
  }

  /** No two importable keys share their first 32 characters. */
  predicate DistinctPrefixes(req: Request) {
    forall a, b :: a in DeclaredKeys(req) && b in DeclaredKeys(req) && Prefix(a) == Prefix(b) ==> a == b
  }

  lemma {:induction false} OfKindMembers(items: seq<ManifestItem>, kind: ItemKind)
    ensures forall x :: x in OfKind(items, kind) <==> x in items && x.kind == kind
  {
    if items != [] {
      OfKindMembers(items[1..], kind);
      assert items == [items[0]] + items[1..];
    }
  }

  lemma {:induction false} OfKindDistinct(items: seq<ManifestItem>, kind: ItemKind)
    requires DistinctKeys(items)
    ensures DistinctKeys(OfKind(items, kind))
  {
    if items != [] {
      var rest := OfKind(items[1..], kind);
      OfKindDistinct(items[1..], kind);
      OfKindMembers(items[1..], kind);
      forall x | x in rest ensures x.sourceKey != items[0].sourceKey {
        assert x in items[1..];
      }
    }
  }

  lemma SortedFacts(req: Request)
    ensures forall x :: x in Sorted(req) <==> x in req.items && Importable(x)
    ensures forall x :: x in Sorted(req) ==> x.sourceKey in DeclaredKeys(req)
    ensures forall i, j ::
      (0 <= i < |Sorted(req)| && 0 <= j < |Sorted(req)|
       && Sorted(req)[i].kind.EpicItem? && Sorted(req)[j].kind.StoryItem?) ==> i < j
    ensures DistinctKeys(req.items) ==> DistinctKeys(Sorted(req))
  {
    OfKindMembers(req.items, EpicItem);
    OfKindMembers(req.items, StoryItem);
    var epics, stories := OfKind(req.items, EpicItem), OfKind(req.items, StoryItem);
    forall i | 0 <= i < |Sorted(req)| ensures i < |epics| <==> Sorted(req)[i].kind.EpicItem? {
      assert Sorted(req)[i] == if i < |epics| then epics[i] else stories[i - |epics|];
      assert if i < |epics| then epics[i] in epics else stories[i - |epics|] in stories;
    }
    if DistinctKeys(req.items) {
      OfKindDistinct(req.items, EpicItem);
      OfKindDistinct(req.items, StoryItem);
      forall x, y | x in epics && y in stories ensures x.sourceKey != y.sourceKey {
        var i :| 0 <= i < |req.items| && req.items[i] == x;
        var j :| 0 <= j < |req.items| && req.items[j] == y;
      }
      forall i, j | 0 <= i < j < |Sorted(req)|
        ensures Sorted(req)[i].sourceKey != Sorted(req)[j].sourceKey
      {
        if i < |epics| <= j {
          assert epics[i] in epics && stories[j - |epics|] in stories;
        }
      }
    }
  }

  // ------------------------------------------------------------------------------------------
  // The static verdict: what one item becomes, told without running the loop.

  predicate Enters(req: Request, item: ManifestItem) {
    Resolve(item, ByKey(req.items), req.registry).Placed?
  }

  /** The keys of the epics among the first `n` sorted items that found their place. */
  function EpicKeys(req: Request, n: nat): set<string>
    requires n <= |Sorted(req)|
  {
    set i | 0 <= i < n && Sorted(req)[i].kind.EpicItem? && Enters(req, Sorted(req)[i]) :: Sorted(req)[i].sourceKey
  }

  function VerdictIn(b0: Backlog, req: Request, epics: set<string>, item: ManifestItem): Line {
    VerdictAs(b0, epics, item, Resolve(item, ByKey(req.items), req.registry), Existing(b0, req, item.sourceKey))
  }

  function VerdictAs(b0: Backlog, epics: set<string>, item: ManifestItem, placing: Placing, id: Option<nat>): Line
    requires id.Some? ==> id.value in b0.rows
  {
    match placing
    case Refused(why) => Line(item.sourceKey, Skipped, None, NotPlaced(why))
    case Placed(_, _) =>
      if item.kind.StoryItem? && !(HasParent(item) && item.parentKey.value in epics) then
        Line(item.sourceKey, Skipped, None, EpicNotImported(item.parentKey))
      else if id.None? then Line(item.sourceKey, Added, None, NoReason)
      else if b0.rows[id.value].excerptHash == Some(item.excerptHash) then
        Line(item.sourceKey, Unchanged, id, NoReason)
      else if b0.rows[id.value].status != Triage then
        Line(item.sourceKey, Conflict, id, ChangedAfterAcceptance(b0.rows[id.value].status))
      else Line(item.sourceKey, Modified, id, NoReason)
  }

  /** What an item becomes, from the backlog before the import alone. */
  function Verdict(b0: Backlog, req: Request, item: ManifestItem): Line {
    VerdictIn(b0, req, EpicKeys(req, |Sorted(req)|), item)
  }

  predicate Writes(v: Line) {
    v.outcome.Added? || v.outcome.Modified?
  }

  /** Two lines that say the same, the id of a row not yet created aside. */
  predicate Agree(a: Line, b: Line) {
    && a.sourceKey == b.sourceKey && a.outcome == b.outcome && a.reason == b.reason
    && (a.outcome.Added? || a.workItemId == b.workItemId)
  }

  lemma StepAsSays(
    b0: Backlog, req: Request, dryRun: bool, s: Run, item: ManifestItem, placing: Placing, id: Option<nat>)
    requires id.Some? ==> id.value in b0.rows
    ensures var s' := StepAs(b0, req, dryRun, s, item, placing, id);
      s'.failed || (
        && |s'.lines| == |s.lines| + 1
        && s'.lines == s.lines + [s'.lines[|s.lines|]]
        && Agree(s'.lines[|s.lines|], VerdictAs(b0, s.epicIds.Keys, item, placing, id))
        && s'.epicIds.Keys
           == s.epicIds.Keys + (if item.kind.EpicItem? && placing.Placed? then {item.sourceKey} else {}))
  {
  hide Written, Taken, Clashes;
  }

  lemma {:induction false} EpicIdsAreKeys(b0: Backlog, req: Request, dryRun: bool, n: nat)
    requires n <= |Sorted(req)| && !After(b0, req, dryRun, n).failed
    ensures After(b0, req, dryRun, n).epicIds.Keys == EpicKeys(req, n)
  {
    hide StepAs, VerdictAs, EpicsFirst, Resolve;
    if n > 0 {
      EpicIdsAreKeys(b0, req, dryRun, n - 1);
      var item := Sorted(req)[n - 1];
      StepAsSays(b0, req, dryRun, After(b0, req, dryRun, n - 1), item,
                 Resolve(item, ByKey(req.items), req.registry), Existing(b0, req, item.sourceKey));
      assert EpicKeys(req, n) == EpicKeys(req, n - 1)
        + (if item.kind.EpicItem? && Enters(req, item) then {item.sourceKey} else {});
    }
  }

  lemma StoriesSeeAllEpics(req: Request, n: nat)
    requires n < |Sorted(req)| && Sorted(req)[n].kind.StoryItem?
    ensures EpicKeys(req, n) == EpicKeys(req, |Sorted(req)|)
  {
    SortedFacts(req);
  }

  lemma StepSaysVerdict(b0: Backlog, req: Request, dryRun: bool, n: nat)
    requires n < |Sorted(req)| && !After(b0, req, dryRun, n + 1).failed
    ensures var s, s' := After(b0, req, dryRun, n), After(b0, req, dryRun, n + 1);
      && !s.failed && |s'.lines| == |s.lines| + 1 && s'.lines == s.lines + [s'.lines[|s.lines|]]
      && Agree(s'.lines[|s.lines|], Verdict(b0, req, Sorted(req)[n]))
  {
    hide EpicsFirst, StepAs, EpicKeys, Resolve;
    var item := Sorted(req)[n];
    var id := Existing(b0, req, item.sourceKey);
    var placing := Resolve(item, ByKey(req.items), req.registry);
    EpicIdsAreKeys(b0, req, dryRun, n);
    StepAsSays(b0, req, dryRun, After(b0, req, dryRun, n), item, placing, id);
    if item.kind.StoryItem? {
      StoriesSeeAllEpics(req, n);
    }
  }

  predicate SaysVerdicts(b0: Backlog, req: Request, lines: seq<Line>) {
    && |lines| <= |Sorted(req)|
    && forall i :: 0 <= i < |lines| ==> Agree(lines[i], Verdict(b0, req, Sorted(req)[i]))
  }

  lemma SaysVerdictsSnoc(b0: Backlog, req: Request, lines: seq<Line>, line: Line)
    requires SaysVerdicts(b0, req, lines) && |lines| < |Sorted(req)|
    requires Agree(line, Verdict(b0, req, Sorted(req)[|lines|]))
    ensures SaysVerdicts(b0, req, lines + [line])
  {
  }

  /** The loop reports, item by item, the static verdict. */
  lemma {:induction false} LinesAreVerdicts(b0: Backlog, req: Request, dryRun: bool, n: nat)
    requires n <= |Sorted(req)| && !After(b0, req, dryRun, n).failed
    ensures |After(b0, req, dryRun, n).lines| == n && SaysVerdicts(b0, req, After(b0, req, dryRun, n).lines)
  {
    hide Step, Verdict, Agree, EpicsFirst;
    if n > 0 {
      StepSaysVerdict(b0, req, dryRun, n - 1);
      LinesAreVerdicts(b0, req, dryRun, n - 1);
      var lines := After(b0, req, dryRun, n - 1).lines;
      SaysVerdictsSnoc(b0, req, lines, After(b0, req, dryRun, n).lines[n - 1]);
    }
  }

  // ------------------------------------------------------------------------------------------
  // What a real import has written.

  ghost predicate Sound(b: Backlog) {
    && (forall id :: id in b.rows ==> id < b.nextId)
    && (forall i, j :: i in b.rows && j in b.rows && i != j && b.rows[i].reference.Some?
          ==> b.rows[i].reference != b.rows[j].reference)
  }

  /** The row stands where the item belongs; an epic hangs off nothing. */
  predicate StandsFor(req: Request, item: ManifestItem, row: WorkItem) {
    && Resolve(item, ByKey(req.items), req.registry) == Placed(row.domainId, row.capabilityId)
    && (!item.kind.StoryItem? ==> row.parentId == None)
  }

  /** `row`, under `id`, is what the import of `item` writes over the backlog `b0`. */
  predicate ByItem(b0: Backlog, req: Request, item: ManifestItem, id: nat, row: WorkItem) {
    var e := Existing(b0, req, item.sourceKey);
    && (if e.Some? then e == Some(id) && b0.rows[id].status == Triage
                        && b0.rows[id].excerptHash != Some(item.excerptHash)
        else b0.nextId <= id)
    && row == Written(req, Taken(b0, req), item, if e.Some? then Some(b0.rows[id]) else None,
                      row.domainId, row.capabilityId, row.parentId)
    && StandsFor(req, item, row)
  }

  predicate Untouched(b0: Backlog, b: Backlog, id: nat)
    requires id in b.rows
  {
    id in b0.rows && b.rows[id] == b0.rows[id]
  }

  /** Every row is the old one or the work of one of the first `n` items. */
  ghost predicate Explained(b0: Backlog, req: Request, n: nat, b: Backlog)
    requires n <= |Sorted(req)|
  {
    && b0.nextId <= b.nextId
    && (forall id :: id in b0.rows ==> id in b.rows)
    && (forall id :: id in b.rows ==> id < b.nextId)
    && (forall id :: id in b.rows ==>
          (Untouched(b0, b, id) || exists j :: 0 <= j < n && ByItem(b0, req, Sorted(req)[j], id, b.rows[id])))
  }

  /** The row a writing step puts down. */
  function RowOf(b0: Backlog, req: Request, epicIds: map<string, int>, item: ManifestItem, placing: Placing): WorkItem
    requires placing.Placed?
  {
    var e := Existing(b0, req, item.sourceKey);
    Written(req, Taken(b0, req), item, if e.Some? then Some(b0.rows[e.value]) else None,
            placing.domainId, placing.capabilityId,
            if item.kind.StoryItem? && HasParent(item) && item.parentKey.value in epicIds
            then Some(epicIds[item.parentKey.value]) else None)
  }

  function TargetOf(b0: Backlog, req: Request, b: Backlog, item: ManifestItem): nat {
    var e := Existing(b0, req, item.sourceKey);
    if e.Some? then e.value else b.nextId
  }

  /** What one step does to the rows: nothing, or one write for its item. */
  lemma StepEffect(b0: Backlog, req: Request, s: Run, item: ManifestItem)
    requires !s.failed && b0.nextId <= s.b.nextId
    ensures var s' := Step(b0, req, false, s, item);
      var placing := Resolve(item, ByKey(req.items), req.registry);
      if !Writes(VerdictIn(b0, req, s.epicIds.Keys, item)) then s'.b == s.b && !s'.failed
      else
        var t := TargetOf(b0, req, s.b, item);
        && placing.Placed?
        && var row := RowOf(b0, req, s.epicIds, item, placing);
        && s'.failed == Clashes(s.b.rows, t, row)
        && (s'.failed ==> s'.b == s.b)
        && (!s'.failed ==> s'.b == Backlog(s.b.rows[t := row], if t == s.b.nextId then t + 1 else s.b.nextId))
  {
  }

  /** Holds of aborted imports too: what was written before the abort stays written. */
  lemma {:induction false} ImportExplained(b0: Backlog, req: Request, n: nat)
    requires Sound(b0) && n <= |Sorted(req)|
    ensures Explained(b0, req, n, After(b0, req, false, n).b)
  {
    hide Explained, VerdictIn, RowOf, TargetOf, EpicsFirst, Resolve;
    if n == 0 {
      ExplainedNone(b0, req);
    } else {
      var s := After(b0, req, false, n - 1);
      var item := Sorted(req)[n - 1];
      ImportExplained(b0, req, n - 1);
      ExplainedIds(b0, req, n - 1, s.b);
      if s.failed {
        ExplainedMore(b0, req, n - 1, s.b);
      } else {
        StepEffect(b0, req, s, item);
        if Writes(VerdictIn(b0, req, s.epicIds.Keys, item)) && !After(b0, req, false, n).failed {
          ExplainedWrite(b0, req, n - 1, s, item);
        } else {
          ExplainedMore(b0, req, n - 1, s.b);
        }
      }
    }
  }

  lemma ExplainedNone(b0: Backlog, req: Request)
    requires Sound(b0)
    ensures Explained(b0, req, 0, b0)
  {
  }

  lemma ExplainedIds(b0: Backlog, req: Request, n: nat, b: Backlog)
    requires n <= |Sorted(req)| && Explained(b0, req, n, b)
    ensures b0.nextId <= b.nextId
  {
  }

  lemma ExplainedMore(b0: Backlog, req: Request, n: nat, b: Backlog)
    requires n < |Sorted(req)| && Explained(b0, req, n, b)
    ensures Explained(b0, req, n + 1, b)
  {
    hide EpicsFirst, Resolve, Taken;
  }

  lemma RowOfByItem(b0: Backlog, req: Request, epicIds: map<string, int>, item: ManifestItem, b: Backlog)
    requires b0.nextId <= b.nextId && Writes(VerdictIn(b0, req, epicIds.Keys, item))
    ensures var placing := Resolve(item, ByKey(req.items), req.registry);
      placing.Placed? && ByItem(b0, req, item, TargetOf(b0, req, b, item), RowOf(b0, req, epicIds, item, placing))
  {
    hide Resolve, Taken;
  }

  lemma ExplainedWrite(b0: Backlog, req: Request, n: nat, s: Run, item: ManifestItem)
    requires n < |Sorted(req)| && item == Sorted(req)[n] && Explained(b0, req, n, s.b)
    requires Writes(VerdictIn(b0, req, s.epicIds.Keys, item))
    ensures var placing := Resolve(item, ByKey(req.items), req.registry);
      var t := TargetOf(b0, req, s.b, item);
      placing.Placed? &&
      Explained(b0, req, n + 1, Backlog(s.b.rows[t := RowOf(b0, req, s.epicIds, item, placing)],
                                        if t == s.b.nextId then t + 1 else s.b.nextId))
  {
    var placing := Resolve(item, ByKey(req.items), req.registry);
    var t := TargetOf(b0, req, s.b, item);
    var row := RowOf(b0, req, s.epicIds, item, placing);
    var b := Backlog(s.b.rows[t := row], if t == s.b.nextId then t + 1 else s.b.nextId);
    forall id | id in b.rows && !Untouched(b0, b, id)
      ensures exists j :: 0 <= j < n + 1 && ByItem(b0, req, Sorted(req)[j], id, b.rows[id])
    {
      if id != t {
        var j :| 0 <= j < n && ByItem(b0, req, Sorted(req)[j], id, s.b.rows[id]);
      }
    }
  }

  // ------------------------------------------------------------------------------------------
  // References stay unique, so no constraint aborts an import of keys with distinct prefixes.

  /** A prefix that is not taken and yet in use is in use by the row the key itself designates. */
  lemma FreePrefix(b0: Backlog, req: Request, key: string, id: nat)
    requires DistinctPrefixes(req) && key in DeclaredKeys(req) && Prefix(key) !in Taken(b0, req)
    requires id in b0.rows && b0.rows[id].reference == Some(Prefix(key))
    ensures Existing(b0, req, key) == Some(id)
  {
    var r := Prefix(key);
    assert r in (set k | k in DeclaredKeys(req) :: Prefix(k));
    assert Existing(b0, req, r) == Some(id);
    assert r in DeclaredKeys(req) && Prefix(r) == r;
  }

  /** The reference of a row is the one it had, or the item's own prefix when that was free. */
  predicate MintedBy(b0: Backlog, req: Request, item: ManifestItem, id: nat, r: string) {
    && r == Prefix(item.sourceKey) && r !in Taken(b0, req)
    && (Existing(b0, req, item.sourceKey).Some? ==> Existing(b0, req, item.sourceKey) == Some(id))
  }

  predicate Inherited(b0: Backlog, id: nat, r: string) {
    id in b0.rows && b0.rows[id].reference == Some(r)
  }

  predicate FromItem(b0: Backlog, req: Request, item: ManifestItem, id: nat, r: string) {
    Inherited(b0, id, r) || MintedBy(b0, req, item, id, r)
  }

  lemma OneOwner(b0: Backlog, req: Request, x: ManifestItem, i: nat, y: ManifestItem, j: nat, r: string)
    requires Sound(b0) && DistinctPrefixes(req)
    requires x.sourceKey in DeclaredKeys(req) && y.sourceKey in DeclaredKeys(req) && x.sourceKey != y.sourceKey
    requires FromItem(b0, req, x, i, r) && FromItem(b0, req, y, j, r)
    ensures i == j
  {
    if Inherited(b0, i, r) && !Inherited(b0, j, r) {
      FreePrefix(b0, req, y.sourceKey, i);
    } else if Inherited(b0, j, r) && !Inherited(b0, i, r) {
      FreePrefix(b0, req, x.sourceKey, j);
    }
  }

  lemma OriginOf(b0: Backlog, req: Request, item: ManifestItem, id: nat, row: WorkItem)
    requires Sound(b0) && ByItem(b0, req, item, id, row) && row.reference.Some?
    ensures FromItem(b0, req, item, id, row.reference.value)
  {
  }

  /** Every user of a reference got it from one of the first `n` items or always had it. */
  lemma Users(b0: Backlog, req: Request, n: nat, b: Backlog, id: nat, r: string)
    requires Sound(b0) && n <= |Sorted(req)| && Explained(b0, req, n, b)
    requires id in b.rows && b.rows[id].reference == Some(r)
    ensures Inherited(b0, id, r) || exists j :: 0 <= j < n && FromItem(b0, req, Sorted(req)[j], id, r)
  {
    if !Untouched(b0, b, id) {
      var j :| 0 <= j < n && ByItem(b0, req, Sorted(req)[j], id, b.rows[id]);
      OriginOf(b0, req, Sorted(req)[j], id, b.rows[id]);
    }
  }

  lemma NoClash(b0: Backlog, req: Request, n: nat, b: Backlog, item: ManifestItem, t: nat, r: string)
    requires Sound(b0) && DistinctKeys(req.items) && DistinctPrefixes(req)
    requires n < |Sorted(req)| && item == Sorted(req)[n] && Explained(b0, req, n, b)
    requires FromItem(b0, req, item, t, r)
    ensures forall other :: other in b.rows && b.rows[other].reference == Some(r) ==> other == t
  {
    SortedFacts(req);
    assert Sorted(req)[n] in Sorted(req);
    forall other | other in b.rows && b.rows[other].reference == Some(r) ensures other == t {
      Users(b0, req, n, b, other, r);
      if Inherited(b0, other, r) {
        if MintedBy(b0, req, item, t, r) {
          FreePrefix(b0, req, item.sourceKey, other);
        }
      } else {
        var j :| 0 <= j < n && FromItem(b0, req, Sorted(req)[j], other, r);
        assert Sorted(req)[j] in Sorted(req);
        OneOwner(b0, req, item, t, Sorted(req)[j], other, r);
      }
    }
  }

  /** With distinct keys and distinct 32-character prefixes no import is aborted. */
  lemma {:induction false} ImportNeverAborts(b0: Backlog, req: Request, dryRun: bool, n: nat)
    requires Sound(b0) && DistinctKeys(req.items) && DistinctPrefixes(req)
    requires n <= |Sorted(req)|
    ensures !After(b0, req, dryRun, n).failed
  {
    hide ByItem, Explained, VerdictIn, Existing, FromItem, EpicsFirst, Resolve, RowOf, TargetOf, StepAs;
    if n > 0 {
      ImportNeverAborts(b0, req, dryRun, n - 1);
      var s := After(b0, req, dryRun, n - 1);
      var item := Sorted(req)[n - 1];
      if dryRun {
        DryStep(b0, req, s, item);
      } else {
        ImportExplained(b0, req, n - 1);
        ExplainedIds(b0, req, n - 1, s.b);
        StepEffect(b0, req, s, item);
        if Writes(VerdictIn(b0, req, s.epicIds.Keys, item)) {
          RowOfByItem(b0, req, s.epicIds, item, s.b);
          var placing := Resolve(item, ByKey(req.items), req.registry);
          var t, row := TargetOf(b0, req, s.b, item), RowOf(b0, req, s.epicIds, item, placing);
          if row.reference.Some? {
            OriginOf(b0, req, item, t, row);
            NoClash(b0, req, n - 1, s.b, item, t, row.reference.value);
          }
        }
      }
    }
  }

  /** Without the condition an import of two valid epics dies on the second one. */
  lemma SharedPrefixAborts(a: string, b: string)
    requires |a| == |b| == 33 && a[..32] == b[..32] && a != b
    ensures exists req: Request ::
      && DistinctKeys(req.items) && !DistinctPrefixes(req)
      && Processed(Backlog(map[], 0), req, false).failed
      && !Processed(Backlog(map[], 0), req, true).failed
  {
    var x := ManifestItem(EpicItem, a, None, "", None, None, None, None, "");
    var y := x.(sourceKey := b);
    var req := Request([x, y], Registry(map[], map[]), None, None, map[], "v", {}, "", "", 0);
    var b0 := Backlog(map[], 0);
    assert req.items[0] == x && req.items[1] == y;
    assert [x, y][1..] == [y] && [y][1..] == [];
    assert OfKind([y], EpicItem) == [y];
    assert OfKind([x, y], EpicItem) == [x, y];
    assert OfKind([y], StoryItem) == [];
    assert OfKind([x, y], StoryItem) == [];
    assert Sorted(req) == [x, y];
    assert a in DeclaredKeys(req) && b in DeclaredKeys(req) by {
      assert Importable(req.items[0]) && Importable(req.items[1]);
    }
    var s1 := After(b0, req, false, 1);
    assert Taken(b0, req) == {};
    assert s1.b.rows[0].reference == Some(Prefix(a)) by {
      assert After(b0, req, false, 0) == Run(b0, map[], [], false);
    }
    assert After(b0, req, false, 2).failed;
    DryNeverFails(b0, req, 2);
  }

  lemma DryStep(b0: Backlog, req: Request, s: Run, item: ManifestItem)
    requires !s.failed
    ensures !Step(b0, req, true, s, item).failed && Step(b0, req, true, s, item).b == s.b
  {
  }

  lemma {:induction false} DryNeverFails(b0: Backlog, req: Request, n: nat)
    requires n <= |Sorted(req)|
    ensures !After(b0, req, true, n).failed && After(b0, req, true, n).b == b0
  {
    if n > 0 {
      DryNeverFails(b0, req, n - 1);
      DryStep(b0, req, After(b0, req, true, n - 1), Sorted(req)[n - 1]);
    }
  }

  /** The UNIQUE constraint on `reference` holds at every step, and after an abort. */
  lemma {:induction false} SoundKept(b0: Backlog, req: Request, n: nat)
    requires Sound(b0) && n <= |Sorted(req)|
    ensures Sound(After(b0, req, false, n).b)
  {
    hide EpicsFirst, RowOf, VerdictIn, Resolve, Sound, Clashes, Explained, Writes, TargetOf, StepAs;
    if n > 0 {
      var s := After(b0, req, false, n - 1);
      var item := Sorted(req)[n - 1];
      SoundKept(b0, req, n - 1);
      ImportExplained(b0, req, n - 1);
      ExplainedIds(b0, req, n - 1, s.b);
      if !s.failed {
        StepEffect(b0, req, s, item);
        if Writes(VerdictIn(b0, req, s.epicIds.Keys, item)) && !After(b0, req, false, n).failed {
          var placing := Resolve(item, ByKey(req.items), req.registry);
          var t := TargetOf(b0, req, s.b, item);
          TargetFits(b0, req, n - 1, s.b, item);
          SoundWrite(s.b, t, RowOf(b0, req, s.epicIds, item, placing));
        }
      }
    }
  }

  /** A step that fails leaves the rows as they were. */
  lemma FailedKeeps(b0: Backlog, req: Request, n: nat)
    requires Sound(b0) && n < |Sorted(req)| && After(b0, req, false, n + 1).failed
    ensures After(b0, req, false, n + 1).b == After(b0, req, false, n).b
  {
    hide EpicsFirst, StepAs, VerdictIn, Resolve, Explained;
    var s := After(b0, req, false, n);
    ImportExplained(b0, req, n);
    ExplainedIds(b0, req, n, s.b);
    if !s.failed {
      StepEffect(b0, req, s, Sorted(req)[n]);
    }
  }

  lemma TargetFits(b0: Backlog, req: Request, n: nat, b: Backlog, item: ManifestItem)
    requires Sound(b0) && n <= |Sorted(req)| && Explained(b0, req, n, b)
    ensures TargetOf(b0, req, b, item) <= b.nextId
  {
  }

  lemma SoundWrite(b: Backlog, t: nat, row: WorkItem)
    requires Sound(b) && t <= b.nextId && !Clashes(b.rows, t, row)
    ensures Sound(Backlog(b.rows[t := row], if t == b.nextId then t + 1 else b.nextId))
  {
  }
}
