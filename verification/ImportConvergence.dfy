/** Importing a manifest again: when it changes nothing, and what it does otherwise. */
module ImportConvergence {
  import opened Wrappers
  import opened Placement
  import opened Import
  import opened ImportProofs
  import opened ImportTheorems

  // ------------------------------------------------------------------------------------------
  // What an import leaves as the row of a key.

  /** The last of the first n items that is written under this key, or -1. */
  function LastWriter(b0: Backlog, req: Request, n: nat, key: string): (j: int)
    requires n <= |Sorted(req)|
    ensures -1 <= j < n
    ensures j >= 0 ==> Sorted(req)[j].sourceKey == key && Writes(Verdict(b0, req, Sorted(req)[j]))
    ensures forall i :: j < i < n && Sorted(req)[i].sourceKey == key ==> !Writes(Verdict(b0, req, Sorted(req)[i]))
  {
    if n == 0 then -1
    else if Sorted(req)[n - 1].sourceKey == key && Writes(Verdict(b0, req, Sorted(req)[n - 1])) then n - 1
    else LastWriter(b0, req, n - 1, key)
  }

  function Latest(b: Backlog, key: string): Option<nat> {
    LatestWith(b.rows, b.nextId, key)
  }

  /** The row a key has: the old one if no item was written under it, else what the last such item wrote. */
  ghost predicate HasRowOf(b0: Backlog, req: Request, b: Backlog, key: string, j: int)
    requires -1 <= j < |Sorted(req)|
  {
    var id := Latest(b, key);
    if j < 0 then id == Latest(b0, key) && (id.Some? ==> id.value in b0.rows && b.rows[id.value] == b0.rows[id.value])
    else id.Some? && ByItem(b0, req, Sorted(req)[j], id.value, b.rows[id.value])
  }

  /** A row with nothing of its key behind it is the latest. */
  lemma LatestIs(b: Backlog, key: string, id: nat)
    requires id < b.nextId && id in b.rows && Carries(b.rows[id], key)
    requires forall i: nat :: id < i < b.nextId && i in b.rows ==> !Carries(b.rows[i], key)
    ensures Latest(b, key) == Some(id)
  {
    var found := Latest(b, key).value;
    assert !(found < id) && !(found > id);
  }

  lemma NoneIsLatest(b: Backlog, key: string)
    requires forall i: nat :: i < b.nextId && i in b.rows ==> !Carries(b.rows[i], key)
    ensures Latest(b, key) == None
  {
  }

  /** The row that is written over carried the key all along. */
  lemma TargetCarries(b0: Backlog, req: Request, n: nat, b: Backlog, item: ManifestItem)
    requires Sound(b0) && n <= |Sorted(req)| && Explained(b0, req, n, b)
    ensures var t := TargetOf(b0, req, b, item);
      t in b.rows ==> Carries(b.rows[t], item.sourceKey)
  {
    var t := TargetOf(b0, req, b, item);
    if t in b.rows && !Untouched(b0, b, t) {
      var j :| 0 <= j < n && ByItem(b0, req, Sorted(req)[j], t, b.rows[t]);
    }
  }

  /** Writing under another key leaves a key's row where it is. */
  lemma OtherKeyStays(b: Backlog, t: nat, row: WorkItem, other: string, key: string)
    requires t <= b.nextId && (t in b.rows ==> Carries(b.rows[t], other)) && Carries(row, other) && other != key
    ensures var b' := Backlog(b.rows[t := row], if t == b.nextId then t + 1 else b.nextId);
      var id := Latest(b, key);
      Latest(b', key) == id && (id.Some? ==> id.value in b'.rows && b'.rows[id.value] == b.rows[id.value])
  {
    var b' := Backlog(b.rows[t := row], if t == b.nextId then t + 1 else b.nextId);
    var id := Latest(b, key);
    if id.Some? {
      LatestIs(b', key, id.value);
    } else {
      NoneIsLatest(b', key);
    }
  }

  /** Writing a new row, or over the latest of the key, makes it the latest. */
  lemma OwnKeyMoves(b: Backlog, t: nat, row: WorkItem, key: string)
    requires t == b.nextId || Latest(b, key) == Some(t)
    requires Carries(row, key)
    ensures var b' := Backlog(b.rows[t := row], if t == b.nextId then t + 1 else b.nextId);
      Latest(b', key) == Some(t)
  {
    LatestIs(Backlog(b.rows[t := row], if t == b.nextId then t + 1 else b.nextId), key, t);
  }

  lemma ByItemCarries(b0: Backlog, req: Request, item: ManifestItem, id: nat, row: WorkItem)
    requires ByItem(b0, req, item, id, row)
    ensures Carries(row, item.sourceKey)
  {
  }

  /** The target of a written item is new, or the latest row of its key. */
  lemma TargetIsLatest(b0: Backlog, req: Request, n: nat, b: Backlog, item: ManifestItem, j: int)
    requires -1 <= j < n <= |Sorted(req)| && Explained(b0, req, n, b)
    requires item.sourceKey in DeclaredKeys(req) && HasRowOf(b0, req, b, item.sourceKey, j)
    requires j >= 0 ==> Sorted(req)[j].sourceKey == item.sourceKey
    ensures var t := TargetOf(b0, req, b, item);
      t == b.nextId || Latest(b, item.sourceKey) == Some(t)
  {
  }

  lemma HasRowKept(b0: Backlog, req: Request, b: Backlog, b': Backlog, key: string, j: int)
    requires -1 <= j < |Sorted(req)| && HasRowOf(b0, req, b, key, j)
    requires var id := Latest(b, key);
      Latest(b', key) == id
          && (id.Some? && id.value in b.rows ==> id.value in b'.rows && b'.rows[id.value] == b.rows[id.value])
    ensures HasRowOf(b0, req, b', key, j)
  {
    hide ByItem, LatestWith;
  }

  lemma HasRowWritten(b0: Backlog, req: Request, b: Backlog, key: string, j: nat, t: nat)
    requires j < |Sorted(req)| && t in b.rows && Latest(b, key) == Some(t)
        && ByItem(b0, req, Sorted(req)[j], t, b.rows[t])
    ensures HasRowOf(b0, req, b, key, j)
  {
    hide ByItem, LatestWith;
  }

  /**
   * Whatever the manifest: after its first n items the row of a key is the old one, or the work of
   * the last of them that was written under the key.
   */
  lemma {:induction false} LatestAfter(b0: Backlog, req: Request, n: nat, key: string)
    requires Sound(b0) && n <= |Sorted(req)| && !After(b0, req, false, n).failed && key in DeclaredKeys(req)
    ensures HasRowOf(b0, req, After(b0, req, false, n).b, key, LastWriter(b0, req, n, key))
  {
    hide Verdict, Writes, ByItem, EpicsFirst, After, Explained, TargetOf, Latest, Carries, HasRowOf;
    if n == 0 {
      NothingWrittenYet(b0, req, key);
    } else {
      var row := RealStep(b0, req, n - 1);
      LatestAfter(b0, req, n - 1, key);
      var b, b', item := After(b0, req, false, n - 1).b, After(b0, req, false, n).b, Sorted(req)[n - 1];
      var t, j := TargetOf(b0, req, b, item), LastWriter(b0, req, n - 1, key);
      if Writes(Verdict(b0, req, item)) {
        TargetCarries(b0, req, n - 1, b, item);
        ByItemCarries(b0, req, item, t, row);
        TargetFits(b0, req, n - 1, b, item);
        if item.sourceKey == key {
          TargetIsLatest(b0, req, n - 1, b, item, j);
          OwnKeyMoves(b, t, row, key);
          HasRowWritten(b0, req, b', key, n - 1, t);
        } else {
          OtherKeyStays(b, t, row, item.sourceKey, key);
          HasRowKept(b0, req, b, b', key, j);
        }
      }
    }
  }

  lemma NothingWrittenYet(b0: Backlog, req: Request, key: string)
    ensures HasRowOf(b0, req, After(b0, req, false, 0).b, key, -1)
  {
  }

  /** A row written for an item stays as written to the end, unless a later item is written under its key. */
  lemma WrittenStays(b0: Backlog, req: Request, j: nat, n: nat)
    requires Sound(b0) && j < n <= |Sorted(req)| && !After(b0, req, false, n).failed
    requires LastWriter(b0, req, n, Sorted(req)[j].sourceKey) == j
    ensures var b, id := After(b0, req, false, n).b, Latest(After(b0, req, false, n).b, Sorted(req)[j].sourceKey);
      id.Some? && ByItem(b0, req, Sorted(req)[j], id.value, b.rows[id.value])
  {
    hide Verdict, Writes, ByItem, EpicsFirst, After, Latest;
    ItemsAreDeclared(req, j);
    LatestAfter(b0, req, n, Sorted(req)[j].sourceKey);
  }

  lemma ItemsAreDeclared(req: Request, j: nat)
    requires j < |Sorted(req)|
    ensures Sorted(req)[j].sourceKey in DeclaredKeys(req)
  {
    SortedFacts(req);
    assert Sorted(req)[j] in Sorted(req);
  }

  // ------------------------------------------------------------------------------------------
  // What a second import finds.

  /** The item found its place, and its epic if it needs one: this depends on the manifest alone. */
  predicate FindsPlace(b: Backlog, req: Request, j: nat)
    requires j < |Sorted(req)|
  {
    !Verdict(b, req, Sorted(req)[j]).outcome.Skipped?
  }

  lemma EntersAlike(a: Backlog, b: Backlog, req: Request, j: nat)
    requires j < |Sorted(req)|
    ensures FindsPlace(a, req, j) <==> FindsPlace(b, req, j)
  {
    hide EpicsFirst, Resolve, EpicKeys, Existing;
  }

  /** The row of the item's key is there, and a person has moved it out of triage. */
  predicate IsAccepted(b: Backlog, req: Request, j: nat)
    requires j < |Sorted(req)|
  {
    var e := Existing(b, req, Sorted(req)[j].sourceKey);
    e.Some? && b.rows[e.value].status != Triage
  }

  predicate IsAgreed(b: Backlog, req: Request, j: nat)
    requires j < |Sorted(req)|
  {
    var e := Existing(b, req, Sorted(req)[j].sourceKey);
    e.Some? && b.rows[e.value].excerptHash == Some(Sorted(req)[j].excerptHash)
  }

  /** An item that enters is written exactly when its row neither agrees with it nor is accepted. */
  lemma WritesExactly(b: Backlog, req: Request, j: nat)
    requires j < |Sorted(req)|
    ensures Writes(Verdict(b, req, Sorted(req)[j])) <==>
        FindsPlace(b, req, j) && !IsAccepted(b, req, j) && !IsAgreed(b, req, j)
  {
    hide EpicsFirst, Resolve, EpicKeys, Existing;
  }

  /** The last item written under j's key, if any, is of j's content. */
  predicate Outlasts(b0: Backlog, req: Request, j: nat)
    requires j < |Sorted(req)|
  {
    var last := LastWriter(b0, req, |Sorted(req)|, Sorted(req)[j].sourceKey);
    last < 0 || Sorted(req)[last].excerptHash == Sorted(req)[j].excerptHash
  }

  /**
   * After an import an item's row agrees with it, or is accepted, exactly when no item of other content
   * was written last.
   */
  lemma SettledAfter(b0: Backlog, req: Request, j: nat)
    requires Sound(b0) && j < |Sorted(req)| && !Processed(b0, req, false).failed && FindsPlace(b0, req, j)
    ensures var b := Processed(b0, req, false).b;
      IsAccepted(b, req, j) || IsAgreed(b, req, j) <==> Outlasts(b0, req, j)
  {
    hide Verdict, Writes, EpicsFirst, After, ByItem;
    var n, key := |Sorted(req)|, Sorted(req)[j].sourceKey;
    var b, last := Processed(b0, req, false).b, LastWriter(b0, req, |Sorted(req)|, Sorted(req)[j].sourceKey);
    ItemsAreDeclared(req, j);
    LatestAfter(b0, req, n, key);
    WritesExactly(b0, req, j);
    if last >= 0 {
      WrittenRow(b0, req, Sorted(req)[last], Latest(b, key).value, b.rows[Latest(b, key).value]);
    }
  }

  lemma WrittenRow(b0: Backlog, req: Request, item: ManifestItem, id: nat, row: WorkItem)
    requires ByItem(b0, req, item, id, row)
    ensures row.status == Triage && row.excerptHash == Some(item.excerptHash)
  {
  }

  /** Two items that enter under one key with different contents, and no accepted row to stop them. */
  ghost predicate Rivals(b0: Backlog, req: Request, i: nat, j: nat)
    requires i < |Sorted(req)| && j < |Sorted(req)|
  {
    && FindsPlace(b0, req, i) && FindsPlace(b0, req, j)
    && Sorted(req)[i].sourceKey == Sorted(req)[j].sourceKey
    && Sorted(req)[i].excerptHash != Sorted(req)[j].excerptHash
    && !IsAccepted(b0, req, j)
  }

  ghost predicate HasRivals(b0: Backlog, req: Request) {
    exists i, j :: 0 <= i < |Sorted(req)| && 0 <= j < |Sorted(req)| && Rivals(b0, req, i, j)
  }

  /** An item that does not outlast the others has a rival. */
  lemma OutdoneHasRival(b0: Backlog, req: Request, j: nat)
    requires j < |Sorted(req)| && FindsPlace(b0, req, j) && !Outlasts(b0, req, j)
    ensures HasRivals(b0, req)
  {
    hide Verdict, Writes, EpicsFirst, Existing;
    var last := LastWriter(b0, req, |Sorted(req)|, Sorted(req)[j].sourceKey);
    WritesExactly(b0, req, last);
    assert Rivals(b0, req, last, j);
  }

  /** Of two rivals at least one does not outlast the other. */
  lemma RivalsDoNotBothOutlast(b0: Backlog, req: Request, i: nat, j: nat)
    requires i < |Sorted(req)| && j < |Sorted(req)| && Rivals(b0, req, i, j)
    ensures !Outlasts(b0, req, i) || !Outlasts(b0, req, j)
  {
    hide Verdict, Writes, EpicsFirst, Existing;
    WritesExactly(b0, req, i);
    WritesExactly(b0, req, j);
  }

  /** What is left to write after an import, item by item. */
  lemma LeftToWrite(b0: Backlog, req: Request, j: nat)
    requires Sound(b0) && j < |Sorted(req)| && !Processed(b0, req, false).failed
    ensures Writes(Verdict(Processed(b0, req, false).b, req, Sorted(req)[j])) <==>
        FindsPlace(b0, req, j) && !Outlasts(b0, req, j)
  {
    hide Verdict, Writes, EpicsFirst, Existing, After;
    var b := Processed(b0, req, false).b;
    EntersAlike(b0, b, req, j);
    WritesExactly(b, req, j);
    if FindsPlace(b0, req, j) {
      SettledAfter(b0, req, j);
    }
  }

  /** An import that has something to write and is not aborted changes a row. */
  lemma WritingChanges(b: Backlog, req: Request, j: nat)
    requires Sound(b) && j < |Sorted(req)| && !Processed(b, req, false).failed
        && Writes(Verdict(b, req, Sorted(req)[j]))
    ensures Processed(b, req, false).b != b
  {
    hide Verdict, Writes, EpicsFirst, After, ByItem;
    var n, key := |Sorted(req)|, Sorted(req)[j].sourceKey;
    var last := LastWriter(b, req, n, key);
    ItemsAreDeclared(req, j);
    LatestAfter(b, req, n, key);
    WritesExactly(b, req, last);
    var b' := Processed(b, req, false).b;
    WrittenRow(b, req, Sorted(req)[last], Latest(b', key).value, b'.rows[Latest(b', key).value]);
  }

  ghost predicate AllQuiet(lines: seq<Line>) {
    forall i :: 0 <= i < |lines| ==> lines[i].outcome in {Unchanged, Skipped, Conflict}
  }

  /**
   * Importing a manifest a second time, at any later time and on whoever's behalf: when no two of its
   * items are rivals for one row, it changes no row and finds every item unchanged, skipped or in
   * conflict; when some are, it is aborted or changes a row.
   */
  lemma ImportConverges(b0: Backlog, req: Request, again: Request)
    requires Sound(b0) && !Processed(b0, req, false).failed
    requires again.items == req.items && again.registry == req.registry
    ensures var b := Processed(b0, req, false).b;
      var second := Processed(b, again, false);
      && (!second.failed && second.b == b <==> !HasRivals(b0, req))
      && (!HasRivals(b0, req) ==> |second.lines| == |Sorted(req)| && AllQuiet(second.lines))
  {
    hide Verdict, Writes, EpicsFirst, After, Existing, Rivals, Outlasts;
    var n, b := |Sorted(req)|, Processed(b0, req, false).b;
    forall j | 0 <= j < n
      ensures Verdict(b, again, Sorted(req)[j]) == Verdict(b, req, Sorted(req)[j])
      ensures Writes(Verdict(b, req, Sorted(req)[j])) <==> FindsPlace(b0, req, j) && !Outlasts(b0, req, j)
    {
      SameManifest(b, req, again, Sorted(req)[j]);
      LeftToWrite(b0, req, j);
    }
    if HasRivals(b0, req) {
      var i, j :| 0 <= i < n && 0 <= j < n && Rivals(b0, req, i, j);
      RivalsDoNotBothOutlast(b0, req, i, j);
      RivalsEnter(b0, req, i, j);
      var k := if Outlasts(b0, req, i) then j else i;
      SoundKept(b0, req, n);
      if !Processed(b, again, false).failed {
        WritingChanges(b, again, k);
      }
    } else {
      forall j | 0 <= j < n
        ensures !Writes(Verdict(b, again, Sorted(again)[j]))
      {
        if FindsPlace(b0, req, j) && !Outlasts(b0, req, j) {
          OutdoneHasRival(b0, req, j);
        }
      }
      NothingToWrite(b, again, n);
      QuietLines(b, again);
    }
  }

  lemma RivalsEnter(b0: Backlog, req: Request, i: nat, j: nat)
    requires i < |Sorted(req)| && j < |Sorted(req)| && Rivals(b0, req, i, j)
    ensures FindsPlace(b0, req, i) && FindsPlace(b0, req, j)
  {
  }

  lemma QuietLines(b: Backlog, req: Request)
    requires !Processed(b, req, false).failed
    requires forall j :: 0 <= j < |Sorted(req)| ==> !Writes(Verdict(b, req, Sorted(req)[j]))
    ensures |Processed(b, req, false).lines| == |Sorted(req)| && AllQuiet(Processed(b, req, false).lines)
  {
    hide Verdict, Writes, EpicsFirst, After;
    var n, lines := |Sorted(req)|, Processed(b, req, false).lines;
    LinesAreVerdicts(b, req, false, n);
    forall i | 0 <= i < n
      ensures lines[i].outcome in {Unchanged, Skipped, Conflict}
    {
      assert Agree(lines[i], Verdict(b, req, Sorted(req)[i]));
      QuietOutcomes(b, req, Sorted(req)[i]);
    }
  }

  /** With distinct keys there are no rivals. */
  lemma DistinctKeysHaveNoRivals(b0: Backlog, req: Request)
    requires DistinctKeys(req.items)
    ensures !HasRivals(b0, req)
  {
    hide Verdict, EpicsFirst, Existing;
    SortedFacts(req);
  }
}
