/** The promises of the import, for every backlog, manifest and run. */
module ImportTheorems {
  import opened Wrappers
  import opened Placement
  import opened Import
  import opened ImportProofs

  // ------------------------------------------------------------------------------------------
  // Preview and import agree.

  /** Withdrawn before the import exactly when withdrawn after it, and then unchanged. */
  predicate SameGone(rows0: map<nat, WorkItem>, rows: map<nat, WorkItem>, req: Request, id: nat) {
    && ((id in rows && Gone(rows[id], req)) <==> (id in rows0 && Gone(rows0[id], req)))
    && (id in rows && Gone(rows[id], req) ==> rows[id] == rows0[id])
  }

  lemma GoneIsUnmoved(b0: Backlog, req: Request, b: Backlog, id: nat)
    requires Sound(b0) && Explained(b0, req, |Sorted(req)|, b)
    ensures SameGone(b0.rows, b.rows, req, id)
  {
    if id in b.rows && !Untouched(b0, b, id) {
      var j :| 0 <= j < |Sorted(req)| && ByItem(b0, req, Sorted(req)[j], id, b.rows[id]);
      SortedFacts(req);
      assert Sorted(req)[j] in Sorted(req);
      assert b.rows[id].sourceKey == Some(Sorted(req)[j].sourceKey);
    }
  }

  lemma {:induction false} GoneLinesSame(
    rows0: map<nat, WorkItem>, m: nat, rows: map<nat, WorkItem>, n: nat, req: Request)
    requires forall id :: SameGone(rows0, rows, req, id)
    requires forall id :: id in rows0 ==> id < m
    ensures GoneLines(rows, n, req) == GoneLines(rows0, if n <= m then n else m, req)
  {
    if n > 0 {
      GoneLinesSame(rows0, m, rows, n - 1, req);
      assert SameGone(rows0, rows, req, n - 1);
    }
  }

  predicate AllAgree(a: seq<Line>, b: seq<Line>) {
    |a| == |b| && forall i :: 0 <= i < |a| ==> Agree(a[i], b[i])
  }

  lemma {:induction false} AgreeCounts(a: seq<Line>, b: seq<Line>, o: Outcome)
    requires AllAgree(a, b)
    ensures CountOf(a, o) == CountOf(b, o)
  {
    if a != [] {
      assert Agree(a[|a| - 1], b[|b| - 1]);
      AgreeCounts(a[..|a| - 1], b[..|b| - 1], o);
    }
  }

  /** The lines of a whole report: the items, then the withdrawn rows as the run left them. */
  function ReportLines(p: Run, req: Request): seq<Line> {
    p.lines + GoneLines(p.b.rows, p.b.nextId, req)
  }

  lemma ItemsAgree(b0: Backlog, req: Request)
    requires !Processed(b0, req, true).failed && !Processed(b0, req, false).failed
    ensures AllAgree(Processed(b0, req, true).lines, Processed(b0, req, false).lines)
  {
    var n := |Sorted(req)|;
    var preview, actual := Processed(b0, req, true).lines, Processed(b0, req, false).lines;
    LinesAreVerdicts(b0, req, true, n);
    LinesAreVerdicts(b0, req, false, n);
    forall i | 0 <= i < n ensures Agree(preview[i], actual[i]) {
      var v := Verdict(b0, req, Sorted(req)[i]);
      assert Agree(preview[i], v) && Agree(actual[i], v);
    }
  }

  lemma WithdrawnAgree(b0: Backlog, req: Request)
    requires Sound(b0) && !Processed(b0, req, false).failed
    ensures var b := Processed(b0, req, false).b;
      GoneLines(b.rows, b.nextId, req) == GoneLines(b0.rows, b0.nextId, req)
  {
    var b := Processed(b0, req, false).b;
    ImportExplained(b0, req, |Sorted(req)|);
    forall id ensures SameGone(b0.rows, b.rows, req, id) {
      GoneIsUnmoved(b0, req, b, id);
    }
    GoneLinesSame(b0.rows, b0.nextId, b.rows, b.nextId, req);
  }

  /**
   * On the same backlog the preview and the import report the same outcome and reason for every
   * item and every withdrawn row, with the same counts, unless a constraint aborts the import; the
   * preview is never aborted and leaves the backlog alone.
   */
  lemma PreviewEqualsImport(b0: Backlog, req: Request)
    requires Sound(b0)
    ensures var preview, actual := Processed(b0, req, true), Processed(b0, req, false);
      && !preview.failed
      && preview.b == b0
      && (!actual.failed ==>
            && AllAgree(ReportLines(preview, req), ReportLines(actual, req))
            && forall o :: CountOf(ReportLines(preview, req), o) == CountOf(ReportLines(actual, req), o))
  {
    hide Step, EpicsFirst, GoneLines, CountOf;
    var preview, actual := Processed(b0, req, true), Processed(b0, req, false);
    DryNeverFails(b0, req, |Sorted(req)|);
    if !actual.failed {
      ItemsAgree(b0, req);
      WithdrawnAgree(b0, req);
      var a, b := ReportLines(preview, req), ReportLines(actual, req);
      assert AllAgree(a, b);
      forall o ensures CountOf(a, o) == CountOf(b, o) {
        AgreeCounts(a, b, o);
      }
    }
  }

  /** One line per importable item: nothing is dropped and nothing counted twice. */
  lemma OneLinePerItem(b0: Backlog, req: Request, dryRun: bool)
    requires !Processed(b0, req, dryRun).failed
    ensures |Processed(b0, req, dryRun).lines| == |Sorted(req)|
    ensures forall i :: 0 <= i < |Sorted(req)| ==>
      Agree(Processed(b0, req, dryRun).lines[i], Verdict(b0, req, Sorted(req)[i]))
  {
    LinesAreVerdicts(b0, req, dryRun, |Sorted(req)|);
  }

  // ------------------------------------------------------------------------------------------
  // The steps of a real import.

  /** One step of a real import, told with the static verdict of its item. */
  lemma RealStep(b0: Backlog, req: Request, n: nat) returns (row: WorkItem)
    requires Sound(b0) && n < |Sorted(req)| && !After(b0, req, false, n + 1).failed
    ensures var b, b' := After(b0, req, false, n).b, After(b0, req, false, n + 1).b;
      var item := Sorted(req)[n];
      var t := TargetOf(b0, req, b, item);
      && !After(b0, req, false, n).failed
      && Explained(b0, req, n, b)
      && if !Writes(Verdict(b0, req, item)) then b' == b
         else b' == Backlog(b.rows[t := row], if t == b.nextId then t + 1 else b.nextId)
              && ByItem(b0, req, item, t, row)
  {
    var s := After(b0, req, false, n);
    var item := Sorted(req)[n];
    ImportExplained(b0, req, n);
    EpicIdsAreKeys(b0, req, false, n);
    if item.kind.StoryItem? {
      StoriesSeeAllEpics(req, n);
    }
    VerdictSameFor(b0, req, s.epicIds.Keys, item);
    StepEffect(b0, req, s, item);
    if Writes(Verdict(b0, req, item)) {
      row := RowOf(b0, req, s.epicIds, item, Resolve(item, ByKey(req.items), req.registry));
      assert ByItem(b0, req, item, TargetOf(b0, req, s.b, item), row);
    } else {
      row :| true;
    }
  }

  lemma VerdictSameFor(b0: Backlog, req: Request, epics: set<string>, item: ManifestItem)
    requires item.kind.StoryItem? ==> epics == EpicKeys(req, |Sorted(req)|)
    ensures VerdictIn(b0, req, epics, item) == Verdict(b0, req, item)
  {
  }

  lemma QuietStep(b: Backlog, req: Request, s: Run, n: nat)
    requires n < |Sorted(req)| && !s.failed && s.b == b && s.epicIds.Keys == EpicKeys(req, n)
    requires !Writes(Verdict(b, req, Sorted(req)[n]))
    ensures !Step(b, req, false, s, Sorted(req)[n]).failed && Step(b, req, false, s, Sorted(req)[n]).b == b
  {
    if Sorted(req)[n].kind.StoryItem? {
      StoriesSeeAllEpics(req, n);
    }
    VerdictSameFor(b, req, s.epicIds.Keys, Sorted(req)[n]);
    StepEffect(b, req, s, Sorted(req)[n]);
  }

  /** When no verdict writes, the import leaves every row alone. */
  lemma {:induction false} NothingToWrite(b: Backlog, req: Request, n: nat)
    requires n <= |Sorted(req)|
    requires forall j :: 0 <= j < n ==> !Writes(Verdict(b, req, Sorted(req)[j]))
    ensures !After(b, req, false, n).failed && After(b, req, false, n).b == b
  {
    hide Step, Verdict, Writes, EpicsFirst;
    if n > 0 {
      NothingToWrite(b, req, n - 1);
      EpicIdsAreKeys(b, req, false, n - 1);
      var s := After(b, req, false, n - 1);
      QuietStep(b, req, s, n - 1);
      assert After(b, req, false, n) == Step(b, req, false, s, Sorted(req)[n - 1]);
    }
  }

  lemma SameManifest(b: Backlog, req: Request, req2: Request, item: ManifestItem)
    requires req2.items == req.items && req2.registry == req.registry
    ensures Verdict(b, req2, item) == Verdict(b, req, item)
  {
    assert DeclaredKeys(req2) == DeclaredKeys(req);
    assert EpicKeys(req2, |Sorted(req)|) == EpicKeys(req, |Sorted(req)|);
  }

  lemma QuietOutcomes(b: Backlog, req: Request, item: ManifestItem)
    requires !Writes(Verdict(b, req, item))
    ensures Verdict(b, req, item).outcome in {Unchanged, Skipped, Conflict}
  {
  }
}
