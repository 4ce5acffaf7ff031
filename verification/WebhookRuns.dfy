/** Whole runs of deliveries: repeats, crossing retries and crashes. */
module WebhookRuns {
  import opened Wrappers
  import opened BranchTable
  import opened Webhooks
  import BranchName
  import BranchReference

  // ------------------------------------------------------------------------------------------
  // The life of a branch.

  lemma FindUnique(rows: seq<Row>, i: nat)
    requires Unique(rows) && i < |rows|
    ensures Find(rows, rows[i].repository, rows[i].name) == Some(i)
  {
    var found := Find(rows, rows[i].repository, rows[i].name);
    assert Names(rows[i], rows[i].repository, rows[i].name);
  }

  /** Two spellings of a repository's name that differ only in case resolve alike. */
  lemma {:induction false} SlugIgnoresCase(repositories: seq<Repository>, owner: string, name: string, owner': string,
      name': string)
    requires BranchName.Lowered(owner) == BranchName.Lowered(owner')
        && BranchName.Lowered(name) == BranchName.Lowered(name')
    ensures BySlug(repositories, owner, name) == BySlug(repositories, owner', name')
  {
    if repositories != [] {
      SlugIgnoresCase(repositories[1..], owner, name, owner', name');
    }
  }

  /** The event closes this branch's pull request as merged. */
  predicate Merges(repository: Repository, event: Event, row: Row) {
    && event.PullRequestEvent? && event.pr.closesNow && event.pr.merged
    && event.pr.head.Some? && event.pr.head.value != ""
    && Names(row, repository.id, BranchReference.StripRefsHeads(event.pr.head.value))
  }

  function StateAfter(repository: Repository, event: Event, row: Row): BranchState {
    if row.state == Open && Deletes(repository, event, row) then Deleted
    else if row.state == Open && Merges(repository, event, row) then Merged
    else row.state
  }

  /**
   * An event adds at most one row, open and under a name not yet taken; an existing row changes state
   * only from open, to deleted when the event deletes its branch and to merged when it merges it.
   */
  lemma EventEffect(world: World, repository: Repository, event: Event, rows: seq<Row>)
    requires Unique(rows)
    ensures var after := Applied(world, repository, event, rows);
            && Unique(after)
            && Outlives(rows, after)
            && |after| <= |rows| + 1
            && (|after| > |rows| ==> event.BranchCreated? && after[|rows|].state == Open)
            && forall i :: 0 <= i < |rows| ==> after[i].state == StateAfter(repository, event, rows[i])
  {
    hide OnBranchCreated, OnBranchDeleted, OnPullRequest;
    match event
    case BranchCreated(ref) => CreatedEffect(world, repository, ref, rows);
    case BranchDeleted(ref) => DeletedEffect(repository, ref, rows);
    case PullRequestEvent(pr) => PullRequestEffect(repository, pr, rows);
    case OtherEvent =>
  }

  lemma CreatedEffect(world: World, repository: Repository, ref: string, rows: seq<Row>)
    requires Unique(rows)
    ensures var after := OnBranchCreated(world, repository, ref, rows);
            && Unique(after)
            && Outlives(rows, after)
            && |after| <= |rows| + 1
            && (|after| > |rows| ==> after[|rows|].state == Open)
            && forall i :: 0 <= i < |rows| ==> after[i] == rows[i]
  {
    hide Find, BranchReference.FirstKnown, BranchReference.CandidatesOf, BranchReference.StripRefsHeads, Unique,
        Outlives;
    var after := OnBranchCreated(world, repository, ref, rows);
    if after != rows {
      OneMore(rows, after[|rows|]);
    } else {
      SameRows(rows);
    }
  }

  lemma OneMore(rows: seq<Row>, row: Row)
    requires Unique(rows) && Find(rows, row.repository, row.name).None?
    ensures Unique(rows + [row]) && Outlives(rows, rows + [row])
  {
    hide Find;
  }

  lemma SameRows(rows: seq<Row>)
    ensures Outlives(rows, rows)
  {
  }

  lemma DeletedEffect(repository: Repository, ref: string, rows: seq<Row>)
    requires Unique(rows)
    ensures var after := OnBranchDeleted(repository, ref, rows);
            && Unique(after)
            && Outlives(rows, after)
            && |after| == |rows|
            && forall i :: 0 <= i < |rows| ==> after[i].state == StateAfter(repository, BranchDeleted(ref), rows[i])
  {
  }

  lemma PullRequestEffect(repository: Repository, pr: PullRequest, rows: seq<Row>)
    requires Unique(rows)
    ensures var after := OnPullRequest(repository, pr, rows);
            && Unique(after)
            && Outlives(rows, after)
            && |after| == |rows|
            && forall i :: 0 <= i < |rows| ==> after[i].state == StateAfter(repository, PullRequestEvent(pr), rows[i])
  {
    hide Find;
    forall i | 0 <= i < |rows|
      ensures Find(rows, rows[i].repository, rows[i].name) == Some(i)
    {
      FindUnique(rows, i);
    }
  }

  // ------------------------------------------------------------------------------------------
  // Deliveries one after another, with repeats.

  function AllHandled(world: World, deliveries: seq<Delivery>, state: State): State {
    if deliveries == [] then state
    else
      Handled(world, deliveries[|deliveries| - 1], AllHandled(world, deliveries[..|deliveries| - 1], state))
  }

  predicate HasId(deliveries: seq<Delivery>, id: string) {
    exists i :: 0 <= i < |deliveries| && deliveries[i].id == id
  }

  /** The deliveries without those whose id came before, and without those that have none. */
  function Firsts(deliveries: seq<Delivery>): seq<Delivery> {
    if deliveries == [] then []
    else
      var before, last := deliveries[..|deliveries| - 1], deliveries[|deliveries| - 1];
      Firsts(before) + (if last.id == "" || HasId(before, last.id) then [] else [last])
  }

  lemma {:induction false} StoredIds(world: World, deliveries: seq<Delivery>, state: State, id: string)
    ensures id in AllHandled(world, deliveries, state).deliveries <==>
            id in state.deliveries || (id != "" && HasId(deliveries, id))
  {
    if deliveries != [] {
      var before, last := deliveries[..|deliveries| - 1], deliveries[|deliveries| - 1];
      StoredIds(world, before, state, id);
      StoredIds(world, before, state, last.id);
      assert forall i :: 0 <= i < |before| ==> before[i] == deliveries[i];
      assert HasId(deliveries, id) <==> HasId(before, id) || deliveries[|before|].id == id;
    }
  }

  /**
   * Repeats are harmless: deliveries with any repetitions leave the branches and the journal exactly as
   * the first occurrence of each id does.
   */
  lemma {:induction false} RepeatsAreHarmless(world: World, deliveries: seq<Delivery>, rows: seq<Row>)
    ensures AllHandled(world, deliveries, State(map[], rows)) ==
        AllHandled(world, Firsts(deliveries), State(map[], rows))
  {
    if deliveries != [] {
      var before, last := deliveries[..|deliveries| - 1], deliveries[|deliveries| - 1];
      RepeatsAreHarmless(world, before, rows);
      StoredIds(world, before, State(map[], rows), last.id);
      if last.id != "" && !HasId(before, last.id) {
        assert Firsts(deliveries)[..|Firsts(deliveries)| - 1] == Firsts(before);
      } else {
        assert Firsts(deliveries) == Firsts(before);
      }
    }
  }

  /** Over any sequence of deliveries rows stay unique, none disappears, and a branch leaves `open` for good. */
  lemma {:induction false} BranchesOutlive(world: World, deliveries: seq<Delivery>, state: State)
    requires Unique(state.rows)
    ensures Unique(AllHandled(world, deliveries, state).rows)
    ensures Outlives(state.rows, AllHandled(world, deliveries, state).rows)
  {
    if deliveries != [] {
      hide Applied, ResolveRepository;
      var before, last := deliveries[..|deliveries| - 1], deliveries[|deliveries| - 1];
      var mid := AllHandled(world, before, state);
      BranchesOutlive(world, before, state);
      if RepositoryOf(world, last).Some? {
        EventEffect(world, RepositoryOf(world, last).value, last.event, mid.rows);
      }
      OutlivesTwice(state.rows, mid.rows, Handled(world, last, mid).rows);
    }
  }

  // ------------------------------------------------------------------------------------------
  // Deliveries handled by several workers at once: storing and applying are two steps.

  datatype Step = Store(worker: int, delivery: Delivery) | Apply(worker: int) | Crash(worker: int)

  /** What is stored, what each worker has stored and not yet applied, and what was applied, in order. */
  datatype Trace = Trace(state: State, inFlight: map<int, Delivery>, applied: seq<Delivery>)

  function Next(world: World, trace: Trace, step: Step): Trace {
    match step
    case Store(worker, delivery) =>
      if worker in trace.inFlight || delivery.id == "" || delivery.id in trace.state.deliveries then trace
      else trace.(state := trace.state.(deliveries := trace.state.deliveries[delivery.id := RowOf(world, delivery)]),
                  inFlight := trace.inFlight[worker := delivery])
    case Apply(worker) =>
      if worker !in trace.inFlight then trace
      else
        var delivery := trace.inFlight[worker];
        Trace(trace.state.(rows := AppliedDelivery(world, delivery, trace.state.rows)),
              trace.inFlight - {worker}, trace.applied + [delivery])
    case Crash(worker) => trace.(inFlight := trace.inFlight - {worker})
  }

  function Run(world: World, rows: seq<Row>, steps: seq<Step>): Trace {
    if steps == [] then Trace(State(map[], rows), map[], [])
    else Next(world, Run(world, rows, steps[..|steps| - 1]), steps[|steps| - 1])
  }

  ghost predicate DistinctIds(deliveries: seq<Delivery>) {
    forall i, j :: 0 <= i < j < |deliveries| ==> deliveries[i].id != deliveries[j].id
  }

  /** The branches are what the applied deliveries make of them one after another, and nothing is applied twice. */
  ghost predicate Serial(world: World, rows: seq<Row>, trace: Trace) {
    && trace.state.rows == AllHandled(world, trace.applied, State(map[], rows)).rows
    && DistinctIds(trace.applied)
    && (forall i :: 0 <= i < |trace.applied| ==>
          trace.applied[i].id != "" && trace.applied[i].id in trace.state.deliveries)
    && (forall w :: w in trace.inFlight ==>
          && trace.inFlight[w].id != "" && trace.inFlight[w].id in trace.state.deliveries
          && !HasId(trace.applied, trace.inFlight[w].id))
    && (forall v, w :: v in trace.inFlight && w in trace.inFlight && v != w ==>
          trace.inFlight[v].id != trace.inFlight[w].id)
  }

  lemma ApplyStaysSerial(world: World, rows: seq<Row>, trace: Trace, worker: int)
    requires Serial(world, rows, trace) && worker in trace.inFlight
    ensures Serial(world, rows, Next(world, trace, Apply(worker)))
  {
    hide RowOf, AppliedDelivery;
    var delivery := trace.inFlight[worker];
    var after := Next(world, trace, Apply(worker));
    assert after.applied[..|after.applied| - 1] == trace.applied;
    StoredIds(world, trace.applied, State(map[], rows), delivery.id);
    assert forall i :: 0 <= i < |trace.applied| ==> trace.applied[i].id != delivery.id;
    forall w | w in after.inFlight
      ensures !HasId(after.applied, after.inFlight[w].id)
    {
      assert !HasId(trace.applied, trace.inFlight[w].id);
    }
  }

  /**
   * Crossing retries: however workers interleave, crash or are given one delivery twice, the branches
   * are those of a run that handles the applied deliveries one after another, each id at most once.
   */
  lemma {:induction false} CrossingRetriesAreSerial(world: World, rows: seq<Row>, steps: seq<Step>)
    ensures Serial(world, rows, Run(world, rows, steps))
  {
    if steps != [] {
      var before := Run(world, rows, steps[..|steps| - 1]);
      CrossingRetriesAreSerial(world, rows, steps[..|steps| - 1]);
      match steps[|steps| - 1]
      case Store(worker, delivery) =>
        hide AllHandled, AppliedDelivery, RowOf;
        assert !HasId(before.applied, delivery.id) || delivery.id in before.state.deliveries;
      case Apply(worker) =>
        if worker in before.inFlight {
          ApplyStaysSerial(world, rows, before, worker);
        }
      case Crash(worker) =>
    }
  }

  /** The delivery this id was first offered with while its worker was free. */
  function FirstOffer(world: World, rows: seq<Row>, steps: seq<Step>, id: string): Option<Delivery> {
    if steps == [] then None
    else
      var before, last := steps[..|steps| - 1], steps[|steps| - 1];
      var earlier := FirstOffer(world, rows, before, id);
      if earlier.Some? then earlier
      else if last.Store? && last.delivery.id == id && last.worker !in Run(world, rows, before).inFlight then
        Some(last.delivery)
      else None
  }

  ghost predicate KeepsFirst(world: World, rows: seq<Row>, steps: seq<Step>) {
    var trace := Run(world, rows, steps);
    && (forall id :: id != "" ==>
          (id in trace.state.deliveries <==> FirstOffer(world, rows, steps, id).Some?) &&
          (id in trace.state.deliveries ==>
              trace.state.deliveries[id] == RowOf(world, FirstOffer(world, rows, steps, id).value)))
    && (forall w :: w in trace.inFlight ==>
          FirstOffer(world, rows, steps, trace.inFlight[w].id) == Some(trace.inFlight[w]))
    && (forall i :: 0 <= i < |trace.applied| ==>
          FirstOffer(world, rows, steps, trace.applied[i].id) == Some(trace.applied[i]))
  }

  lemma OneMoreStep(world: World, rows: seq<Row>, before: seq<Step>, last: Step)
    ensures Run(world, rows, before + [last]) == Next(world, Run(world, rows, before), last)
    ensures forall id :: FirstOffer(world, rows, before + [last], id) ==
              if FirstOffer(world, rows, before, id).Some? then FirstOffer(world, rows, before, id)
              else if last.Store? && last.delivery.id == id && last.worker !in Run(world, rows, before).inFlight then
                Some(last.delivery)
              else None
  {
    assert (before + [last])[..|before|] == before;
  }

  lemma StepKeepsFirst(world: World, rows: seq<Row>, before: seq<Step>, last: Step)
    requires KeepsFirst(world, rows, before) && Serial(world, rows, Run(world, rows, before))
    ensures KeepsFirst(world, rows, before + [last])
  {
    hide AppliedDelivery, RowOf, Run, FirstOffer, AllHandled;
    OneMoreStep(world, rows, before, last);
    match last
    case Store(worker, delivery) =>
    case Apply(worker) =>
    case Crash(worker) =>
  }

  /** What is stored under an id, and what is applied for it, is always its first offer. */
  lemma {:induction false} FirstOfferCounts(world: World, rows: seq<Row>, steps: seq<Step>)
    ensures KeepsFirst(world, rows, steps)
  {
    if steps != [] {
      var before, last := steps[..|steps| - 1], steps[|steps| - 1];
      FirstOfferCounts(world, rows, before);
      CrossingRetriesAreSerial(world, rows, before);
      StepKeepsFirst(world, rows, before, last);
      assert before + [last] == steps;
    }
  }

  /** Along such a run, too, a branch never disappears and leaves `open` for good. */
  lemma {:induction false} CrossingRunsOutlive(world: World, rows: seq<Row>, steps: seq<Step>, n: nat)
    requires Unique(rows) && n <= |steps|
    ensures Unique(Run(world, rows, steps).state.rows)
    ensures Outlives(Run(world, rows, steps[..n]).state.rows, Run(world, rows, steps).state.rows)
    decreases |steps|
  {
    if steps != [] {
      hide Applied, ResolveRepository;
      var before, last := steps[..|steps| - 1], steps[|steps| - 1];
      var mid := Run(world, rows, before);
      var m := if n < |steps| then n else |before|;
      CrossingRunsOutlive(world, rows, before, m);
      assert before[..m] == steps[..m];
      if last.Apply? && last.worker in mid.inFlight {
        var delivery := mid.inFlight[last.worker];
        if RepositoryOf(world, delivery).Some? {
          EventEffect(world, RepositoryOf(world, delivery).value, delivery.event, mid.state.rows);
        }
      }
      var after := Run(world, rows, steps);
      assert Outlives(mid.state.rows, after.state.rows);
      OutlivesTwice(Run(world, rows, steps[..m]).state.rows, mid.state.rows, after.state.rows);
    }
    assert steps[..|steps|] == steps;
  }
}
