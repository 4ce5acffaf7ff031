/** Every interleaving of calls, failures and webhooks. */
module StartWorkRuns {
  import opened Wrappers
  import opened BranchTable
  import opened StartWork
  import BranchName
  import BranchNameProofs
  import BranchReference
  import Import
  import Webhooks
  import WebhookRuns

  type World = Webhooks.World

  /** Rows stay, and keep their ticket, repository and name. */
  ghost predicate Keeps(before: seq<Row>, after: seq<Row>) {
    && |before| <= |after|
    && forall i :: 0 <= i < |before| ==> SameBranch(before[i], after[i])
  }

  predicate SameBranch(a: Row, b: Row) {
    a.workItem == b.workItem && Names(b, a.repository, a.name)
  }

  ghost predicate CallSound(rows: seq<Row>, now: Call) {
    && (now.Opening? || now.PullMade? ==> now.branchId < |rows| && SameBranch(now.branch, rows[now.branchId]))
    && (now.BranchMade? || now.Opening? || now.PullMade? ==> now.branch.workItem == now.ticket)
    && (now.RowSaved? ==> now.branchId < |rows| && rows[now.branchId].workItem == now.ticket)
  }

  ghost predicate Sound(state: State) {
    Unique(state.rows) && forall call :: call in state.calls ==> CallSound(state.rows, state.calls[call])
  }

  lemma RowsAfterCall(state: State, call: int, step: Step)
    requires Sound(state) && call in state.calls
    ensures var after := CallNext(state, call, state.calls[call], step);
            Unique(after.rows) && Keeps(state.rows, after.rows)
  {
    hide PickRepository, Find, BranchName.BranchNameFor, StatusAfter;
  }

  /** What a step does to the rows: an event's effect, an insert, or a pull request written to its row. */
  lemma RowsNext(world: World, state: State, step: Step)
    requires Sound(state)
    ensures Unique(Next(world, state, step).rows) && Keeps(state.rows, Next(world, state, step).rows)
  {
    hide ReadinessOf, PickBranch, Webhooks.Applied, CallNext;
    if step.Webhook? {
      WebhookRuns.EventEffect(world, step.repository, step.event, state.rows);
    } else if !step.BeginStart? && !step.BeginOpen? && !step.Fail? && step.call in state.calls {
      RowsAfterCall(state, step.call, step);
    }
  }

  lemma CallStaysSound(state: State, call: int, step: Step)
    requires Sound(state) && call in state.calls
    ensures Sound(CallNext(state, call, state.calls[call], step))
  {
    hide PickRepository, Find, BranchName.BranchNameFor, StatusAfter;
    RowsAfterCall(state, call, step);
  }

  lemma StepStaysSound(world: World, state: State, step: Step)
    requires Sound(state)
    ensures Sound(Next(world, state, step))
  {
    hide ReadinessOf, Webhooks.Applied, Find, Unique, CallNext;
    RowsNext(world, state, step);
    if !step.BeginStart? && !step.BeginOpen? && !step.Webhook? && !step.Fail? && step.call in state.calls {
      CallStaysSound(state, step.call, step);
    }
  }

  lemma {:induction false} RunStaysSound(world: World, start: State, steps: seq<Step>)
    requires Sound(start)
    ensures Sound(Run(world, start, steps)) && Keeps(start.rows, Run(world, start, steps).rows)
  {
    if steps != [] {
      hide Next, Sound;
      var before := Run(world, start, steps[..|steps| - 1]);
      RunStaysSound(world, start, steps[..|steps| - 1]);
      StepStaysSound(world, before, steps[|steps| - 1]);
      SoundRows(before);
      RowsNext(world, before, steps[|steps| - 1]);
    }
  }

  lemma SoundRows(state: State)
    requires Sound(state)
    ensures Unique(state.rows)
  {
  }

  // ------------------------------------------------------------------------------------------
  // A ticket in progress has its branch.

  /** In step k this call stores its branch, a branch of this ticket, as row i. */
  ghost predicate StoresAt(world: World, start: State, steps: seq<Step>, k: nat, call: int, i: nat, ticket: int) {
    && k < |steps| && steps[k] == SaveBranch(call)
    && var before := Run(world, start, steps[..k]);
    && call in before.calls && before.calls[call].BranchMade? && before.calls[call].branch.workItem == ticket
    && i == |before.rows|
    && Next(world, before, steps[k]).rows == before.rows + [before.calls[call].branch]
  }

  /** The calls under way have not yet stored anything. */
  ghost predicate NothingSaved(state: State) {
    forall call :: call in state.calls ==> !state.calls[call].RowSaved?
  }

  lemma StoresLater(world: World, start: State, steps: seq<Step>, n: nat, k: nat, call: int, i: nat, ticket: int)
    requires n <= |steps| && StoresAt(world, start, steps[..n], k, call, i, ticket)
    ensures StoresAt(world, start, steps, k, call, i, ticket)
  {
    assert steps[..n][..k] == steps[..k];
  }

  /** How a call comes to have saved its row. */
  lemma SavedNow(world: World, state: State, step: Step, call: int)
    requires Sound(state) && call in Next(world, state, step).calls && Next(world, state, step).calls[call].RowSaved?
    ensures var now := Next(world, state, step).calls[call];
            (call in state.calls && state.calls[call] == now) ||
            (&& step == SaveBranch(call) && call in state.calls && state.calls[call].BranchMade?
             && state.calls[call].branch.workItem == now.ticket && now.branchId == |state.rows|
             && Next(world, state, step).rows == state.rows + [state.calls[call].branch])
  {
    hide ReadinessOf, PickRepository, PickBranch, Webhooks.Applied, Find, BranchName.BranchNameFor, Unique, StatusAfter;
  }

  /** A call that has saved its row stored it in an earlier step of the run. */
  lemma {:induction false} SavedRowWasStored(world: World, start: State, steps: seq<Step>, call: int)
    requires Sound(start) && NothingSaved(start)
    requires call in Run(world, start, steps).calls && Run(world, start, steps).calls[call].RowSaved?
    ensures var now := Run(world, start, steps).calls[call];
            exists k :: 0 <= k && StoresAt(world, start, steps, k, call, now.branchId, now.ticket)
  {
    hide Next, Sound;
    if steps != [] {
      var n := |steps| - 1;
      var before := Run(world, start, steps[..n]);
      var now := Run(world, start, steps).calls[call];
      RunStaysSound(world, start, steps[..n]);
      SavedNow(world, before, steps[n], call);
      if call in before.calls && before.calls[call] == now {
        SavedRowWasStored(world, start, steps[..n], call);
        var k :| 0 <= k && StoresAt(world, start, steps[..n], k, call, now.branchId, now.ticket);
        StoresLater(world, start, steps, n, k, call, now.branchId, now.ticket);
      } else {
        assert StoresAt(world, start, steps, n, call, now.branchId, now.ticket);
      }
    }
  }

  /** Only a call that has saved its row puts a ticket in progress, and only its own. */
  lemma ProgressHasCall(world: World, state: State, step: Step, id: int)
    requires id in state.tickets
    ensures id in Next(world, state, step).tickets
    ensures var after := Next(world, state, step);
            after.tickets[id].status.InProgress? && !state.tickets[id].status.InProgress? ==>
              step.SaveStatus? && step.call in state.calls && state.calls[step.call].RowSaved?
                  && state.calls[step.call].ticket == id
  {
    hide ReadinessOf, PickRepository, PickBranch, Webhooks.Applied, Find, BranchName.BranchNameFor, Unique;
  }

  lemma {:induction false} RowsKeptSince(world: World, start: State, steps: seq<Step>, k: nat)
    requires Sound(start) && k <= |steps|
    ensures Keeps(Run(world, start, steps[..k]).rows, Run(world, start, steps).rows)
    decreases |steps|
  {
    hide Next, Sound;
    if k == |steps| {
      assert steps[..k] == steps;
    } else {
      var n := |steps| - 1;
      RowsKeptSince(world, start, steps[..n], k);
      assert steps[..n][..k] == steps[..k];
      RunStaysSound(world, start, steps[..n]);
      RowsNext(world, Run(world, start, steps[..n]), steps[n]);
    }
  }

  /** The ticket was put in progress in step n, by the call that had stored its row i in step k. */
  ghost predicate ProgressedBy(world: World, start: State, steps: seq<Step>, id: int, k: nat, n: nat, i: nat) {
    && k < n < |steps| && steps[n].SaveStatus?
    && StoresAt(world, start, steps, k, steps[n].call, i, id)
  }

  /**
   * Over every interleaving, with failures anywhere: no two rows share repository and name, no row
   * disappears, and a ticket that has come to be in progress was put there by a call that had stored
   * its branch, a row which is there still.
   */
  lemma {:induction false} ProgressNeedsBranch(world: World, start: State, steps: seq<Step>, id: int)
    requires Sound(start) && NothingSaved(start) && id in start.tickets
    ensures var end := Run(world, start, steps);
            && Unique(end.rows) && Keeps(start.rows, end.rows)
            && id in end.tickets
            && (end.tickets[id].status.InProgress? && !start.tickets[id].status.InProgress? ==>
                  exists k, n, i :: 0 <= k && 0 <= n && 0 <= i && ProgressedBy(world, start, steps, id, k, n, i) &&
                    i < |end.rows| && end.rows[i].workItem == id)
  {
    hide Next, Unique, Sound, NothingSaved, StoresAt;
    RunStaysSound(world, start, steps);
    SoundRows(Run(world, start, steps));
    if steps != [] {
      var n := |steps| - 1;
      var before, end := Run(world, start, steps[..n]), Run(world, start, steps);
      ProgressNeedsBranch(world, start, steps[..n], id);
      ProgressHasCall(world, before, steps[n], id);
      RunStaysSound(world, start, steps[..n]);
      RowsNext(world, before, steps[n]);
      if end.tickets[id].status.InProgress? && !start.tickets[id].status.InProgress? {
        if before.tickets[id].status.InProgress? {
          var k, m, i :| 0 <= k && 0 <= m && 0 <= i && ProgressedBy(world, start, steps[..n], id, k, m, i) &&
            i < |before.rows| && before.rows[i].workItem == id;
          StoresLater(world, start, steps, n, k, steps[m].call, i, id);
          assert ProgressedBy(world, start, steps, id, k, m, i);
        } else {
          var call := steps[n].call;
          SavedRowWasStored(world, start, steps[..n], call);
          var k :| 0 <= k && StoresAt(world, start, steps[..n], k, call, before.calls[call].branchId, id);
          ProgressFrom(world, start, steps, id, k, n, before.calls[call].branchId);
        }
      }
    }
  }

  lemma ProgressFrom(world: World, start: State, steps: seq<Step>, id: int, k: nat, n: nat, i: nat)
    requires Sound(start) && n < |steps| && steps[n].SaveStatus?
    requires StoresAt(world, start, steps[..n], k, steps[n].call, i, id)
    ensures ProgressedBy(world, start, steps, id, k, n, i)
    ensures i < |Run(world, start, steps).rows| && Run(world, start, steps).rows[i].workItem == id
  {
    hide Next, Sound;
    StoresLater(world, start, steps, n, k, steps[n].call, i, id);
    RowsKeptSince(world, start, steps, k + 1);
    assert steps[..k + 1][..k] == steps[..k];
  }

  // ------------------------------------------------------------------------------------------
  // The status never moves back.

  /** The order in which a ticket advances. */
  function Rank(status: Import.Status): nat {
    match status
    case Triage => 0
    case Todo => 1
    case Blocked => 2
    case InProgress => 3
    case Review => 4
    case Resolved => 5
    case Closed => 6
  }

  predicate HasRead(now: Call) {
    !now.Checked?
  }

  /** At most one call to a ticket, and what each has read is still so. */
  ghost predicate Exclusive(state: State) {
    && (forall c, d :: c in state.calls && d in state.calls && c != d ==>
          state.calls[c].ticket != state.calls[d].ticket)
    && (forall c :: c in state.calls && HasRead(state.calls[c]) ==>
          state.calls[c].ticket in state.tickets && state.calls[c].read == state.tickets[state.calls[c].ticket])
  }

  /** A call begins only when no other is under way for its ticket. */
  ghost predicate Alone(state: State, step: Step) {
    step.BeginStart? || step.BeginOpen? ==> forall c :: c in state.calls ==> state.calls[c].ticket != step.ticket
  }

  /** Same ticket, no earlier status. */
  predicate Advances(before: Ticket, after: Ticket) {
    Rank(before.status) <= Rank(after.status) && after == before.(status := after.status)
  }

  lemma CallAdvances(state: State, call: int, step: Step)
    requires Exclusive(state) && call in state.calls
    ensures var after := CallNext(state, call, state.calls[call], step);
            && Exclusive(after)
            && forall id :: id in state.tickets ==>
                 id in after.tickets && Advances(state.tickets[id], after.tickets[id])
  {
    hide PickRepository, Find, BranchName.BranchNameFor, Insert, WithPull, BranchOf;
  }

  lemma StepAdvances(world: World, state: State, step: Step)
    requires Exclusive(state) && Alone(state, step)
    ensures var after := Next(world, state, step);
            && Exclusive(after)
            && forall id :: id in state.tickets ==>
                 id in after.tickets && Advances(state.tickets[id], after.tickets[id])
  {
    hide ReadinessOf, PickBranch, Webhooks.Applied, CallNext;
    if !step.BeginStart? && !step.BeginOpen? && !step.Webhook? && !step.Fail? && step.call in state.calls {
      CallAdvances(state, step.call, step);
    }
  }

  ghost predicate AllAlone(world: World, start: State, steps: seq<Step>) {
    forall n :: 0 <= n < |steps| ==> Alone(Run(world, start, steps[..n]), steps[n])
  }

  lemma AloneSoFar(world: World, start: State, steps: seq<Step>)
    requires steps != [] && AllAlone(world, start, steps)
    ensures var n := |steps| - 1;
            AllAlone(world, start, steps[..n]) && Alone(Run(world, start, steps[..n]), steps[n])
  {
    hide Run, Alone;
    var before := steps[..|steps| - 1];
    forall m | 0 <= m < |before|
      ensures Alone(Run(world, start, before[..m]), before[m])
    {
      assert before[..m] == steps[..m];
    }
  }

  lemma StandsStill(state: State)
    ensures forall id :: id in state.tickets ==> Advances(state.tickets[id], state.tickets[id])
  {
  }

  lemma AdvancesTwice(a: State, b: State, c: State)
    requires forall id :: id in a.tickets ==> id in b.tickets && Advances(a.tickets[id], b.tickets[id])
    requires forall id :: id in b.tickets ==> id in c.tickets && Advances(b.tickets[id], c.tickets[id])
    ensures forall id :: id in a.tickets ==> id in c.tickets && Advances(a.tickets[id], c.tickets[id])
  {
  }

  /** With one call at a time for each ticket, no interleaving moves a ticket back or changes anything else of it. */
  lemma {:induction false} NeverBackwards(world: World, start: State, steps: seq<Step>)
    requires Exclusive(start) && AllAlone(world, start, steps)
    ensures var end := Run(world, start, steps);
            && Exclusive(end)
            && forall id :: id in start.tickets ==> id in end.tickets && Advances(start.tickets[id], end.tickets[id])
  {
    hide Next, Exclusive, AllAlone, Advances;
    if steps == [] {
      StandsStill(start);
    } else {
      var n := |steps| - 1;
      AloneSoFar(world, start, steps);
      NeverBackwards(world, start, steps[..n]);
      var before := Run(world, start, steps[..n]);
      StepAdvances(world, before, steps[n]);
      AdvancesTwice(start, before, Run(world, start, steps));
    }
  }

  // ------------------------------------------------------------------------------------------
  // What the order of steps does not protect.

  /** A branch is stored exactly when its name is still free; otherwise the call ends and changes nothing. */
  lemma SaveNeedsFreeName(world: World, state: State, call: int)
    requires call in state.calls && state.calls[call].BranchMade?
    ensures var branch := state.calls[call].branch;
            var after := Next(world, state, SaveBranch(call));
            if Find(state.rows, branch.repository, branch.name).None? then after.rows == state.rows + [branch]
            else after == State(state.tickets, state.rows, state.calls - {call})
  {
  }

  /**
   * GitHub announces the branch before the call has stored it: the webhook links it to the ticket, the
   * call fails on the unique constraint, the status stays where it was, and from then on the ticket
   * counts as started.
   */
  lemma WebhookWinsTheRace(world: World, state: State, call: int, repository: Repository, ref: string,
      reference: string)
    requires call in state.calls && state.calls[call].BranchMade?
    requires state.calls[call].ticket in state.tickets
    requires Find(state.rows, state.calls[call].branch.repository, state.calls[call].branch.name).None?
    requires repository.id == state.calls[call].branch.repository
    requires BranchReference.StripRefsHeads(ref) == state.calls[call].branch.name != ""
    requires BranchReference.FirstKnown(BranchReference.CandidatesOf(state.calls[call].branch.name),
                                        r => r in world.tickets) == Some(reference)
    requires reference in world.tickets && world.tickets[reference] == state.calls[call].ticket
    ensures var id, ticket := state.calls[call].ticket, state.tickets[state.calls[call].ticket];
            var after := Next(world, Next(world, state, Webhook(repository, Webhooks.BranchCreated(ref))),
                SaveBranch(call));
            && after.tickets == state.tickets
            && call !in after.calls
            && HasOpenBranch(after.rows, id)
            && forall allowed :: !ReadinessOf(id, ticket, after.rows, allowed).Ready?
  {
    hide ReadinessOf, Find, Webhooks.OnBranchCreated, HasOpenBranch, BranchReference.FirstKnown,
        BranchReference.CandidatesOf, BranchReference.StripRefsHeads;
    var now := state.calls[call];
    CreatedLinks(world, repository, ref, reference, state.rows);
    var linked := Next(world, state, Webhook(repository, Webhooks.BranchCreated(ref)));
    SaveNeedsFreeName(world, linked, call);
    forall allowed
      ensures !ReadinessOf(now.ticket, state.tickets[now.ticket], linked.rows, allowed).Ready?
    {
      OpenBranchStops(now.ticket, state.tickets[now.ticket], linked.rows, allowed);
    }
  }

  lemma CreatedLinks(world: World, repository: Repository, ref: string, reference: string, rows: seq<Row>)
    requires var name := BranchReference.StripRefsHeads(ref);
             && name != "" && Find(rows, repository.id, name).None?
             && BranchReference.FirstKnown(BranchReference.CandidatesOf(name), r => r in world.tickets) ==
                Some(reference)
    requires reference in world.tickets
    ensures var after := Webhooks.OnBranchCreated(world, repository, ref, rows);
            && HasOpenBranch(after, world.tickets[reference])
            && Find(after, repository.id, BranchReference.StripRefsHeads(ref)).Some?
  {
    hide BranchReference.FirstKnown, BranchReference.CandidatesOf, BranchReference.StripRefsHeads;
    var after := Webhooks.OnBranchCreated(world, repository, ref, rows);
    assert |after| == |rows| + 1;
    var row := after[|rows|];
    assert row.workItem == world.tickets[reference] && row.state == Open;
    assert Names(row, repository.id, BranchReference.StripRefsHeads(ref));
  }

  lemma OpenBranchStops(id: int, ticket: Ticket, rows: seq<Row>, allowed: seq<Repository>)
    requires HasOpenBranch(rows, id)
    ensures !ReadinessOf(id, ticket, rows, allowed).Ready?
  {
  }

  /**
   * In every run, whatever its ticket has become, a row keeps it from being ready for as long as its
   * branch is open.
   */
  lemma StartedWhileOpen(world: World, start: State, steps: seq<Step>, i: nat, ticket: Ticket, allowed: seq<Repository>)
    requires Sound(start) && i < |start.rows|
    ensures var end := Run(world, start, steps);
            && i < |end.rows|
            && (end.rows[i].state == Open ==> !ReadinessOf(start.rows[i].workItem, ticket, end.rows, allowed).Ready?)
  {
    hide ReadinessOf, Sound;
    RunStaysSound(world, start, steps);
    var end := Run(world, start, steps);
    if end.rows[i].state == Open {
      assert SameBranch(start.rows[i], end.rows[i]);
      OpenBranchStops(start.rows[i].workItem, ticket, end.rows, allowed);
    }
  }

  /**
   * A name once stored stays taken, whatever happens to its branch: no call to start under it will
   * ever store a row again, although the ticket is ready as soon as none of its branches is open.
   */
  lemma TakenStaysTaken(world: World, start: State, steps: seq<Step>, call: int)
    requires Sound(start)
    ensures var end := Run(world, start, steps);
            call in end.calls && end.calls[call].BranchMade? &&
            Find(start.rows, end.calls[call].branch.repository, end.calls[call].branch.name).Some? ==>
              var after := Next(world, end, SaveBranch(call));
              after.rows == end.rows && after.tickets == end.tickets && call !in after.calls
  {
    var end := Run(world, start, steps);
    RunStaysSound(world, start, steps);
    if call in end.calls && end.calls[call].BranchMade? {
      var branch := end.calls[call].branch;
      var taken := Find(start.rows, branch.repository, branch.name);
      if taken.Some? {
        assert SameBranch(start.rows[taken.value], end.rows[taken.value]);
        assert Names(end.rows[taken.value], branch.repository, branch.name);
        SaveNeedsFreeName(world, end, call);
      }
    }
  }

  /**
   * Readiness asks only whether a branch is open: a closed one takes the name and leaves the ticket as
   * ready as without it.
   */
  lemma ClosedBranchLeavesReady(id: int, ticket: Ticket, rows: seq<Row>, row: Row, allowed: seq<Repository>)
    requires row.workItem == id && row.state != Open
    ensures ReadinessOf(id, ticket, rows + [row], allowed) == ReadinessOf(id, ticket, rows, allowed)
    ensures Find(rows + [row], row.repository, row.name).Some?
  {
    hide BranchName.BranchNameFor;
    var more := rows + [row];
    if HasOpenBranch(rows, id) {
      var i :| 0 <= i < |rows| && rows[i].workItem == id && rows[i].state == Open;
      assert more[i] == rows[i];
    }
    assert HasOpenBranch(more, id) == HasOpenBranch(rows, id);
    assert Names(more[|rows|], row.repository, row.name);
  }

  /** Saving a pull request writes the whole branch as it was read: its state survives only if it is still that one. */
  lemma StaleBranchIsWritten(world: World, state: State, call: int)
    requires Sound(state) && call in state.calls && state.calls[call].PullMade?
    ensures var now, after := state.calls[call], Next(world, state, SavePull(call));
            && after.rows[now.branchId].state == now.branch.state
            && (after.rows[now.branchId].state == state.rows[now.branchId].state <==>
               state.rows[now.branchId].state == now.branch.state)
            && forall i :: 0 <= i < |state.rows| && i != now.branchId ==> after.rows[i] == state.rows[i]
  {
  }

  /** So a branch deleted while its pull request is being opened is open again afterwards. */
  lemma DeletedWhileOpening(world: World, state: State, call: int, repository: Repository, ref: string, pull: Pull)
    requires Sound(state) && call in state.calls && state.calls[call].Opening?
    requires state.calls[call].branch.state == Open == state.rows[state.calls[call].branchId].state
    requires Names(state.calls[call].branch, repository.id, BranchReference.StripRefsHeads(ref))
    requires BranchReference.StripRefsHeads(ref) != ""
    ensures var id := state.calls[call].branchId;
            var deleted := Next(world, state, Webhook(repository, Webhooks.BranchDeleted(ref)));
            var saved := Next(world, Next(world, deleted, MakePull(call, Some(pull))), SavePull(call));
            deleted.rows[id].state == Deleted && saved.rows[id].state == Open
  {
  }

  /** The step saves a pull request to row i. */
  predicate SavesPull(state: State, step: Step, i: nat) {
    && step.SavePull? && step.call in state.calls
    && state.calls[step.call].PullMade? && state.calls[step.call].branchId == i
  }

  /** It writes the branch as it was read while open. */
  predicate WritesOpen(state: State, step: Step, i: nat) {
    SavesPull(state, step, i) && state.calls[step.call].branch.state == Open
  }

  /** The step takes row i off open: an event of its branch, or a branch written that was read when no longer open. */
  predicate TakesOff(state: State, step: Step, i: nat)
    requires i < |state.rows|
  {
    || (SavesPull(state, step, i) && state.calls[step.call].branch.state != Open)
    || (step.Webhook? && WebhookRuns.StateAfter(step.repository, step.event, state.rows[i]) != Open)
  }

  lemma StateAfterCall(state: State, step: Step, i: nat)
    requires !step.BeginStart? && !step.BeginOpen? && !step.Fail? && !step.Webhook?
    requires Sound(state) && i < |state.rows| && step.call in state.calls
    ensures var after := CallNext(state, step.call, state.calls[step.call], step);
            && i < |after.rows|
            && (after.rows[i].state == Open <==>
               WritesOpen(state, step, i) || (state.rows[i].state == Open && !TakesOff(state, step, i)))
  {
    hide PickRepository, Find, BranchName.BranchNameFor, StatusAfter, WithPull, BranchOf, Unique;
  }

  lemma StateNext(world: World, state: State, step: Step, i: nat)
    requires Sound(state) && i < |state.rows|
    ensures var after := Next(world, state, step);
            && i < |after.rows|
            && (after.rows[i].state == Open <==>
               WritesOpen(state, step, i) || (state.rows[i].state == Open && !TakesOff(state, step, i)))
  {
    hide ReadinessOf, PickBranch, Webhooks.Applied, CallNext, Unique, WebhookRuns.StateAfter;
    if step.Webhook? {
      SoundRows(state);
      WebhookRuns.EventEffect(world, step.repository, step.event, state.rows);
      OpenStays(step.repository, step.event, state.rows[i]);
    } else if !step.BeginStart? && !step.BeginOpen? && !step.Fail? && step.call in state.calls {
      StateAfterCall(state, step, i);
    }
  }

  lemma OpenStays(repository: Repository, event: Webhooks.Event, row: Row)
    ensures row.state != Open ==> WebhookRuns.StateAfter(repository, event, row) != Open
  {
  }

  /**
   * In step n a pull request is saved to row i that was read while the branch was open, and nothing
   * takes it off open after that.
   */
  ghost predicate ReopenedFor(world: World, start: State, steps: seq<Step>, n: nat, i: nat) {
    && n < |steps|
    && WritesOpen(Run(world, start, steps[..n]), steps[n], i)
    && forall m :: n < m < |steps| && i < |Run(world, start, steps[..m]).rows| ==>
         !TakesOff(Run(world, start, steps[..m]), steps[m], i)
  }

  lemma ReopenedGrows(world: World, start: State, steps: seq<Step>, n: nat, i: nat)
    requires steps != [] && n < |steps| - 1
    ensures var last := |steps| - 1;
            ReopenedFor(world, start, steps, n, i) <==>
              && ReopenedFor(world, start, steps[..last], n, i)
              && (i < |Run(world, start, steps[..last]).rows| ==>
                 !TakesOff(Run(world, start, steps[..last]), steps[last], i))
  {
    hide Run, WritesOpen, TakesOff;
    var last := |steps| - 1;
    assert forall m :: 0 <= m <= last ==> steps[..last][..m] == steps[..m];
  }

  /**
   * Exactly when a branch that is no longer open is open again: a call has saved a pull request with
   * the branch as it read it while open, and nothing has taken it off open after that save. No other
   * step of any run reopens a branch.
   */
  lemma {:induction false} ReopensExactly(world: World, start: State, steps: seq<Step>, k: nat, i: nat)
    requires Sound(start) && k <= |steps| && i < |Run(world, start, steps[..k]).rows|
    requires Run(world, start, steps[..k]).rows[i].state != Open
    ensures i < |Run(world, start, steps).rows|
    ensures Run(world, start, steps).rows[i].state == Open <==>
        exists n: nat :: k <= n && ReopenedFor(world, start, steps, n, i)
    decreases |steps|
  {
    hide Next, Sound, WritesOpen, TakesOff, ReopenedFor;
    if k == |steps| {
      assert steps[..k] == steps;
      NotYet(world, start, steps, i);
    } else {
      var last := |steps| - 1;
      var before := steps[..last];
      assert before[..k] == steps[..k];
      ReopensExactly(world, start, before, k, i);
      RunStaysSound(world, start, before);
      StateNext(world, Run(world, start, before), steps[last], i);
      ReopenedLast(world, start, steps, i);
      NotYet(world, start, steps, i);
      forall n: nat | n < last
        ensures ReopenedFor(world, start, steps, n, i) <==>
                  ReopenedFor(world, start, before, n, i) && !TakesOff(Run(world, start, before), steps[last], i)
      {
        ReopenedGrows(world, start, steps, n, i);
      }
      NotYet(world, start, before, i);
    }
  }

  lemma NotYet(world: World, start: State, steps: seq<Step>, i: nat)
    ensures forall n: nat :: ReopenedFor(world, start, steps, n, i) ==> n < |steps|
  {
  }

  lemma ReopenedLast(world: World, start: State, steps: seq<Step>, i: nat)
    requires steps != []
    ensures var last := |steps| - 1;
            ReopenedFor(world, start, steps, last, i) <==> WritesOpen(Run(world, start, steps[..last]), steps[last], i)
  {
  }

  /**
   * Exactly when saving a status moves a ticket back: the call read it early enough to write, and by
   * now it is past what is written.
   */
  lemma SaveLowersExactly(world: World, state: State, call: int)
    requires call in state.calls && (state.calls[call].RowSaved? || state.calls[call].PullSaved?)
    requires state.calls[call].ticket in state.tickets
    ensures var now, after := state.calls[call], Next(world, state, SaveStatus(call));
            var was, read := state.tickets[now.ticket].status, now.read.status;
            Rank(after.tickets[now.ticket].status) < Rank(was) <==>
              if now.RowSaved? then (read.Triage? || read.Todo? || read.Blocked?) && Rank(was) > Rank(Import.InProgress)
              else (read.Todo? || read.InProgress?) && Rank(was) > Rank(Import.Review)
  {
  }

  /** Two calls at once for one ticket can move it back: the one that stored its branch writes what it read. */
  lemma TwoCallsMoveBack(world: World, state: State, starting: int, opening: int, id: int)
    requires starting in state.calls && state.calls[starting].RowSaved? && state.calls[starting].ticket == id
    requires opening in state.calls && state.calls[opening].PullSaved? && state.calls[opening].ticket == id
    requires id in state.tickets && state.tickets[id].status.Todo?
    requires state.calls[starting].read == state.tickets[id] == state.calls[opening].read
    ensures var first := Next(world, state, SaveStatus(opening));
            var second := Next(world, first, SaveStatus(starting));
            && id in first.tickets && first.tickets[id].status.Review?
            && id in second.tickets && second.tickets[id].status.InProgress?
            && Rank(second.tickets[id].status) < Rank(first.tickets[id].status)
  {
  }

  // ------------------------------------------------------------------------------------------
  // Runs from a table at rest to each of these.

  lemma RunGrows(world: World, start: State, steps: seq<Step>, step: Step) returns (grown: seq<Step>)
    ensures grown == steps + [step] && Run(world, start, grown) == Next(world, Run(world, start, steps), step)
  {
    grown := steps + [step];
    assert grown[..|grown| - 1] == steps;
  }

  /** The branch a call makes for a ticket when it can start. */
  function RowMade(tickets: map<int, Ticket>, rows: seq<Row>, id: int, allowed: seq<Repository>, options: StartOptions,
      actor: string, answer: (string, bool)): Row
    requires CanStart(tickets, rows, id, allowed, options, Some(answer))
  {
    var ticket, repository := tickets[id], PickRepository(allowed, options.repositoryId).value;
    var name := BranchName.BranchNameFor(ticket.kind, ticket.reference.value, ticket.title, options.prefix).value;
    RowFor(id, repository, name, options, actor, answer)
  }

  /** A call that can start comes, from rest, to have its branch made and not yet stored. */
  lemma ComesToMake(world: World, tickets: map<int, Ticket>, rows: seq<Row>, id: int, allowed: seq<Repository>,
      options: StartOptions, actor: string, answer: (string, bool)) returns (steps: seq<Step>)
    requires CanStart(tickets, rows, id, allowed, options, Some(answer))
    ensures var row := RowMade(tickets, rows, id, allowed, options, actor, answer);
            Run(world, State(tickets, rows, map[]), steps) ==
                State(tickets, rows, map[1 := BranchMade(id, tickets[id], row)])
  {
    hide BranchName.BranchNameFor, PickRepository, Find, ReadinessOf;
    ReadyHasReference(id, tickets[id], rows, allowed);
    var start := State(tickets, rows, map[]);
    assert Run(world, start, []) == start;
    steps := RunGrows(world, start, [], BeginStart(1, id, allowed, options, actor));
    steps := RunGrows(world, start, steps, Reread(1));
    steps := RunGrows(world, start, steps, MakeBranch(1, Some(answer)));
  }

  /** The race is reached from rest: the ticket is left where it was, with an open branch and no call under way. */
  lemma RaceIsReached(world: World, tickets: map<int, Ticket>, rows: seq<Row>, id: int, allowed: seq<Repository>,
      options: StartOptions, actor: string, answer: (string, bool), repository: Repository, reference: string)
    requires CanStart(tickets, rows, id, allowed, options, Some(answer))
    requires var name := RowMade(tickets, rows, id, allowed, options, actor, answer).name;
             && repository.id == RowMade(tickets, rows, id, allowed, options, actor, answer).repository
             && name != "" && BranchReference.StripRefsHeads(name) == name
             && BranchReference.FirstKnown(BranchReference.CandidatesOf(name), r => r in world.tickets) ==
                Some(reference)
    requires reference in world.tickets && world.tickets[reference] == id
    ensures exists steps :: var end := Run(world, State(tickets, rows, map[]), steps);
              end.tickets == tickets && end.calls == map[] && HasOpenBranch(end.rows, id)
  {
    hide CanStart, RowMade, Find, BranchReference.FirstKnown, BranchReference.CandidatesOf,
        BranchReference.StripRefsHeads;
    var start := State(tickets, rows, map[]);
    var row := RowMade(tickets, rows, id, allowed, options, actor, answer);
    MadeIsFree(tickets, rows, id, allowed, options, actor, answer);
    var steps := ComesToMake(world, tickets, rows, id, allowed, options, actor, answer);
    var made := Run(world, start, steps);
    WebhookWinsTheRace(world, made, 1, repository, row.name, reference);
    steps := RunGrows(world, start, steps, Webhook(repository, Webhooks.BranchCreated(row.name)));
    steps := RunGrows(world, start, steps, SaveBranch(1));
    SavedCallEnds(world, made, repository, row.name);
  }

  lemma SavedCallEnds(world: World, made: State, repository: Repository, ref: string)
    requires made.calls.Keys == {1} && made.calls[1].BranchMade?
    ensures var after := Next(world, Next(world, made, Webhook(repository, Webhooks.BranchCreated(ref))),
        SaveBranch(1));
            1 !in after.calls ==> after.calls == map[]
  {
    hide Webhooks.Applied, Find;
  }

  lemma MadeIsFree(tickets: map<int, Ticket>, rows: seq<Row>, id: int, allowed: seq<Repository>, options: StartOptions,
      actor: string, answer: (string, bool))
    requires CanStart(tickets, rows, id, allowed, options, Some(answer))
    ensures var row := RowMade(tickets, rows, id, allowed, options, actor, answer);
            Find(rows, row.repository, row.name).None? && row.workItem == id && row.state == Open && row.prNumber.None?
    ensures id in tickets
  {
    hide BranchName.BranchNameFor, PickRepository, Find, ReadinessOf;
  }

  /** Two calls for one ticket, from rest: it reaches review, and then goes back to in progress. */
  lemma MoveBackIsReached(world: World, tickets: map<int, Ticket>, id: int, allowed: seq<Repository>,
      options: StartOptions, actor: string, answer: (string, bool), pull: Pull)
    requires CanStart(tickets, [], id, allowed, options, Some(answer)) && tickets[id].status.Todo?
    requires ById(world.repositories, RowMade(tickets, [], id, allowed, options, actor, answer).repository).Some?
    ensures exists steps, step :: GoesBack(world, State(tickets, [], map[]), steps, step, id)
  {
    hide CanStart, RowMade, Next, ById;
    var start := State(tickets, [], map[]);
    var row := RowMade(tickets, [], id, allowed, options, actor, answer);
    MadeIsFree(tickets, [], id, allowed, options, actor, answer);
    BothCallsSave(world, tickets, row, pull);
    var steps := ComesToMake(world, tickets, [], id, allowed, options, actor, answer);
    steps := RunGrows(world, start, steps, SaveBranch(1));
    steps := RunGrows(world, start, steps, BeginOpen(2, id, None));
    steps := RunGrows(world, start, steps, MakePull(2, Some(pull)));
    steps := RunGrows(world, start, steps, SavePull(2));
    TwoCallsMoveBack(world, Run(world, start, steps), 1, 2, id);
    steps := RunGrows(world, start, steps, SaveStatus(2));
    var more := RunGrows(world, start, steps, SaveStatus(1));
    assert GoesBack(world, start, steps, SaveStatus(1), id);
  }

  /** One call stores its branch, and before it saves the status another opens the branch's pull request. */
  lemma BothCallsSave(world: World, tickets: map<int, Ticket>, row: Row, pull: Pull)
    requires row.workItem in tickets && row.state == Open && row.prNumber.None?
        && ById(world.repositories, row.repository).Some?
    ensures var id := row.workItem;
            var stored := Next(world, State(tickets, [], map[1 := BranchMade(id, tickets[id], row)]), SaveBranch(1));
            var made := Next(world, Next(world, stored, BeginOpen(2, id, None)), MakePull(2, Some(pull)));
            Next(world, made, SavePull(2)) ==
            State(tickets, [WithPull(row, pull)],
                map[1 := RowSaved(id, tickets[id], 0), 2 := PullSaved(id, tickets[id])])
  {
    hide PickBranch, ById;
    var id := row.workItem;
    var stored := Next(world, State(tickets, [], map[1 := BranchMade(id, tickets[id], row)]), SaveBranch(1));
    assert stored == State(tickets, [row], map[1 := RowSaved(id, tickets[id], 0)]);
    PicksExactly([row], id, None, 0);
    var read := Next(world, stored, BeginOpen(2, id, None));
    assert read.calls[2] == Opening(id, tickets[id], 0, row);
  }

  ghost predicate GoesBack(world: World, start: State, steps: seq<Step>, step: Step, id: int) {
    var review, after := Run(world, start, steps), Run(world, start, steps + [step]);
    && id in review.tickets && review.tickets[id].status.Review?
    && id in after.tickets && after.tickets[id].status.InProgress?
  }

  // ------------------------------------------------------------------------------------------
  // The race and the move back are open to any ticket.

  /** Technical, to do, with a key and a project. */
  predicate IsOrdinary(ticket: Ticket) {
    && IsTechnical(ticket.kind) && ticket.status.Todo?
    && ticket.reference.Some? && BranchNameProofs.IsKey(ticket.reference.value)
    && ticket.projectId.Some?
  }

  const DEFAULTS := StartOptions(None, None, None)

  /** No composed name starts with `refs/heads/`. */
  lemma NameIsPlain(kind: BranchName.WorkItemType, key: string, title: string)
    requires BranchName.BranchNameFor(kind, key, title, None).Some?
    ensures var name := BranchName.BranchNameFor(kind, key, title, None).value;
            name != "" && BranchReference.StripRefsHeads(name) == name
  {
    hide BranchName.SanitiseSegment, BranchName.Slugify, BranchName.TrimEnd;
    var name := BranchName.BranchNameFor(kind, key, title, None).value;
    assert name[0] == BranchName.PrefixText(BranchName.PrefixFor(kind))[0];
    assert BranchReference.REFS_HEADS[0] == 'r';
  }

  lemma KeyIsNamed(kind: BranchName.WorkItemType, key: string, title: string)
    requires BranchNameProofs.IsKey(key)
    ensures key != "" && BranchName.BranchNameFor(kind, key, title, None).Some?
  {
    hide BranchName.SanitiseSegment, BranchName.Slugify, BranchName.TrimEnd;
    BranchNameProofs.KeyIsKept(key);
  }

  /** With one repository allowed and no branch stored yet, work on an ordinary ticket can start. */
  lemma OrdinaryCanStart(tickets: map<int, Ticket>, id: int, repository: Repository, actor: string,
      answer: (string, bool))
    requires id in tickets && IsOrdinary(tickets[id])
    ensures CanStart(tickets, [], id, [repository], DEFAULTS, Some(answer))
    ensures var row := RowMade(tickets, [], id, [repository], DEFAULTS, actor, answer);
            && row.repository == repository.id
            && BranchName.BranchNameFor(tickets[id].kind, tickets[id].reference.value, tickets[id].title, None) ==
               Some(row.name)
  {
    hide BranchName.BranchNameFor, BranchNameProofs.IsKey;
    var ticket := tickets[id];
    KeyIsNamed(ticket.kind, ticket.reference.value, ticket.title);
    assert ReadinessOf(id, ticket, [], [repository]).Ready?;
  }

  /**
   * Both are reached from rest for every ordinary ticket whose key alone is known, with one repository
   * and no branch stored yet.
   */
  lemma OrdinaryTicketRaces(tickets: map<int, Ticket>, id: int, repository: Repository, actor: string,
      answer: (string, bool), pull: Pull)
    requires id in tickets && IsOrdinary(tickets[id])
    ensures var world, start := Webhooks.World([repository], map[tickets[id].reference.value := id]),
        State(tickets, [], map[]);
            && (exists steps :: var end := Run(world, start, steps);
                  end.tickets == tickets && end.calls == map[] && HasOpenBranch(end.rows, id))
            && (exists steps, step :: GoesBack(world, start, steps, step, id))
  {
    hide BranchName.BranchNameFor, BranchReference.CandidatesOf, BranchReference.FirstKnown,
        BranchReference.StripRefsHeads, CanStart, RowMade, Run, GoesBack, HasOpenBranch;
    var ticket, key := tickets[id], tickets[id].reference.value;
    var world := Webhooks.World([repository], map[key := id]);
    OrdinaryCanStart(tickets, id, repository, actor, answer);
    NameIsPlain(ticket.kind, key, ticket.title);
    BranchReference.KeyIsFoundAgain(ticket.kind, key, ticket.title, None, r => r in world.tickets);
    RaceIsReached(world, tickets, [], id, [repository], DEFAULTS, actor, answer, repository, key);
    MoveBackIsReached(world, tickets, id, [repository], DEFAULTS, actor, answer, pull);
  }

  /**
   * From rest: a branch deleted between the two steps of opening its pull request is open in the end,
   * with no call under way.
   */
  lemma ReopeningIsReached(world: World, tickets: map<int, Ticket>, row: Row, repository: Repository, pull: Pull)
    requires row.workItem in tickets && row.state == Open && row.prNumber.None?
    requires repository.id == row.repository && ById(world.repositories, row.repository).Some?
    requires row.name != "" && BranchReference.StripRefsHeads(row.name) == row.name
    ensures exists steps ::
              Reopens(world, State(tickets, [row], map[]), steps, Webhook(repository, Webhooks.BranchDeleted(row.name)))
  {
    hide Next, ById, BranchReference.StripRefsHeads;
    var start, id := State(tickets, [row], map[]), row.workItem;
    var deletion := Webhook(repository, Webhooks.BranchDeleted(row.name));
    var read := State(tickets, [row], map[2 := Opening(id, tickets[id], 0, row)]);
    OpeningReads(world, tickets, row);
    OpeningEnds(world, tickets, row, repository, pull);
    assert Run(world, start, []) == start;
    var steps := RunGrows(world, start, [], BeginOpen(2, id, None));
    steps := RunGrows(world, start, steps, deletion);
    assert deletion in steps;
    steps := RunGrows(world, start, steps, MakePull(2, Some(pull)));
    steps := RunGrows(world, start, steps, SavePull(2));
    steps := RunGrows(world, start, steps, SaveStatus(2));
    assert Reopens(world, start, steps, deletion);
  }

  lemma OpeningReads(world: World, tickets: map<int, Ticket>, row: Row)
    requires row.workItem in tickets && row.state == Open && row.prNumber.None?
        && ById(world.repositories, row.repository).Some?
    ensures Next(world, State(tickets, [row], map[]), BeginOpen(2, row.workItem, None)) ==
            State(tickets, [row], map[2 := Opening(row.workItem, tickets[row.workItem], 0, row)])
  {
    hide PickBranch, ById;
    PicksExactly([row], row.workItem, None, 0);
  }

  lemma OpeningEnds(world: World, tickets: map<int, Ticket>, row: Row, repository: Repository, pull: Pull)
    requires row.workItem in tickets && row.state == Open && repository.id == row.repository
    requires row.name != "" && BranchReference.StripRefsHeads(row.name) == row.name
    ensures var read := State(tickets, [row], map[2 := Opening(row.workItem, tickets[row.workItem], 0, row)]);
            var deleted := Next(world, read, Webhook(repository, Webhooks.BranchDeleted(row.name)));
            var end := Next(world, Next(world, Next(world, deleted, MakePull(2, Some(pull))), SavePull(2)),
                SaveStatus(2));
            end.calls == map[] && |end.rows| == 1 && end.rows[0].state == Open
  {
    hide Webhooks.Applied, StatusAfter, BranchReference.StripRefsHeads;
    var now := Opening(row.workItem, tickets[row.workItem], 0, row);
    var read := State(tickets, [row], map[2 := now]);
    WebhookRuns.EventEffect(world, repository, Webhooks.BranchDeleted(row.name), [row]);
    var deleted := Next(world, read, Webhook(repository, Webhooks.BranchDeleted(row.name)));
    var made := Next(world, deleted, MakePull(2, Some(pull)));
    assert made == State(tickets, deleted.rows,
        map[2 := PullMade(row.workItem, tickets[row.workItem], 0, WithPull(row, pull))]);
    var saved := Next(world, made, SavePull(2));
    assert saved == State(tickets, [WithPull(row, pull)], map[2 := PullSaved(row.workItem, tickets[row.workItem])]);
  }

  /** The run takes this step and ends at rest, with its one branch open. */
  ghost predicate Reopens(world: World, start: State, steps: seq<Step>, deletion: Step) {
    var end := Run(world, start, steps);
    deletion in steps && end.calls == map[] && |end.rows| == 1 && end.rows[0].state == Open
  }
}
