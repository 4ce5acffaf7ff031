/**
 * Starting work on a ticket and opening its pull request: each call reads, waits for GitHub, then
 * writes the branch and the ticket, and other calls and webhooks may step in between.
 */
module StartWork {
  import opened Wrappers
  import opened BranchTable
  import BranchName
  import Import
  import Webhooks

  type Repository = Webhooks.Repository
  type Status = Import.Status

  datatype Ticket = Ticket(
    kind: BranchName.WorkItemType,
    status: Status,
    reference: Option<string>,
    title: string,
    projectId: Option<string>,
    domainId: Option<string>)

  datatype Blocker = NotTechnical | Closed | AlreadyStarted | NoReference | NoProject | NoRepository

  /** `Unnameable` stands for the exception of a reference that leaves no branch name. */
  datatype Readiness =
    | NotReady(blocker: Blocker)
    | Unnameable
    | Ready(repositories: seq<Repository>, branchName: string)

  predicate IsTechnical(kind: BranchName.WorkItemType) {
    !kind.Ops? && !kind.Epic?
  }

  predicate HasOpenBranch(rows: seq<Row>, ticket: int) {
    exists i :: 0 <= i < |rows| && rows[i].workItem == ticket && rows[i].state == Open
  }

  /** Whether work can start; `allowed` is what the repository registry allows for this ticket. */
  function ReadinessOf(id: int, ticket: Ticket, rows: seq<Row>, allowed: seq<Repository>): Readiness {
    if !IsTechnical(ticket.kind) then NotReady(NotTechnical)
    else if ticket.status.Resolved? || ticket.status.Closed? then NotReady(Blocker.Closed)
    else if HasOpenBranch(rows, id) then NotReady(AlreadyStarted)
    else if ticket.reference.Or(Some("")) == Some("") then NotReady(NoReference)
    else if ticket.projectId.None? && ticket.domainId.None? then NotReady(NoProject)
    else if allowed == [] then NotReady(NoRepository)
    else
      match BranchName.BranchNameFor(ticket.kind, ticket.reference.value, ticket.title, None)
      case None => Unnameable
      case Some(name) => Ready(allowed, name)
  }

  function ById(repositories: seq<Repository>, id: string): Option<Repository> {
    if repositories == [] then None
    else if repositories[0].id == id then Some(repositories[0])
    else ById(repositories[1..], id)
  }

  /** An explicit choice must be allowed; without one, an empty text included, there must be nothing to choose. */
  function PickRepository(allowed: seq<Repository>, requested: Option<string>): Option<Repository> {
    if requested.Some? && requested.value != "" then ById(allowed, requested.value)
    else if |allowed| == 1 then Some(allowed[0])
    else None
  }

  /** The i-th repository is the first one allowed with the id asked for; or, with none asked for, the only one. */
  ghost predicate IsChoice(allowed: seq<Repository>, requested: Option<string>, i: int) {
    && 0 <= i < |allowed|
    && if requested.Or(Some("")) == Some("") then |allowed| == 1
       else allowed[i].id == requested.value && forall j :: 0 <= j < i ==> allowed[j].id != requested.value
  }

  lemma {:induction false} ByIdFinds(repositories: seq<Repository>, id: string, r: Repository)
    ensures ById(repositories, id) == Some(r) <==>
            exists i :: 0 <= i < |repositories| && repositories[i] == r && r.id == id &&
              forall j :: 0 <= j < i ==> repositories[j].id != id
  {
    if repositories != [] {
      var rest := repositories[1..];
      ByIdFinds(rest, id, r);
      if repositories[0].id != id {
        if i :| 0 <= i < |rest| && rest[i] == r && r.id == id && forall j :: 0 <= j < i ==> rest[j].id != id {
          assert repositories[i + 1] == r;
          assert forall j :: 0 < j < i + 1 ==> repositories[j] == rest[j - 1];
        }
        if i :| 0 <= i < |repositories| && repositories[i] == r && r.id == id &&
                forall j :: 0 <= j < i ==> repositories[j].id != id {
          assert rest[i - 1] == r;
          assert forall j :: 0 <= j < i - 1 ==> rest[j] == repositories[j + 1];
        }
      } else if i :| 0 <= i < |repositories| && repositories[i] == r && r.id == id &&
                     forall j :: 0 <= j < i ==> repositories[j].id != id {
        assert i == 0;
      }
    }
  }

  /** Exactly which repository is taken: the first allowed one of the id asked for, or the only one; else none. */
  lemma PicksRepository(allowed: seq<Repository>, requested: Option<string>, r: Repository)
    ensures PickRepository(allowed, requested) == Some(r) <==>
            exists i :: IsChoice(allowed, requested, i) && allowed[i] == r
  {
    if requested.Or(Some("")) == Some("") {
      if |allowed| == 1 {
        assert IsChoice(allowed, requested, 0);
      }
    } else {
      ByIdFinds(allowed, requested.value, r);
      if i :| 0 <= i < |allowed| && allowed[i] == r && r.id == requested.value &&
              forall j :: 0 <= j < i ==> allowed[j].id != requested.value {
        assert IsChoice(allowed, requested, i);
      }
    }
  }

  /** Exactly when work can start, and what stands in its way otherwise: the first of these, in this order. */
  lemma ReadyExactly(id: int, ticket: Ticket, rows: seq<Row>, allowed: seq<Repository>)
    ensures var readiness := ReadinessOf(id, ticket, rows, allowed);
            var technical := ticket.kind != BranchName.Ops && ticket.kind != BranchName.Epic;
            var over := ticket.status == Import.Resolved || ticket.status == Import.Closed;
            var started := exists i :: 0 <= i < |rows| && rows[i].workItem == id && rows[i].state == Open;
            var keyed := ticket.reference.Some? && ticket.reference.value != "";
            var placed := ticket.projectId.Some? || ticket.domainId.Some?;
            && (readiness == NotReady(NotTechnical) <==> !technical)
            && (readiness == NotReady(Blocker.Closed) <==> technical && over)
            && (readiness == NotReady(AlreadyStarted) <==> technical && !over && started)
            && (readiness == NotReady(NoReference) <==> technical && !over && !started && !keyed)
            && (readiness == NotReady(NoProject) <==> technical && !over && !started && keyed && !placed)
            && (readiness == NotReady(NoRepository) <==>
                  technical && !over && !started && keyed && placed && allowed == [])
            && (readiness.Ready? || readiness.Unnameable? <==>
                  technical && !over && !started && keyed && placed && allowed != [])
            && (readiness.Ready? ==>
                  && readiness.repositories == allowed
                  && BranchName.BranchNameFor(ticket.kind, ticket.reference.value, ticket.title, None) ==
                     Some(readiness.branchName))
            && (readiness.Unnameable? ==>
                  BranchName.BranchNameFor(ticket.kind, ticket.reference.value, ticket.title, None) == None)
  {
    hide BranchName.BranchNameFor;
    assert HasOpenBranch(rows, id) <==> exists i :: 0 <= i < |rows| && rows[i].workItem == id && rows[i].state == Open;
  }

  /** The ids of a ticket's open branches among the first n rows. */
  function OpenIds(rows: seq<Row>, ticket: int, n: nat): (ids: seq<nat>)
    requires n <= |rows|
    ensures forall id: nat :: id in ids <==> id < n && IsOpenOf(rows, ticket, id)
  {
    if n == 0 then [] else OpenIds(rows, ticket, n - 1) + (if IsOpenOf(rows, ticket, n - 1) then [n - 1] else [])
  }

  predicate IsOpenOf(rows: seq<Row>, ticket: int, id: nat) {
    id < |rows| && rows[id].workItem == ticket && rows[id].state == Open
  }

  /** The branch asked for, when it is the ticket's; or else its only open one. */
  function PickBranch(rows: seq<Row>, ticket: int, requested: Option<nat>): (picked: Option<nat>)
    ensures picked.Some? ==> picked.value < |rows| && rows[picked.value].workItem == ticket
    ensures picked.Some? && requested.None? ==> IsOpenOf(rows, ticket, picked.value)
  {
    if requested.Some? then
      if requested.value < |rows| && rows[requested.value].workItem == ticket then requested else None
    else
      var ids := OpenIds(rows, ticket, |rows|);
      if |ids| == 1 then (assert ids[0] in ids; Some(ids[0])) else None
  }

  ghost predicate IsOnlyOpen(rows: seq<Row>, ticket: int, id: nat) {
    IsOpenOf(rows, ticket, id) && forall other :: IsOpenOf(rows, ticket, other) ==> other == id
  }

  lemma {:induction false} OpenIdsOnce(rows: seq<Row>, ticket: int, n: nat)
    requires n <= |rows|
    ensures forall i, j :: 0 <= i < j < |OpenIds(rows, ticket, n)| ==>
              OpenIds(rows, ticket, n)[i] < OpenIds(rows, ticket, n)[j]
  {
    if n > 0 {
      var before := OpenIds(rows, ticket, n - 1);
      OpenIdsOnce(rows, ticket, n - 1);
      forall i | 0 <= i < |before|
        ensures before[i] < n - 1
      {
        assert before[i] in before;
      }
    }
  }

  /**
   * Exactly which branch is picked: the one asked for if it is the ticket's, or the only open one; and
   * none otherwise.
   */
  lemma PicksExactly(rows: seq<Row>, ticket: int, requested: Option<nat>, id: nat)
    ensures PickBranch(rows, ticket, requested) == Some(id) <==>
            if requested.Some? then requested.value == id && id < |rows| && rows[id].workItem == ticket
            else IsOnlyOpen(rows, ticket, id)
  {
    var ids := OpenIds(rows, ticket, |rows|);
    OpenIdsOnce(rows, ticket, |rows|);
    assert forall i :: 0 <= i < |ids| ==> ids[i] in ids;
    if |ids| > 1 {
      assert ids[0] != ids[1] && IsOpenOf(rows, ticket, ids[0]) && IsOpenOf(rows, ticket, ids[1]);
    }
  }

  // ------------------------------------------------------------------------------------------
  // Calls, step by step.

  datatype StartOptions = StartOptions(repositoryId: Option<string>, baseBranch: Option<string>,
      prefix: Option<BranchName.Prefix>)

  /** The pull request GitHub answers with. */
  datatype Pull = Pull(number: int, url: string, merged: bool, closed: bool)

  /** A call under way, with the ticket and the branch as it read them. */
  datatype Call =
    | Checked(ticket: int, allowed: seq<Repository>, options: StartOptions, actor: string)
    | Starting(ticket: int, read: Ticket, repository: Repository, baseBranch: string, name: string, actor: string)
    | BranchMade(ticket: int, read: Ticket, branch: Row)
    | RowSaved(ticket: int, read: Ticket, branchId: nat)
    | Opening(ticket: int, read: Ticket, branchId: nat, branch: Row)
    | PullMade(ticket: int, read: Ticket, branchId: nat, branch: Row)
    | PullSaved(ticket: int, read: Ticket)

  datatype State = State(tickets: map<int, Ticket>, rows: seq<Row>, calls: map<int, Call>)

  datatype Step =
    | BeginStart(call: int, ticket: int, allowed: seq<Repository>, options: StartOptions, actor: string)
    | Reread(call: int)
    | MakeBranch(call: int, answer: Option<(string, bool)>)
    | SaveBranch(call: int)
    | BeginOpen(call: int, ticket: int, requested: Option<nat>)
    | MakePull(call: int, pull: Option<Pull>)
    | SavePull(call: int)
    | SaveStatus(call: int)
    | Fail(call: int)
    | Webhook(repository: Repository, event: Webhooks.Event)

  function Ended(state: State, call: int): State {
    state.(calls := state.calls - {call})
  }

  function At(state: State, call: int, now: Call): State {
    state.(calls := state.calls[call := now])
  }

  function Started(state: State, call: int, ticket: int, allowed: seq<Repository>, options: StartOptions,
      actor: string): State {
    if ticket in state.tickets && ReadinessOf(ticket, state.tickets[ticket], state.rows, allowed).Ready?
    then At(state, call, Checked(ticket, allowed, options, actor))
    else state
  }

  function ReadAgain(state: State, call: int, now: Call): State
    requires now.Checked?
  {
    if now.ticket !in state.tickets then Ended(state, call)
    else
      var ticket := state.tickets[now.ticket];
      var repository := PickRepository(now.allowed, now.options.repositoryId);
      if repository.None? || ticket.reference.None? then Ended(state, call)
      else
        var name := BranchName.BranchNameFor(ticket.kind, ticket.reference.value, ticket.title, now.options.prefix);
        if name.None? then Ended(state, call)
        else
          var baseBranch := now.options.baseBranch.Or(Some(repository.value.defaultBranch)).value;
          At(state, call, Starting(now.ticket, ticket, repository.value, baseBranch, name.value, now.actor))
  }

  /** GitHub makes the branch, or says that it is there already; no answer is a failure. */
  function BranchOf(now: Call, sha: string, created: bool): Row
    requires now.Starting?
  {
    Row(now.ticket, now.repository.id, now.name, now.baseBranch, Some(sha), Open, now.actor, created, None, None, None)
  }

  function WithPull(branch: Row, pull: Pull): Row {
    branch.(prNumber := Some(pull.number), prUrl := Some(pull.url),
            prState := Some(if pull.merged then PrMerged else if pull.closed then PrClosed else PrOpen))
  }

  function OpenedPull(state: State, call: int, world: Webhooks.World, ticket: int, requested: Option<nat>): State {
    if ticket !in state.tickets then state
    else
      match PickBranch(state.rows, ticket, requested)
      case None => state
      case Some(id) =>
        var branch := state.rows[id];
        if branch.prNumber.Some? && branch.prNumber.value != 0 && branch.prState == Some(PrOpen) then state
        else if ById(world.repositories, branch.repository).None? then state
        else At(state, call, Opening(ticket, state.tickets[ticket], id, branch))
  }

  /** The status a call leaves: starting moves forward to `in_progress`, opening to `review`, neither back. */
  function StatusAfter(now: Call): Status
    requires now.RowSaved? || now.PullSaved?
  {
    var status := now.read.status;
    if now.RowSaved? then
      if status.Todo? || status.Triage? || status.Blocked? then Import.InProgress else status
    else
      if status.InProgress? || status.Todo? then Import.Review else status
  }

  /** The whole ticket is written back as it was read, with its new status, if that changes it. */
  function StatusSaved(state: State, call: int, now: Call): State
    requires now.RowSaved? || now.PullSaved?
  {
    if StatusAfter(now) == now.read.status then Ended(state, call)
    else Ended(state.(tickets := state.tickets[now.ticket := now.read.(status := StatusAfter(now))]), call)
  }

  function Next(world: Webhooks.World, state: State, step: Step): State {
    match step
    case BeginStart(call, ticket, allowed, options, actor) =>
      if call in state.calls then state else Started(state, call, ticket, allowed, options, actor)
    case BeginOpen(call, ticket, requested) =>
      if call in state.calls then state else OpenedPull(state, call, world, ticket, requested)
    case Webhook(repository, event) => state.(rows := Webhooks.Applied(world, repository, event, state.rows))
    case Fail(call) => Ended(state, call)
    case _ =>
      if step.call !in state.calls then state else CallNext(state, step.call, state.calls[step.call], step)
  }

  /** A step of a call that is in the phase the step belongs to. */
  function CallNext(state: State, call: int, now: Call, step: Step): State {
    match now
    case Checked(_, _, _, _) =>
      if step.Reread? then ReadAgain(state, call, now) else state
    case Starting(_, _, _, _, _, _) =>
      if !step.MakeBranch? then state
      else if step.answer.None? then Ended(state, call)
      else At(state, call, BranchMade(now.ticket, now.read, BranchOf(now, step.answer.value.0, step.answer.value.1)))
    case BranchMade(_, _, _) =>
      if !step.SaveBranch? then state
      else
        var saved := Insert(state.rows, now.branch);
        if saved.None? then Ended(state, call)
        else At(state.(rows := saved.value), call, RowSaved(now.ticket, now.read, |state.rows|))
    case Opening(_, _, _, _) =>
      if !step.MakePull? then state
      else if step.pull.None? then Ended(state, call)
      else At(state, call, PullMade(now.ticket, now.read, now.branchId, WithPull(now.branch, step.pull.value)))
    case PullMade(_, _, _, _) =>
      if !step.SavePull? || now.branchId >= |state.rows| then state
      else At(state.(rows := state.rows[now.branchId := now.branch]), call, PullSaved(now.ticket, now.read))
    case _ =>
      if step.SaveStatus? then StatusSaved(state, call, now) else state
  }

  function Run(world: Webhooks.World, start: State, steps: seq<Step>): State {
    if steps == [] then start
    else Next(world, Run(world, start, steps[..|steps| - 1]), steps[|steps| - 1])
  }

  // ------------------------------------------------------------------------------------------
  // The two calls, with nothing in between.

  /** All that starting needs: a ready ticket, one repository to pick, a name, GitHub's answer and a free name. */
  predicate CanStart(tickets: map<int, Ticket>, rows: seq<Row>, id: int, allowed: seq<Repository>,
      options: StartOptions, answer: Option<(string, bool)>)
  {
    && id in tickets
    && tickets[id].reference.Some?
    && ReadinessOf(id, tickets[id], rows, allowed).Ready?
    && PickRepository(allowed, options.repositoryId).Some?
    && var ticket := tickets[id];
       var name := BranchName.BranchNameFor(ticket.kind, ticket.reference.value, ticket.title, options.prefix);
    && name.Some?
    && answer.Some?
    && Find(rows, PickRepository(allowed, options.repositoryId).value.id, name.value).None?
  }

  /** The steps of one call that starts work, one after another. */
  function StartAlone(world: Webhooks.World, state: State, id: int, allowed: seq<Repository>, options: StartOptions,
      actor: string, answer: Option<(string, bool)>): State
  {
    var begun := Next(world, state, BeginStart(0, id, allowed, options, actor));
    var read := Next(world, begun, Reread(0));
    var made := Next(world, read, MakeBranch(0, answer));
    Next(world, Next(world, made, SaveBranch(0)), SaveStatus(0))
  }

  /** The steps of one call that opens a pull request, one after another. */
  function OpenAlone(world: Webhooks.World, state: State, id: int, requested: Option<nat>, pull: Option<Pull>): State {
    var begun := Next(world, state, BeginOpen(0, id, requested));
    var made := Next(world, begun, MakePull(0, pull));
    Next(world, Next(world, made, SavePull(0)), SaveStatus(0))
  }

  /** The ticket with its status moved on by a call that has saved its row or its pull request. */
  function Advanced(ticket: Ticket, opening: bool): Ticket {
    if opening then
      if ticket.status.InProgress? || ticket.status.Todo? then ticket.(status := Import.Review) else ticket
    else
      if ticket.status.Todo? || ticket.status.Triage? || ticket.status.Blocked? then
        ticket.(status := Import.InProgress)
      else ticket
  }

  /** The row a call stores for a ticket when nothing stands in its way. */
  function RowFor(id: int, repository: Repository, name: string, options: StartOptions, actor: string,
                  answer: (string, bool)): Row
  {
    var baseBranch := options.baseBranch.Or(Some(repository.defaultBranch)).value;
    Row(id, repository.id, name, baseBranch, Some(answer.0), Open, actor, answer.1, None, None, None)
  }

  /** Undisturbed, the steps of a call come to all of it or to nothing. */
  lemma StartAloneIs(world: Webhooks.World, tickets: map<int, Ticket>, rows: seq<Row>, id: int,
      allowed: seq<Repository>, options: StartOptions, actor: string, answer: Option<(string, bool)>)
    ensures var after := StartAlone(world, State(tickets, rows, map[]), id, allowed, options, actor, answer);
            if CanStart(tickets, rows, id, allowed, options, answer) then
              var ticket := tickets[id];
              var repository := PickRepository(allowed, options.repositoryId).value;
              var name := BranchName.BranchNameFor(ticket.kind, ticket.reference.value, ticket.title,
                  options.prefix).value;
              var row := RowFor(id, repository, name, options, actor, answer.value);
              after == State(tickets[id := Advanced(ticket, false)], rows + [row], map[])
            else after == State(tickets, rows, map[])
  {
    hide BranchName.BranchNameFor, PickRepository, Find, ReadinessOf;
    if id in tickets {
      ReadyHasReference(id, tickets[id], rows, allowed);
    }
  }

  lemma ReadyHasReference(id: int, ticket: Ticket, rows: seq<Row>, allowed: seq<Repository>)
    ensures var readiness := ReadinessOf(id, ticket, rows, allowed);
            readiness.Ready? ==> ticket.reference.Some? && readiness.repositories == allowed
  {
    hide BranchName.BranchNameFor;
  }

  /** A pull request can be opened on the branch that is picked. */
  predicate CanOpen(world: Webhooks.World, tickets: map<int, Ticket>, rows: seq<Row>, id: int, requested: Option<nat>) {
    && id in tickets
    && PickBranch(rows, id, requested).Some?
    && var branch := rows[PickBranch(rows, id, requested).value];
    && !(branch.prNumber.Some? && branch.prNumber.value != 0 && branch.prState == Some(PrOpen))
    && ById(world.repositories, branch.repository).Some?
  }

  lemma OpenBegins(world: Webhooks.World, tickets: map<int, Ticket>, rows: seq<Row>, id: int, requested: Option<nat>)
    ensures var begun := Next(world, State(tickets, rows, map[]), BeginOpen(0, id, requested));
            if CanOpen(world, tickets, rows, id, requested) then
              var branchId := PickBranch(rows, id, requested).value;
              begun == State(tickets, rows, map[0 := Opening(id, tickets[id], branchId, rows[branchId])])
            else begun == State(tickets, rows, map[])
  {
    hide PickBranch, ById;
  }

  lemma OpenEnds(world: Webhooks.World, tickets: map<int, Ticket>, rows: seq<Row>, id: int, branchId: nat,
      pull: Option<Pull>)
    requires id in tickets && branchId < |rows|
    ensures var begun := State(tickets, rows, map[0 := Opening(id, tickets[id], branchId, rows[branchId])]);
            var made := Next(world, begun, MakePull(0, pull));
            var after := Next(world, Next(world, made, SavePull(0)), SaveStatus(0));
            if pull.Some? then
              after == State(tickets[id := Advanced(tickets[id], true)],
                             rows[branchId := WithPull(rows[branchId], pull.value)], map[])
            else after == State(tickets, rows, map[])
  {
    hide WithPull;
  }

  lemma OpenAloneIs(world: Webhooks.World, tickets: map<int, Ticket>, rows: seq<Row>, id: int, requested: Option<nat>,
      pull: Option<Pull>)
    ensures var after := OpenAlone(world, State(tickets, rows, map[]), id, requested, pull);
            if CanOpen(world, tickets, rows, id, requested) && pull.Some? then
              var branchId := PickBranch(rows, id, requested).value;
              after == State(tickets[id := Advanced(tickets[id], true)],
                  rows[branchId := WithPull(rows[branchId], pull.value)], map[])
            else after == State(tickets, rows, map[])
  {
    hide PickBranch, ById, WithPull, Advanced, CanOpen;
    OpenBegins(world, tickets, rows, id, requested);
    if CanOpen(world, tickets, rows, id, requested) {
      hide Next;
      OpenEnds(world, tickets, rows, id, PickBranch(rows, id, requested).value, pull);
    }
  }

  /** A branch stored for a ticket, field by field. */
  ghost predicate IsStoredFor(row: Row, id: int, ticket: Ticket, allowed: seq<Repository>, options: StartOptions,
      actor: string, answer: Option<(string, bool)>)
  {
    && row.workItem == id && row.state == Open && row.createdBy == actor
    && answer == Some((row.baseSha.Or(Some("")).value, row.createdByHq)) && row.baseSha.Some?
    && row.prNumber.None? && row.prUrl.None? && row.prState.None?
    && ticket.reference.Some?
    && BranchName.BranchNameFor(ticket.kind, ticket.reference.value, ticket.title, options.prefix) == Some(row.name)
    && exists i :: IsChoice(allowed, options.repositoryId, i) && row.repository == allowed[i].id &&
         row.baseBranch == if options.baseBranch.Some? then options.baseBranch.value else allowed[i].defaultBranch
  }

  /** The statuses that starting work, and opening a pull request, move on; no other one moves. */
  lemma AdvancedTells(ticket: Ticket)
    ensures var begun, reviewed := Advanced(ticket, false), Advanced(ticket, true);
            && begun == ticket.(status := begun.status) && reviewed == ticket.(status := reviewed.status)
            && (ticket.status in {Import.Triage, Import.Todo, Import.Blocked} ==> begun.status == Import.InProgress)
            && (ticket.status !in {Import.Triage, Import.Todo, Import.Blocked} ==> begun.status == ticket.status)
            && (ticket.status in {Import.Todo, Import.InProgress} ==> reviewed.status == Import.Review)
            && (ticket.status !in {Import.Todo, Import.InProgress} ==> reviewed.status == ticket.status)
  {
  }

  /** A branch with its pull request, field by field: merged before closed before open, and nothing else changed. */
  ghost predicate HasPull(row: Row, was: Row, pull: Pull) {
    && row == was.(prNumber := row.prNumber, prUrl := row.prUrl, prState := row.prState)
    && row.prNumber == Some(pull.number) && row.prUrl == Some(pull.url)
    && (row.prState == Some(PrMerged) <==> pull.merged)
    && (row.prState == Some(PrClosed) <==> !pull.merged && pull.closed)
    && (row.prState == Some(PrOpen) <==> !pull.merged && !pull.closed)
  }

  /** Exactly when a pull request can be opened: on a branch without an open one, whose repository is registered. */
  lemma CanOpenExactly(world: Webhooks.World, tickets: map<int, Ticket>, rows: seq<Row>, id: int,
      requested: Option<nat>)
    ensures CanOpen(world, tickets, rows, id, requested) <==>
            && id in tickets
            && exists branch: nat :: PickBranch(rows, id, requested) == Some(branch) &&
                 (rows[branch].prState != Some(PrOpen) || rows[branch].prNumber.Or(Some(0)) == Some(0)) &&
                 exists i :: 0 <= i < |world.repositories| && world.repositories[i].id == rows[branch].repository
  {
    hide PickBranch;
    var picked := PickBranch(rows, id, requested);
    if picked.Some? {
      RegisteredExactly(world.repositories, rows[picked.value].repository);
    }
  }

  lemma {:induction false} RegisteredExactly(repositories: seq<Repository>, id: string)
    ensures ById(repositories, id).Some? <==> exists i :: 0 <= i < |repositories| && repositories[i].id == id
  {
    if repositories != [] {
      RegisteredExactly(repositories[1..], id);
      if i :| 0 <= i < |repositories| && repositories[i].id == id {
        assert i > 0 ==> repositories[1..][i - 1].id == id;
      }
    }
  }

  class StartWorkService {
    const world: Webhooks.World
    var tickets: map<int, Ticket>
    var rows: seq<Row>

    ghost function Now(): State
      reads this
    {
      State(tickets, rows, map[])
    }

    /** Either the branch is stored and the ticket moved on, or nothing at all has changed. */
    method StartWork(id: int, allowed: seq<Repository>, options: StartOptions, actor: string,
        answer: Option<(string, bool)>)
      returns (branchId: Option<nat>)
      modifies this
      ensures Now() == StartAlone(world, old(Now()), id, allowed, options, actor, answer)
      ensures branchId.Some? <==> CanStart(old(tickets), old(rows), id, allowed, options, answer)
      ensures branchId.None? ==> Now() == old(Now())
      ensures branchId.Some? ==>
                && branchId.value == old(|rows|) && |rows| == old(|rows|) + 1 && rows[..old(|rows|)] == old(rows)
                && IsStoredFor(rows[branchId.value], id, old(tickets)[id], allowed, options, actor, answer)
                && tickets == old(tickets)[id := Advanced(old(tickets)[id], false)]
      ensures (forall i :: !IsChoice(allowed, options.repositoryId, i)) ==> branchId.None?
    {
      hide BranchName.BranchNameFor, PickRepository, Find, StartAlone, IsChoice;
      StartAloneIs(world, tickets, rows, id, allowed, options, actor, answer);
      if id !in tickets {
        return None;
      }
      var readiness := ReadinessOf(id, tickets[id], rows, allowed);
      if !readiness.Ready? {
        return None;
      }
      var item := tickets[id];
      ReadyHasReference(id, tickets[id], rows, allowed);
      var repository := PickRepository(readiness.repositories, options.repositoryId);
      if repository.None? {
        return None;
      }
      PicksRepository(allowed, options.repositoryId, repository.value);
      var baseBranch := options.baseBranch.Or(Some(repository.value.defaultBranch)).value;
      var name := BranchName.BranchNameFor(item.kind, item.reference.value, item.title, options.prefix);
      if name.None? || answer.None? {
        return None;
      }
      var (baseSha, created) := answer.value;
      var branch := Row(id, repository.value.id, name.value, baseBranch, Some(baseSha), Open, actor, created, None,
          None, None);
      var saved := Insert(rows, branch);
      if saved.None? {
        return None;
      }
      branchId := Some(|rows|);
      rows := saved.value;
      if item.status == Import.Todo || item.status == Import.Triage || item.status == Import.Blocked {
        item := item.(status := Import.InProgress);
        tickets := tickets[id := item];
      }
    }

    method OpenPullRequest(id: int, requested: Option<nat>, pull: Option<Pull>) returns (branchId: Option<nat>)
      modifies this
      ensures Now() == OpenAlone(world, old(Now()), id, requested, pull)
      ensures branchId.Some? <==> CanOpen(world, old(tickets), old(rows), id, requested) && pull.Some?
      ensures branchId.None? ==> Now() == old(Now())
      ensures branchId.Some? ==>
                && branchId == PickBranch(old(rows), id, requested) && pull.Some?
                && rows == old(rows)[branchId.value := WithPull(old(rows)[branchId.value], pull.value)]
                && HasPull(rows[branchId.value], old(rows)[branchId.value], pull.value)
                && tickets == old(tickets)[id := Advanced(old(tickets)[id], true)]
    {
      hide PickBranch, ById, OpenAlone;
      OpenAloneIs(world, tickets, rows, id, requested, pull);
      if id !in tickets {
        return None;
      }
      var item := tickets[id];
      var picked := PickBranch(rows, id, requested);
      if picked.None? {
        return None;
      }
      var branch := rows[picked.value];
      if branch.prNumber.Some? && branch.prNumber.value != 0 && branch.prState == Some(PrOpen) {
        return None;
      }
      if ById(world.repositories, branch.repository).None? || pull.None? {
        return None;
      }
      branch := branch.(prNumber := Some(pull.value.number), prUrl := Some(pull.value.url));
      branch := branch.(prState := Some(if pull.value.merged then PrMerged
                                        else if pull.value.closed then PrClosed
                                        else PrOpen));
      rows := rows[picked.value := branch];
      if item.status == Import.InProgress || item.status == Import.Todo {
        item := item.(status := Import.Review);
        tickets := tickets[id := item];
      }
      branchId := picked;
    }
  }
}
