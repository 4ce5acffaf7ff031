/** GitHub deliveries: stored once by their id, then applied to the branches they speak of. */
module Webhooks {
  import opened Wrappers
  import opened BranchTable
  import BranchName
  import BranchReference

  datatype Repository = Repository(
    id: string,
    externalId: Option<string>,
    owner: string,
    name: string,
    defaultBranch: string)

  datatype PullRequest = PullRequest(
    head: Option<string>,
    number: Option<int>,
    url: Option<string>,
    merged: bool,
    closed: bool,
    closesNow: bool)

  datatype Event =
    | BranchCreated(ref: string)
    | BranchDeleted(ref: string)
    | PullRequestEvent(pr: PullRequest)
    | OtherEvent

  /** An authenticated delivery: its id header, what it says, and how it names its repository. */
  datatype Delivery = Delivery(id: string, event: Event, externalId: Option<string>, slug: Option<(string, string)>)

  datatype DeliveryStatus = Received | Ignored

  datatype DeliveryRow = DeliveryRow(event: Event, repository: Option<string>, status: DeliveryStatus)

  datatype Outcome = Rejected | Duplicate | Stored(status: DeliveryStatus)

  /** What the handlers read and never write: registered repositories, and tickets by reference. */
  datatype World = World(repositories: seq<Repository>, tickets: map<string, int>)

  /** What deliveries write. */
  datatype State = State(deliveries: map<string, DeliveryRow>, rows: seq<Row>)

  predicate HasExternalId(repository: Repository, externalId: string) {
    repository.externalId == Some(externalId)
  }

  function ByExternalId(repositories: seq<Repository>, externalId: string): Option<Repository> {
    if repositories == [] then None
    else if HasExternalId(repositories[0], externalId) then Some(repositories[0])
    else ByExternalId(repositories[1..], externalId)
  }

  /** Owner and name are compared in lower case. */
  function BySlug(repositories: seq<Repository>, owner: string, name: string): Option<Repository> {
    if repositories == [] then None
    else if BranchName.Lowered(repositories[0].owner) == BranchName.Lowered(owner) &&
            BranchName.Lowered(repositories[0].name) == BranchName.Lowered(name) then Some(repositories[0])
    else BySlug(repositories[1..], owner, name)
  }

  /** GitHub's own id first, so that a renamed repository is still recognised; its name after. */
  function ResolveRepository(repositories: seq<Repository>, externalId: Option<string>,
      slug: Option<(string, string)>): Option<Repository> {
    var byId := if externalId.Some? then ByExternalId(repositories, externalId.value) else None;
    if byId.Some? then byId
    else if slug.None? then None
    else BySlug(repositories, slug.value.0, slug.value.1)
  }

  // ------------------------------------------------------------------------------------------
  // What an event does to the branches.

  /** A branch pushed from elsewhere joins the ticket its name carries, unless it is linked already. */
  function OnBranchCreated(world: World, repository: Repository, ref: string, rows: seq<Row>): seq<Row> {
    var name := BranchReference.StripRefsHeads(ref);
    if name == "" || Find(rows, repository.id, name).Some? then rows
    else
      match BranchReference.FirstKnown(BranchReference.CandidatesOf(name), reference => reference in world.tickets)
      case None => rows
      case Some(reference) =>
        if reference in world.tickets then
          rows + [Row(world.tickets[reference], repository.id, name, repository.defaultBranch, None, Open, "github",
              false, None, None, None)]
        else rows
  }

  /** The event says that this branch is deleted. */
  predicate Deletes(repository: Repository, event: Event, row: Row) {
    event.BranchDeleted? && BranchReference.StripRefsHeads(event.ref) != "" &&
    Names(row, repository.id, BranchReference.StripRefsHeads(event.ref))
  }

  function OnBranchDeleted(repository: Repository, ref: string, rows: seq<Row>): seq<Row> {
    var name := BranchReference.StripRefsHeads(ref);
    seq(|rows|, i requires 0 <= i < |rows| =>
      if name != "" && Names(rows[i], repository.id, name) && rows[i].state == Open then
        rows[i].(state := Deleted)
      else rows[i])
  }

  /** The pull request's own state follows every event; the branch leaves `open` only when it is merged. */
  function WithPullRequest(row: Row, pr: PullRequest): Row {
    var numbered := if pr.number.Some? && pr.number.value != 0 then
      row.(prNumber := pr.number,
           prUrl := pr.url.Or(row.prUrl),
           prState := Some(if pr.merged then PrMerged else if pr.closed then PrClosed else PrOpen))
      else row;
    if pr.closesNow && pr.merged && row.state == Open then numbered.(state := Merged) else numbered
  }

  function OnPullRequest(repository: Repository, pr: PullRequest, rows: seq<Row>): seq<Row> {
    if pr.head.None? || pr.head.value == "" then rows
    else
      match Find(rows, repository.id, BranchReference.StripRefsHeads(pr.head.value))
      case None => rows
      case Some(i) => rows[i := WithPullRequest(rows[i], pr)]
  }

  function Applied(world: World, repository: Repository, event: Event, rows: seq<Row>): seq<Row> {
    match event
    case BranchCreated(ref) => OnBranchCreated(world, repository, ref, rows)
    case BranchDeleted(ref) => OnBranchDeleted(repository, ref, rows)
    case PullRequestEvent(pr) => OnPullRequest(repository, pr, rows)
    case OtherEvent => rows
  }

  function RepositoryOf(world: World, delivery: Delivery): Option<Repository> {
    ResolveRepository(world.repositories, delivery.externalId, delivery.slug)
  }

  function AppliedDelivery(world: World, delivery: Delivery, rows: seq<Row>): seq<Row> {
    match RepositoryOf(world, delivery)
    case None => rows
    case Some(repository) => Applied(world, repository, delivery.event, rows)
  }

  function RowOf(world: World, delivery: Delivery): DeliveryRow {
    match RepositoryOf(world, delivery)
    case None => DeliveryRow(delivery.event, None, Ignored)
    case Some(repository) => DeliveryRow(delivery.event, Some(repository.id), Received)
  }

  /** One delivery from beginning to end. */
  function Handled(world: World, delivery: Delivery, state: State): State {
    if delivery.id == "" || delivery.id in state.deliveries then state
    else State(state.deliveries[delivery.id := RowOf(world, delivery)], AppliedDelivery(world, delivery, state.rows))
  }

  class GithubWebhooks {
    const world: World
    var deliveries: map<string, DeliveryRow>
    var rows: seq<Row>

    ghost function Now(): State
      reads this
    {
      State(deliveries, rows)
    }

    constructor (world: World)
      ensures this.world == world && Now() == State(map[], [])
    {
      this.world := world;
      deliveries, rows := map[], [];
    }

    method HandleBranchCreated(ref: string, repository: Repository)
      modifies this`rows
      ensures rows == OnBranchCreated(world, repository, ref, old(rows))
    {
      hide Find;
      var name := BranchReference.StripRefsHeads(ref);
      if name == "" {
        return;
      }
      var already := Find(rows, repository.id, name);
      if already.Some? {
        return;
      }
      var tickets := world.tickets;
      var reference := BranchReference.MatchReference(name, candidate => candidate in tickets);
      assert reference == BranchReference.FirstKnown(BranchReference.CandidatesOf(name), r => r in world.tickets);
      if reference.None? || reference.value !in world.tickets {
        return;
      }
      var branch := Row(world.tickets[reference.value], repository.id, name, repository.defaultBranch, None, Open,
        "github", false, None, None, None);
      rows := rows + [branch];
    }

    /** One statement over the table: the open rows of this name become deleted, and nothing else changes. */
    method HandleBranchDeleted(ref: string, repository: Repository)
      modifies this`rows
      ensures |rows| == |old(rows)|
      ensures forall i :: 0 <= i < |rows| ==>
                var was := old(rows)[i];
                var deleted := Deletes(repository, BranchDeleted(ref), was) && was.state == Open;
                rows[i] == if deleted then was.(state := Deleted) else was
      ensures rows == OnBranchDeleted(repository, ref, old(rows))
    {
      var name := BranchReference.StripRefsHeads(ref);
      if name == "" {
        return;
      }
      var i := 0;
      while i < |rows|
        invariant 0 <= i <= |rows| == |old(rows)|
        invariant forall k :: i <= k < |rows| ==> rows[k] == old(rows)[k]
        invariant forall k :: 0 <= k < i ==>
          rows[k] == if Names(old(rows)[k], repository.id, name) && old(rows)[k].state == Open
                     then old(rows)[k].(state := Deleted) else old(rows)[k]
      {
        if rows[i].repository == repository.id && rows[i].name == name && rows[i].state == Open {
          rows := rows[i := rows[i].(state := Deleted)];
        }
        i := i + 1;
      }
    }

    method HandlePullRequest(pr: PullRequest, repository: Repository)
      modifies this`rows
      ensures rows == OnPullRequest(repository, pr, old(rows))
    {
      if pr.head.None? || pr.head.value == "" {
        return;
      }
      var found := Find(rows, repository.id, BranchReference.StripRefsHeads(pr.head.value));
      if found.None? {
        return;
      }
      var branch := rows[found.value];
      if pr.number.Some? && pr.number.value != 0 {
        branch := branch.(prNumber := pr.number, prUrl := pr.url.Or(branch.prUrl));
        branch := branch.(prState := Some(if pr.merged then PrMerged else if pr.closed then PrClosed else PrOpen));
      }
      if pr.closesNow && pr.merged && branch.state == Open {
        branch := branch.(state := Merged);
      }
      rows := rows[found.value := branch];
    }

    /** Stores the delivery, and only when that is done applies it; a repeated id has no effect. */
    method Receive(delivery: Delivery) returns (outcome: Outcome)
      modifies this
      ensures Now() == Handled(world, delivery, old(Now()))
      ensures outcome == if delivery.id == "" then Rejected
                         else if delivery.id in old(deliveries) then Duplicate
                         else Stored(RowOf(world, delivery).status)
    {
      hide OnBranchCreated, OnBranchDeleted, OnPullRequest, ResolveRepository;
      if delivery.id == "" {
        return Rejected;
      }
      var repository := ResolveRepository(world.repositories, delivery.externalId, delivery.slug);
      var status := if repository.Some? then Received else Ignored;
      if delivery.id in deliveries {
        return Duplicate;
      }
      var id := if repository.Some? then Some(repository.value.id) else None;
      deliveries := deliveries[delivery.id := DeliveryRow(delivery.event, id, status)];
      if repository.Some? {
        match delivery.event {
          case BranchCreated(ref) => HandleBranchCreated(ref, repository.value);
          case BranchDeleted(ref) => HandleBranchDeleted(ref, repository.value);
          case PullRequestEvent(pr) => HandlePullRequest(pr, repository.value);
          case OtherEvent =>
        }
      }
      outcome := Stored(status);
    }
  }
}
