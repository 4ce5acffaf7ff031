/** What a delivery writes, told on the rows: which repository it speaks of, and what each event leaves there. */
module WebhookContents {
  import opened Wrappers
  import opened BranchTable
  import opened Webhooks
  import BranchName
  import BranchReference

  // ------------------------------------------------------------------------------------------
  // The repository.

  /** The delivery names this repository: by GitHub's id, or by owner and name in any case of their letters. */
  predicate IsNamed(repository: Repository, delivery: Delivery, byId: bool) {
    if byId then delivery.externalId.Some? && repository.externalId == delivery.externalId
    else
      && delivery.slug.Some?
      && BranchName.Lowered(repository.owner) == BranchName.Lowered(delivery.slug.value.0)
      && BranchName.Lowered(repository.name) == BranchName.Lowered(delivery.slug.value.1)
  }

  ghost predicate IsFirst(repositories: seq<Repository>, delivery: Delivery, byId: bool, i: nat) {
    i < |repositories| && IsNamed(repositories[i], delivery, byId) &&
    forall j :: 0 <= j < i ==> !IsNamed(repositories[j], delivery, byId)
  }

  function Named(repositories: seq<Repository>, delivery: Delivery, byId: bool): Option<Repository>
    requires if byId then delivery.externalId.Some? else delivery.slug.Some?
  {
    if byId then ByExternalId(repositories, delivery.externalId.value)
    else BySlug(repositories, delivery.slug.value.0, delivery.slug.value.1)
  }

  /** The search answers the first that is named, or says that none is. */
  lemma {:induction false} SearchIsFirst(repositories: seq<Repository>, delivery: Delivery, byId: bool)
      returns (i: nat)
    requires if byId then delivery.externalId.Some? else delivery.slug.Some?
    ensures i <= |repositories|
    ensures i < |repositories| ==>
              IsFirst(repositories, delivery, byId, i) && Named(repositories, delivery, byId) == Some(repositories[i])
    ensures i == |repositories| ==>
              && Named(repositories, delivery, byId) == None
              && forall j :: 0 <= j < i ==> !IsNamed(repositories[j], delivery, byId)
  {
    i := 0;
    if repositories != [] && !IsNamed(repositories[0], delivery, byId) {
      var rest := repositories[1..];
      var k := SearchIsFirst(rest, delivery, byId);
      i := k + 1;
      assert forall j :: 0 < j < |repositories| ==> repositories[j] == rest[j - 1];
    }
  }

  /** A delivery speaks of the first repository with its id, and by name only when none has the id. */
  lemma SpeaksOfExactly(world: World, delivery: Delivery, r: Repository)
    ensures RepositoryOf(world, delivery) == Some(r) <==>
            exists i :: 0 <= i < |world.repositories| && world.repositories[i] == r &&
              (IsFirst(world.repositories, delivery, true, i) ||
               (IsFirst(world.repositories, delivery, false, i) &&
                forall j :: 0 <= j < |world.repositories| ==> !IsNamed(world.repositories[j], delivery, true)))
  {
    hide IsNamed;
    var repositories := world.repositories;
    var k := |repositories|;
    if delivery.externalId.Some? {
      k := SearchIsFirst(repositories, delivery, true);
    } else {
      NothingNamed(delivery, true);
    }
    if k == |repositories| {
      if delivery.slug.Some? {
        k := SearchIsFirst(repositories, delivery, false);
      } else {
        NothingNamed(delivery, false);
      }
    }
    assert RepositoryOf(world, delivery) == if k < |repositories| then Some(repositories[k]) else None;
  }

  lemma NothingNamed(delivery: Delivery, byId: bool)
    requires if byId then delivery.externalId.None? else delivery.slug.None?
    ensures forall repository :: !IsNamed(repository, delivery, byId)
  {
  }

  /** What is stored of a delivery that comes for the first time, and that nothing is stored of another. */
  lemma StoredExactly(world: World, delivery: Delivery, state: State)
    ensures var after := Handled(world, delivery, state);
            if delivery.id == "" || delivery.id in state.deliveries then after == state
            else
              && after.deliveries.Keys == state.deliveries.Keys + {delivery.id}
              && (forall id :: id in state.deliveries ==> after.deliveries[id] == state.deliveries[id])
              && var row := after.deliveries[delivery.id];
                 && row.event == delivery.event
                 && (row.status.Ignored? <==> row.repository.None?)
                 && (row.repository.None? ==> after.rows == state.rows)
                 && (forall r :: RepositoryOf(world, delivery) == Some(r) ==> row.repository == Some(r.id))
                 && (row.repository.Some? ==> RepositoryOf(world, delivery).Some?)
  {
    hide RepositoryOf;
  }

  // ------------------------------------------------------------------------------------------
  // The branch.

  lemma StripsRefsHeads(name: string)
    ensures BranchReference.StripRefsHeads("refs/heads/" + name) == name
    ensures !("refs/heads/" <= name) ==> BranchReference.StripRefsHeads(name) == name
  {
  }

  /** The name carries the key of this ticket, and no longer key that is a ticket's. */
  ghost predicate Carries(world: World, name: string, key: string) {
    && key in world.tickets
    && key in BranchReference.CandidatesOf(name)
    && forall other :: other in BranchReference.CandidatesOf(name) && other in world.tickets ==> |other| <= |key|
  }

  lemma FoundIsCarried(world: World, name: string)
    ensures var found :=
              BranchReference.FirstKnown(BranchReference.CandidatesOf(name), reference => reference in world.tickets);
            && (found.Some? ==> found.value in world.tickets)
            && forall key :: found == Some(key) <==> Carries(world, name, key)
  {
    hide BranchReference.CandidatesOf, BranchReference.FirstKnown;
    var candidates := BranchReference.CandidatesOf(name);
    var known := reference => reference in world.tickets;
    BranchReference.CandidatesAre(name);
    var found := BranchReference.FirstKnown(candidates, known);
    forall key
      ensures found == Some(key) <==> Carries(world, name, key)
    {
      BranchReference.FoundIsLongestKnown(candidates, known, key);
    }
    assert BranchReference.FirstKnown(candidates, reference => reference in world.tickets) == found;
  }

  /**
   * A pushed branch adds a row exactly when its name is not taken in the repository and carries a ticket's
   * key; the row belongs to the ticket of the longest such key.
   */
  lemma LinksExactly(world: World, repository: Repository, ref: string, rows: seq<Row>)
    ensures var name := BranchReference.StripRefsHeads(ref);
            var after := OnBranchCreated(world, repository, ref, rows);
            var free := name != "" && forall i :: 0 <= i < |rows| ==> !Names(rows[i], repository.id, name);
            && (after != rows <==> free && exists key :: Carries(world, name, key))
            && (after != rows ==>
                  && after[..|after| - 1] == rows
                  && exists key :: Carries(world, name, key) &&
                       var row := after[|after| - 1];
                       && row.workItem == world.tickets[key]
                       && row.repository == repository.id && row.name == name
                       && row.baseBranch == repository.defaultBranch && row.baseSha == None
                       && row.state == Open && row.createdBy == "github" && !row.createdByHq
                       && row.prNumber == None && row.prUrl == None && row.prState == None)
  {
    hide Find, BranchReference.CandidatesOf, BranchReference.StripRefsHeads, BranchReference.FirstKnown, Carries;
    FoundIsCarried(world, BranchReference.StripRefsHeads(ref));
  }

  /** A branch's row after a pull request event, field by field. */
  ghost predicate Follows(after: Row, row: Row, pr: PullRequest) {
    var numbered := pr.number.Some? && pr.number.value != 0;
    && after == row.(state := after.state, prNumber := after.prNumber, prUrl := after.prUrl, prState := after.prState)
    && after.prNumber == (if numbered then pr.number else row.prNumber)
    && after.prUrl == (if numbered && pr.url.Some? then pr.url else row.prUrl)
    && (!numbered ==> after.prState == row.prState)
    && (numbered ==>
          && (after.prState == Some(PrMerged) <==> pr.merged)
          && (after.prState == Some(PrClosed) <==> !pr.merged && pr.closed)
          && (after.prState == Some(PrOpen) <==> !pr.merged && !pr.closed))
    && (after.state == Merged <==> row.state == Merged || (row.state == Open && pr.closesNow && pr.merged))
    && (after.state != Merged ==> after.state == row.state)
  }

  /** A pull request event changes the row of its head branch, and no other. */
  lemma PullRequestTells(repository: Repository, pr: PullRequest, rows: seq<Row>)
    requires Unique(rows)
    ensures var after := OnPullRequest(repository, pr, rows);
            && |after| == |rows|
            && forall i :: 0 <= i < |rows| ==>
                 if pr.head.Some? && pr.head.value != "" &&
                    Names(rows[i], repository.id, BranchReference.StripRefsHeads(pr.head.value))
                 then Follows(after[i], rows[i], pr)
                 else after[i] == rows[i]
  {
    hide BranchReference.StripRefsHeads, Find, Names;
    if pr.head.Some? && pr.head.value != "" {
      var name := BranchReference.StripRefsHeads(pr.head.value);
      var found := Find(rows, repository.id, name);
      if found.Some? {
        forall i | 0 <= i < |rows| && i != found.value
          ensures !Names(rows[i], repository.id, name)
        {
          OneRowEach(rows, i, found.value, repository.id, name);
        }
      }
    }
  }

  lemma OneRowEach(rows: seq<Row>, i: nat, j: nat, repository: string, name: string)
    requires Unique(rows) && i < |rows| && j < |rows| && i != j && Names(rows[j], repository, name)
    ensures !Names(rows[i], repository, name)
  {
    var low, high := if i < j then i else j, if i < j then j else i;
    assert !Names(rows[low], rows[high].repository, rows[high].name);
  }
}
