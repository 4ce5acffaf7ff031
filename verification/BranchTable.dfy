/** The table of branches linked to tickets, with its unique constraint on repository and name. */
module BranchTable {
  import opened Wrappers

  datatype BranchState = Open | Merged | Deleted

  datatype PrState = PrOpen | PrMerged | PrClosed

  datatype Row = Row(
    workItem: int,
    repository: string,
    name: string,
    baseBranch: string,
    baseSha: Option<string>,
    state: BranchState,
    createdBy: string,
    createdByHq: bool,
    prNumber: Option<int>,
    prUrl: Option<string>,
    prState: Option<PrState>)

  predicate Names(row: Row, repository: string, name: string) {
    row.repository == repository && row.name == name
  }

  /** The row of this repository and name; a row's id is its place in the table. */
  function Find(rows: seq<Row>, repository: string, name: string): (found: Option<nat>)
    ensures found.Some? ==> found.value < |rows| && Names(rows[found.value], repository, name)
    ensures found.None? ==> forall i :: 0 <= i < |rows| ==> !Names(rows[i], repository, name)
  {
    if rows == [] then None
    else if Names(rows[|rows| - 1], repository, name) then Some(|rows| - 1)
    else Find(rows[..|rows| - 1], repository, name)
  }

  /** An insert, refused by the unique constraint when the repository and name are taken. */
  function Insert(rows: seq<Row>, row: Row): Option<seq<Row>> {
    if Find(rows, row.repository, row.name).Some? then None else Some(rows + [row])
  }

  ghost predicate Unique(rows: seq<Row>) {
    forall i, j :: 0 <= i < j < |rows| ==> !Names(rows[i], rows[j].repository, rows[j].name)
  }

  /** No row goes, none changes its ticket, repository or name, and a branch no longer open keeps its state. */
  ghost predicate Outlives(before: seq<Row>, after: seq<Row>) {
    && |before| <= |after|
    && forall i :: 0 <= i < |before| ==>
         && after[i].workItem == before[i].workItem
         && Names(after[i], before[i].repository, before[i].name)
         && (before[i].state != Open ==> after[i].state == before[i].state)
  }

  lemma OutlivesTwice(a: seq<Row>, b: seq<Row>, c: seq<Row>)
    requires Outlives(a, b) && Outlives(b, c)
    ensures Outlives(a, c)
  {
  }
}
