/**
 * The repository stub (src/utils/api.ts): a fixed dataset read by `find`
 * and never written. The 500 ms delay is not modelled; `now` is the clock.
 */
module Api {
  import opened Wrappers
  import opened Types

  /** `getIssues`: the dataset itself. */
  function GetIssues(data: seq<Issue>): (r: seq<Issue>)
    ensures r == data
  {
    data
  }

  /** `getIssueById`: the first dataset entry with that id, or `null`. */
  function GetIssueById(data: seq<Issue>, id: string): (r: Option<Issue>)
    ensures r.Some? ==> r.value in data && r.value.id == id
    ensures r.None? <==> forall x :: x in data ==> x.id != id
  {
    FindById(data, id)
  }

  /**
   * `updateIssue`: the dataset entry overridden by the patch and stamped with
   * the server clock, or a rejection naming the unknown id.
   */
  function UpdateIssue(data: seq<Issue>, id: string, patch: IssuePatch, now: int): (r: Result<Issue, Thrown>)
    ensures r.Failure? <==> forall x :: x in data ==> x.id != id
    ensures r.Failure? ==> r.error == ErrorObject("Issue " + id + " not found")
    ensures r.Success? ==> r.value.updatedAt == now
    ensures r.Success? ==> r.value == Spread(FindById(data, id).value, patch).(updatedAt := now)
  {
    match FindById(data, id)
    case None => Failure(ErrorObject("Issue " + id + " not found"))
    case Some(issue) => Success(Spread(issue, patch).(updatedAt := now))
  }

  /** `updateIssueStatus`: an update carrying only the status. */
  function UpdateIssueStatus(data: seq<Issue>, id: string, status: IssueStatus, now: int): (r: Result<Issue, Thrown>)
    ensures r.Failure? <==> forall x :: x in data ==> x.id != id
    ensures r.Success? ==> r.value.status == status && r.value.updatedAt == now
    ensures r.Success? ==> r.value.(status := FindById(data, id).value.status, updatedAt := FindById(data, id).value.updatedAt)
                           == FindById(data, id).value
  {
    UpdateIssue(data, id, StatusPatch(status), now)
  }

  /** `resolveIssue`: moves the issue to done. */
  function ResolveIssue(data: seq<Issue>, id: string, now: int): (r: Result<Issue, Thrown>)
    ensures r.Failure? <==> forall x :: x in data ==> x.id != id
    ensures r.Success? ==> r.value.status == Done && r.value.id == id
  {
    UpdateIssueStatus(data, id, Done, now)
  }

  /**
   * The dataset is never written: a status update reports its new status,
   * yet an update of the same dataset that does not carry the status still
   * reports the dataset's own status.
   */
  lemma UpdatesDoNotAccumulate(data: seq<Issue>, id: string, first: IssueStatus, second: IssuePatch, t1: int, t2: int)
    requires UpdateIssueStatus(data, id, first, t1).Success?
    requires second.status.None?
    ensures UpdateIssueStatus(data, id, first, t1).value.status == first
    ensures UpdateIssue(data, id, second, t2).Success?
    ensures UpdateIssue(data, id, second, t2).value.status == FindById(data, id).value.status
  {
  }
}
