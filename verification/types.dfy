/** Option and Result: nullable values and the outcomes of promises. */
module Wrappers {
  datatype Option<+T> = None | Some(value: T)

  datatype Result<+R, +E> = Success(value: R) | Failure(error: E)
}

/**
 * The value types of the issue board (src/types/index.ts): issues, users,
 * filter options, and the partial records the store merges into them.
 * Timestamps are integer milliseconds since the epoch.
 */
module Types {
  import opened Wrappers

  /** The three board columns, a closed enumeration. */
  datatype IssueStatus = Backlog | InProgress | Done

  /** The string code of a status; each board column uses it as its drop-target id. */
  function StatusCode(s: IssueStatus): string
  {
    match s
    case Backlog => "backlog"
    case InProgress => "inProgress"
    case Done => "done"
  }

  /** Reads a status back from its code; any other string is not a status. */
  function ParseStatus(code: string): (r: Option<IssueStatus>)
    ensures r.Some? ==> StatusCode(r.value) == code
    ensures r.None? ==> forall s: IssueStatus :: StatusCode(s) != code
  {
    if code == "backlog" then Some(Backlog)
    else if code == "inProgress" then Some(InProgress)
    else if code == "done" then Some(Done)
    else None
  }

  datatype UserRole = Admin | Contributor

  datatype User = User(name: string, role: UserRole)

  datatype Issue = Issue(
    id: string,
    title: string,
    description: string,
    status: IssueStatus,
    tags: seq<string>,
    assignee: string,
    severity: int,
    userDefinedRank: int,
    createdAt: int,
    updatedAt: int)

  /** `Partial<Issue>`: a field is `Some` exactly when the partial record carries it. */
  datatype IssuePatch = IssuePatch(
    id: Option<string>,
    title: Option<string>,
    description: Option<string>,
    status: Option<IssueStatus>,
    tags: Option<seq<string>>,
    assignee: Option<string>,
    severity: Option<int>,
    userDefinedRank: Option<int>,
    createdAt: Option<int>,
    updatedAt: Option<int>)

  const EmptyPatch: IssuePatch :=
    IssuePatch(None, None, None, None, None, None, None, None, None, None)

  /** `{ status }`: the only patch the board sends. */
  function StatusPatch(s: IssueStatus): (p: IssuePatch)
    ensures p.status == Some(s) && p.id.None?
  {
    EmptyPatch.(status := Some(s))
  }

  function Pick<T>(o: Option<T>, fallback: T): T
  {
    match o
    case Some(v) => v
    case None => fallback
  }

  /** An object spread of a partial issue: each field the patch carries overrides the issue's. */
  function Spread(issue: Issue, patch: IssuePatch): Issue
  {
    Issue(
      Pick(patch.id, issue.id),
      Pick(patch.title, issue.title),
      Pick(patch.description, issue.description),
      Pick(patch.status, issue.status),
      Pick(patch.tags, issue.tags),
      Pick(patch.assignee, issue.assignee),
      Pick(patch.severity, issue.severity),
      Pick(patch.userDefinedRank, issue.userDefinedRank),
      Pick(patch.createdAt, issue.createdAt),
      Pick(patch.updatedAt, issue.updatedAt))
  }

  /** Spreading keeps every field the patch does not carry, and spreading twice is spreading once. */
  lemma SpreadProperties(issue: Issue, patch: IssuePatch)
    ensures patch.id.None? ==> Spread(issue, patch).id == issue.id
    ensures patch.id.Some? ==> Spread(issue, patch).id == patch.id.value
    ensures patch.title.None? ==> Spread(issue, patch).title == issue.title
    ensures patch.title.Some? ==> Spread(issue, patch).title == patch.title.value
    ensures patch.description.None? ==> Spread(issue, patch).description == issue.description
    ensures patch.description.Some? ==> Spread(issue, patch).description == patch.description.value
    ensures patch.status.None? ==> Spread(issue, patch).status == issue.status
    ensures patch.status.Some? ==> Spread(issue, patch).status == patch.status.value
    ensures patch.tags.None? ==> Spread(issue, patch).tags == issue.tags
    ensures patch.tags.Some? ==> Spread(issue, patch).tags == patch.tags.value
    ensures patch.assignee.None? ==> Spread(issue, patch).assignee == issue.assignee
    ensures patch.assignee.Some? ==> Spread(issue, patch).assignee == patch.assignee.value
    ensures patch.severity.None? ==> Spread(issue, patch).severity == issue.severity
    ensures patch.severity.Some? ==> Spread(issue, patch).severity == patch.severity.value
    ensures patch.userDefinedRank.None? ==> Spread(issue, patch).userDefinedRank == issue.userDefinedRank
    ensures patch.userDefinedRank.Some? ==> Spread(issue, patch).userDefinedRank == patch.userDefinedRank.value
    ensures patch.createdAt.None? ==> Spread(issue, patch).createdAt == issue.createdAt
    ensures patch.createdAt.Some? ==> Spread(issue, patch).createdAt == patch.createdAt.value
    ensures patch.updatedAt.None? ==> Spread(issue, patch).updatedAt == issue.updatedAt
    ensures patch.updatedAt.Some? ==> Spread(issue, patch).updatedAt == patch.updatedAt.value
    ensures Spread(issue, EmptyPatch) == issue
    ensures Spread(Spread(issue, patch), patch) == Spread(issue, patch)
  {
  }

  /** The active filter; `null` is `None`. */
  datatype FilterOptions = FilterOptions(
    searchQuery: string,
    assignee: Option<string>,
    severity: Option<int>)

  const InitialFilters: FilterOptions := FilterOptions("", None, None)

  /** `Partial<FilterOptions>`: outer `None` is an absent key, `Some(None)` an explicit `null`. */
  datatype FilterPatch = FilterPatch(
    searchQuery: Option<string>,
    assignee: Option<Option<string>>,
    severity: Option<Option<int>>)

  /** An object spread of a partial filter over the current one. */
  function MergeFilters(f: FilterOptions, p: FilterPatch): (r: FilterOptions)
    ensures p.searchQuery.None? ==> r.searchQuery == f.searchQuery
    ensures p.assignee.None? ==> r.assignee == f.assignee
    ensures p.severity.None? ==> r.severity == f.severity
    ensures p.searchQuery.Some? ==> r.searchQuery == p.searchQuery.value
    ensures p.assignee.Some? ==> r.assignee == p.assignee.value
    ensures p.severity.Some? ==> r.severity == p.severity.value
  {
    FilterOptions(
      Pick(p.searchQuery, f.searchQuery),
      Pick(p.assignee, f.assignee),
      Pick(p.severity, f.severity))
  }

  /** Merging the same partial filter twice gives what merging it once gives. */
  lemma MergeFiltersIdempotent(f: FilterOptions, p: FilterPatch)
    ensures MergeFilters(MergeFilters(f, p), p) == MergeFilters(f, p)
  {
  }

  /**
   * A value a rejected promise carries. `ErrorObject` is an `Error` instance
   * with its message; anything else thrown is `OtherValue`.
   */
  datatype Thrown = ErrorObject(message: string) | OtherValue

  /** The message of a thrown `Error`; for any other thrown value, the fallback. */
  function MessageOf(t: Thrown, fallback: string): (m: string)
    ensures t.ErrorObject? ==> m == t.message
    ensures t.OtherValue? ==> m == fallback
  {
    match t
    case ErrorObject(msg) => msg
    case OtherValue => fallback
  }

  /** Lookup by id: the first entry with that id, or nothing. */
  function FindById(s: seq<Issue>, id: string): (r: Option<Issue>)
    ensures r.None? <==> forall k :: 0 <= k < |s| ==> s[k].id != id
    ensures r.Some? ==> exists k :: 0 <= k < |s| && s[k] == r.value && r.value.id == id &&
                                    forall j :: 0 <= j < k ==> s[j].id != id
  {
    if |s| == 0 then None
    else if s[0].id == id then Some(s[0])
    else
      var r := FindById(s[1..], id);
      assert forall k :: 0 < k < |s| ==> s[k] == s[1..][k - 1];
      r
  }
}
