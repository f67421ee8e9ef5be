/**
 * The issue state engine (src/store/issueStore.ts). It owns the canonical
 * issue list, the active filter, and the derived view: the issues that pass
 * the filter, in priority order. Every action that changes the issues or the filters
 * rebuilds the view; starting a fetch and a failed fetch leave it as it was.
 *
 * Each asynchronous action is split into the step that starts it and the
 * step that completes it with the repository's outcome; the clock is `now`.
 */
module IssueStore {
  import opened Wrappers
  import opened Types
  import opened Priority

  // ---------------------------------------------------------------------
  // Search: ASCII case folding and `String.prototype.includes`
  // ---------------------------------------------------------------------

  function LowerChar(c: char): char
  {
    if 'A' <= c <= 'Z' then (c as int + 32) as char else c
  }

  /** `toLowerCase`, for ASCII letters. */
  function ToLower(s: string): string
  {
    seq(|s|, k requires 0 <= k < |s| => LowerChar(s[k]))
  }

  /** Folding is idempotent, keeps the length, and so keeps the empty string empty. */
  lemma ToLowerIdempotent(s: string)
    ensures ToLower(ToLower(s)) == ToLower(s)
    ensures |ToLower(s)| == |s|
  {
  }

  predicate StartsWith(text: string, prefix: string)
  {
    |prefix| <= |text| && text[..|prefix|] == prefix
  }

  /** The substring test: `query` occurs in `text` at some position. */
  predicate Includes(text: string, query: string)
    decreases |text|
  {
    StartsWith(text, query) || (|text| > 0 && Includes(text[1..], query))
  }

  /** `query` occurs in `text` starting at offset `k`. */
  predicate OccursAt(text: string, query: string, k: int)
  {
    0 <= k <= |text| - |query| && text[k..k + |query|] == query
  }

  /** An occurrence of `query` at any offset is found by `Includes`. */
  lemma {:induction false} IncludesAt(text: string, query: string, k: int)
    requires OccursAt(text, query, k)
    ensures Includes(text, query)
    decreases k
  {
    if k > 0 {
      assert text[1..][k - 1..k - 1 + |query|] == text[k..k + |query|];
      IncludesAt(text[1..], query, k - 1);
    }
  }

  /** Conversely, `Includes` holds only when `query` occurs at some offset. */
  lemma {:induction false} IncludesOnlyAt(text: string, query: string)
    requires Includes(text, query)
    ensures exists k :: OccursAt(text, query, k)
    decreases |text|
  {
    if StartsWith(text, query) {
      assert OccursAt(text, query, 0);
    } else {
      IncludesOnlyAt(text[1..], query);
      var k :| OccursAt(text[1..], query, k);
      assert text[1..][k..k + |query|] == text[k + 1..k + 1 + |query|];
      assert OccursAt(text, query, k + 1);
    }
  }

  /** The title or some tag, folded, includes the (already folded) query. */
  predicate MatchesSearch(issue: Issue, query: string)
  {
    Includes(ToLower(issue.title), query) ||
    exists k :: 0 <= k < |issue.tags| && Includes(ToLower(issue.tags[k]), query)
  }

  // ---------------------------------------------------------------------
  // Filtering
  // ---------------------------------------------------------------------

  /** The assignee stage runs only for an assignee that is neither null nor the empty string. */
  predicate AssigneeFilterActive(f: FilterOptions)
  {
    f.assignee.Some? && f.assignee.value != ""
  }

  /**
   * Whether an issue passes the filter: each of the three filters is a
   * conjunct, and a filter that is off (empty query, null or empty assignee,
   * null severity) passes everything.
   */
  predicate Keep(issue: Issue, f: FilterOptions)
  {
    && (f.searchQuery == "" || MatchesSearch(issue, ToLower(f.searchQuery)))
    && (AssigneeFilterActive(f) ==> issue.assignee == f.assignee.value)
    && (f.severity.Some? ==> issue.severity == f.severity.value)
  }

  /** The predicates the store filters by, as first-order values. */
  datatype Criterion =
    | TitleOrTagIncludes(query: string)
    | AssignedTo(name: string)
    | SeverityIs(level: int)
    | Passes(filters: FilterOptions)
    | Both(left: Criterion, right: Criterion)

  predicate Satisfies(issue: Issue, c: Criterion)
  {
    match c
    case TitleOrTagIncludes(q) => MatchesSearch(issue, q)
    case AssignedTo(name) => issue.assignee == name
    case SeverityIs(level) => issue.severity == level
    case Passes(f) => Keep(issue, f)
    case Both(l, r) => Satisfies(issue, l) && Satisfies(issue, r)
  }

  /** `Array.prototype.filter`: the entries satisfying `c`, in their order. */
  function FilterBy(s: seq<Issue>, c: Criterion): (r: seq<Issue>)
    ensures |r| <= |s|
  {
    if |s| == 0 then []
    else (if Satisfies(s[0], c) then [s[0]] else []) + FilterBy(s[1..], c)
  }

  /** What survives filtering: exactly the entries satisfying the criterion. */
  lemma {:induction false} FilterByMembers(s: seq<Issue>, c: Criterion)
    ensures forall x :: x in FilterBy(s, c) <==> x in s && Satisfies(x, c)
  {
    if |s| > 0 {
      FilterByMembers(s[1..], c);
      assert s == [s[0]] + s[1..];
    }
  }

  /** Filtering works piecewise, so the surviving entries keep their input order. */
  lemma {:induction false} FilterByConcat(a: seq<Issue>, b: seq<Issue>, c: Criterion)
    ensures FilterBy(a + b, c) == FilterBy(a, c) + FilterBy(b, c)
  {
    if |a| == 0 {
      assert a + b == b;
    } else {
      var ab := a + b;
      assert ab[0] == a[0];
      assert ab[1..] == a[1..] + b;
      var head := if Satisfies(a[0], c) then [a[0]] else [];
      FilterByConcat(a[1..], b, c);
      calc {
        FilterBy(ab, c);
        head + FilterBy(a[1..] + b, c);
        head + (FilterBy(a[1..], c) + FilterBy(b, c));
        (head + FilterBy(a[1..], c)) + FilterBy(b, c);
        FilterBy(a, c) + FilterBy(b, c);
      }
    }
  }

  /** Every occurrence of a satisfying entry survives, and no other does. */
  lemma {:induction false} FilterByCount(s: seq<Issue>, c: Criterion, x: Issue)
    ensures multiset(FilterBy(s, c))[x] == if Satisfies(x, c) then multiset(s)[x] else 0
  {
    if |s| > 0 {
      FilterByCount(s[1..], c, x);
      assert s == [s[0]] + s[1..];
      assert multiset(s) == multiset([s[0]]) + multiset(s[1..]);
    }
  }

  /** A criterion every entry satisfies removes nothing. */
  lemma {:induction false} FilterByKeepsAll(s: seq<Issue>, c: Criterion)
    requires forall x :: x in s ==> Satisfies(x, c)
    ensures FilterBy(s, c) == s
  {
    if |s| > 0 {
      FilterByKeepsAll(s[1..], c);
      assert s == [s[0]] + s[1..];
    }
  }

  /** Two criteria that agree on every entry filter alike. */
  lemma {:induction false} FilterByEquivalent(s: seq<Issue>, c: Criterion, d: Criterion)
    requires forall x :: x in s ==> (Satisfies(x, c) <==> Satisfies(x, d))
    ensures FilterBy(s, c) == FilterBy(s, d)
  {
    if |s| > 0 {
      FilterByEquivalent(s[1..], c, d);
    }
  }

  /** Filtering twice is filtering once by the conjunction. */
  lemma {:induction false} FilterByAnd(s: seq<Issue>, first: Criterion, second: Criterion, both: Criterion)
    requires forall x :: x in s ==> (Satisfies(x, both) <==> Satisfies(x, first) && Satisfies(x, second))
    ensures FilterBy(FilterBy(s, first), second) == FilterBy(s, both)
  {
    if |s| > 0 {
      assert s[0] in s;
      FilterByAnd(s[1..], first, second, both);
      var rest := FilterBy(s[1..], first);
      if Satisfies(s[0], first) {
        var once := [s[0]] + rest;
        assert FilterBy(s, first) == once;
        assert once[0] == s[0] && once[1..] == rest;
        assert FilterBy(once, second) == (if Satisfies(s[0], second) then [s[0]] else []) + FilterBy(rest, second);
      } else {
        assert FilterBy(s, first) == rest;
      }
    }
  }

  /** The search stage keeps the issues passing a filter that only searches. */
  lemma SearchStage(s: seq<Issue>, query: string)
    ensures (if query != "" then FilterBy(s, TitleOrTagIncludes(ToLower(query))) else s)
            == FilterBy(s, Passes(InitialFilters.(searchQuery := query)))
  {
    if query != "" {
      FilterByEquivalent(s, TitleOrTagIncludes(ToLower(query)), Passes(InitialFilters.(searchQuery := query)));
    } else {
      FilterByKeepsAll(s, Passes(InitialFilters));
    }
  }

  /** The assignee stage adds the assignee filter to the ones applied so far. */
  lemma AssigneeStage(s: seq<Issue>, applied: FilterOptions, assignee: Option<string>)
    requires applied.assignee.None?
    ensures var before := FilterBy(s, Passes(applied));
            var after := applied.(assignee := assignee);
            (if AssigneeFilterActive(after) then FilterBy(before, AssignedTo(assignee.value)) else before)
            == FilterBy(s, Passes(after))
  {
    var after := applied.(assignee := assignee);
    if AssigneeFilterActive(after) {
      FilterByAnd(s, Passes(applied), AssignedTo(assignee.value), Passes(after));
    } else {
      FilterByEquivalent(s, Passes(applied), Passes(after));
    }
  }

  /** The severity stage adds the severity filter to the ones applied so far. */
  lemma SeverityStage(s: seq<Issue>, applied: FilterOptions, severity: Option<int>)
    requires applied.severity.None?
    ensures var before := FilterBy(s, Passes(applied));
            var after := applied.(severity := severity);
            (if severity.Some? then FilterBy(before, SeverityIs(severity.value)) else before)
            == FilterBy(s, Passes(after))
  {
    var after := applied.(severity := severity);
    if severity.Some? {
      FilterByAnd(s, Passes(applied), SeverityIs(severity.value), Passes(after));
    } else {
      FilterByEquivalent(s, Passes(applied), Passes(after));
    }
  }

  /** The filters are independent conjuncts, so the order of two stages does not matter. */
  lemma FilterByCommutes(s: seq<Issue>, c: Criterion, d: Criterion)
    ensures FilterBy(FilterBy(s, c), d) == FilterBy(FilterBy(s, d), c)
  {
    FilterByAnd(s, c, d, Both(c, d));
    FilterByAnd(s, d, c, Both(c, d));
  }

  /** The derived view: the issues passing the filter, in priority order at `now`. */
  function View(issues: seq<Issue>, f: FilterOptions, now: int): seq<Issue>
  {
    SortIssuesByPriority(FilterBy(issues, Passes(f)), now)
  }

  /**
   * The view is a filter-then-sort projection: a permutation of the issues
   * passing the filter, holding exactly those, in ranked order.
   */
  lemma ViewIsFilterThenSort(issues: seq<Issue>, f: FilterOptions, now: int)
    ensures multiset(View(issues, f, now)) == multiset(FilterBy(issues, Passes(f)))
    ensures forall x :: x in View(issues, f, now) <==> x in issues && Keep(x, f)
    ensures Ranked(View(issues, f, now), now)
  {
    var selected := FilterBy(issues, Passes(f));
    FilterByMembers(issues, Passes(f));
    SortPermutes(selected, now);
    SortRanked(selected, now);
    forall x
      ensures x in View(issues, f, now) <==> x in selected
    {
      assert x in View(issues, f, now) <==> x in multiset(View(issues, f, now));
      assert x in selected <==> x in multiset(selected);
    }
  }

  /** With the initial filters (empty query, no assignee, no severity) the view holds every issue. */
  lemma InitialFiltersKeepAll(issues: seq<Issue>, now: int)
    ensures FilterBy(issues, Passes(InitialFilters)) == issues
    ensures multiset(View(issues, InitialFilters, now)) == multiset(issues)
  {
    FilterByKeepsAll(issues, Passes(InitialFilters));
    SortPermutes(issues, now);
  }

  /** Folding the query first does not change which issues pass: the search ignores case. */
  lemma SearchIgnoresQueryCase(issue: Issue, f: FilterOptions)
    ensures Keep(issue, f) <==> Keep(issue, f.(searchQuery := ToLower(f.searchQuery)))
  {
    ToLowerIdempotent(f.searchQuery);
  }

  /** A tag "BUG" matches the query "bug" whatever the title says. */
  lemma TagMatchesWhateverTheTitle(issue: Issue)
    requires "BUG" in issue.tags
    ensures Keep(issue, InitialFilters.(searchQuery := "bug"))
  {
    var k :| 0 <= k < |issue.tags| && issue.tags[k] == "BUG";
    assert ToLower("BUG") == "bug";
    assert ToLower("bug") == "bug";
    assert StartsWith(ToLower(issue.tags[k]), "bug");
  }

  // ---------------------------------------------------------------------
  // Keyed replacement of entries
  // ---------------------------------------------------------------------

  /** Every entry with the id takes the patch's fields and a fresh `updatedAt`; the others stay. */
  function PatchMatching(s: seq<Issue>, id: string, patch: IssuePatch, now: int): seq<Issue>
  {
    seq(|s|, k requires 0 <= k < |s| => if s[k].id == id then Spread(s[k], patch).(updatedAt := now) else s[k])
  }

  /** Every entry with the id becomes `replacement`; the others stay. */
  function ReplaceMatching(s: seq<Issue>, id: string, replacement: Issue): seq<Issue>
  {
    seq(|s|, k requires 0 <= k < |s| => if s[k].id == id then replacement else s[k])
  }

  /**
   * An optimistic update keeps the length and order, leaves every other entry
   * alone, and changes nothing when no entry has the id.
   */
  lemma PatchMatchingChangesOnlyMatches(s: seq<Issue>, id: string, patch: IssuePatch, now: int)
    ensures |PatchMatching(s, id, patch, now)| == |s|
    ensures forall k :: 0 <= k < |s| && s[k].id != id ==> PatchMatching(s, id, patch, now)[k] == s[k]
    ensures forall k :: 0 <= k < |s| && s[k].id == id ==>
              PatchMatching(s, id, patch, now)[k].updatedAt == now &&
              PatchMatching(s, id, patch, now)[k] == Spread(s[k], patch).(updatedAt := now)
    ensures (forall k :: 0 <= k < |s| ==> s[k].id != id) ==> PatchMatching(s, id, patch, now) == s
  {
  }

  /**
   * Round trip: an optimistic update followed by a revert to the snapshot
   * taken before it restores the list exactly, `updatedAt` included, provided
   * the snapshot is what the list held under that id and the patch keeps ids.
   */
  lemma OptimisticThenRevertRestores(s: seq<Issue>, snapshot: Issue, patch: IssuePatch, now: int)
    requires patch.id.None? || patch.id == Some(snapshot.id)
    requires forall k :: 0 <= k < |s| && s[k].id == snapshot.id ==> s[k] == snapshot
    ensures ReplaceMatching(PatchMatching(s, snapshot.id, patch, now), snapshot.id, snapshot) == s
  {
  }

  // ---------------------------------------------------------------------
  // The store
  // ---------------------------------------------------------------------

  class IssueState {
    var issues: seq<Issue>
    var filteredIssues: seq<Issue>
    var filters: FilterOptions
    var isLoading: bool
    var error: Option<string>
    var lastSyncTime: Option<int>
    /** The clock reading at which the view was last rebuilt. */
    ghost var viewTime: int

    /** The view is the filter-then-sort projection of the issues under the filters. */
    ghost predicate Valid()
      reads this
    {
      filteredIssues == View(issues, filters, viewTime)
    }

    constructor()
      ensures Valid()
      ensures issues == [] && filteredIssues == [] && filters == InitialFilters
      ensures !isLoading && error.None? && lastSyncTime.None?
    {
      issues := [];
      filteredIssues := [];
      filters := InitialFilters;
      isLoading := false;
      error := None;
      lastSyncTime := None;
      viewTime := 0;
    }

    /** `applyFilters`: search, then assignee, then severity, then the priority sort. */
    method ApplyFilters(now: int)
      modifies this`filteredIssues, this`viewTime
      ensures filteredIssues == View(issues, filters, now)
      ensures viewTime == now && Valid()
    {
      var filtered := issues;
      if filters.searchQuery != "" {
        var query := ToLower(filters.searchQuery);
        filtered := FilterBy(filtered, TitleOrTagIncludes(query));
      }
      SearchStage(issues, filters.searchQuery);
      // `applied` is the part of the filter the stages so far have applied.
      ghost var applied := InitialFilters.(searchQuery := filters.searchQuery);

      if AssigneeFilterActive(filters) {
        filtered := FilterBy(filtered, AssignedTo(filters.assignee.value));
      }
      AssigneeStage(issues, applied, filters.assignee);
      applied := applied.(assignee := filters.assignee);

      if filters.severity.Some? {
        filtered := FilterBy(filtered, SeverityIs(filters.severity.value));
      }
      SeverityStage(issues, applied, filters.severity);
      applied := applied.(severity := filters.severity);
      assert applied == filters;

      filteredIssues := SortIssuesByPriority(filtered, now);
      viewTime := now;
    }

    /** The synchronous start of `fetchIssues`: loading, no error. */
    method BeginFetch()
      requires Valid()
      modifies this`isLoading, this`error
      ensures isLoading && error.None?
      ensures Valid()
    {
      isLoading := true;
      error := None;
    }

    /**
     * The completion of `fetchIssues`. Success replaces the issues wholesale,
     * stamps the sync time and rebuilds the view; failure records the message
     * and leaves the issues and the view alone. Loading ends either way.
     */
    method CompleteFetch(outcome: Result<seq<Issue>, Thrown>, now: int)
      requires Valid()
      modifies this`issues, this`filteredIssues, this`viewTime, this`isLoading, this`error, this`lastSyncTime
      ensures !isLoading
      ensures Valid()
      ensures outcome.Success? ==>
                issues == outcome.value && lastSyncTime == Some(now) && error == old(error) &&
                filteredIssues == View(issues, filters, now)
      ensures outcome.Failure? ==>
                issues == old(issues) && filteredIssues == old(filteredIssues) &&
                lastSyncTime == old(lastSyncTime) &&
                error == Some(MessageOf(outcome.error, "Failed to fetch issues"))
    {
      match outcome
      case Success(fetched) => FetchSucceeded(fetched, now);
      case Failure(e) => FetchFailed(e);
    }

    /** The `try` path of `fetchIssues`. */
    method FetchSucceeded(fetched: seq<Issue>, now: int)
      modifies this`issues, this`filteredIssues, this`viewTime, this`isLoading, this`lastSyncTime
      ensures issues == fetched && lastSyncTime == Some(now) && !isLoading
      ensures filteredIssues == View(issues, filters, now) && Valid()
    {
      issues := fetched;
      lastSyncTime := Some(now);
      ApplyFilters(now);
      isLoading := false;
    }

    /** The `catch` path of `fetchIssues`. */
    method FetchFailed(e: Thrown)
      requires Valid()
      modifies this`isLoading, this`error
      ensures error == Some(MessageOf(e, "Failed to fetch issues")) && !isLoading
      ensures Valid()
    {
      error := Some(MessageOf(e, "Failed to fetch issues"));
      isLoading := false;
    }

    /**
     * The completion of `updateIssue(id, patch)`; starting it only calls the
     * repository. Success replaces every entry with that id by the server's
     * issue and rebuilds the view; failure records the message, changes no
     * issue, and hands the error back to the caller (the rethrow).
     */
    method CompleteUpdate(id: string, outcome: Result<Issue, Thrown>, now: int) returns (rethrown: Option<Thrown>)
      requires Valid()
      modifies this`issues, this`filteredIssues, this`viewTime, this`error
      ensures Valid()
      ensures outcome.Success? ==>
                issues == ReplaceMatching(old(issues), id, outcome.value) && error == old(error) &&
                filteredIssues == View(issues, filters, now) && rethrown.None?
      ensures outcome.Failure? ==>
                issues == old(issues) && filteredIssues == old(filteredIssues) &&
                error == Some(MessageOf(outcome.error, "Failed to update issue")) &&
                rethrown == Some(outcome.error)
    {
      match outcome
      case Success(updated) =>
        issues := ReplaceMatching(issues, id, updated);
        ApplyFilters(now);
        rethrown := None;
      case Failure(e) =>
        error := Some(MessageOf(e, "Failed to update issue"));
        rethrown := Some(e);
    }

    /**
     * `updateIssueOptimistic`: every entry with the id takes the patch's
     * fields and `updatedAt = now`; nothing else changes; the view is rebuilt.
     */
    method UpdateIssueOptimistic(id: string, patch: IssuePatch, now: int)
      modifies this`issues, this`filteredIssues, this`viewTime
      ensures issues == PatchMatching(old(issues), id, patch, now)
      ensures filteredIssues == View(issues, filters, now) && Valid()
    {
      issues := PatchMatching(issues, id, patch, now);
      ApplyFilters(now);
    }

    /** `revertIssue`: every entry with the snapshot's id becomes the snapshot; the view is rebuilt. */
    method RevertIssue(snapshot: Issue, now: int)
      modifies this`issues, this`filteredIssues, this`viewTime
      ensures issues == ReplaceMatching(old(issues), snapshot.id, snapshot)
      ensures filteredIssues == View(issues, filters, now) && Valid()
    {
      issues := ReplaceMatching(issues, snapshot.id, snapshot);
      ApplyFilters(now);
    }

    /** `setFilters`: merges the partial filter, keeping unspecified fields; the view is rebuilt. */
    method SetFilters(patch: FilterPatch, now: int)
      modifies this`filters, this`filteredIssues, this`viewTime
      ensures filters == MergeFilters(old(filters), patch)
      ensures filteredIssues == View(issues, filters, now) && Valid()
    {
      filters := MergeFilters(filters, patch);
      ApplyFilters(now);
    }
  }

  /**
   * From any current filter, setting the same partial filter twice leaves
   * the same filters and the same view as setting it once.
   */
  method SetFiltersTwice(issues: seq<Issue>, start: FilterOptions, patch: FilterPatch, now: int)
    returns (once: seq<Issue>, twice: seq<Issue>, filtersOnce: FilterOptions, filtersTwice: FilterOptions)
    ensures once == twice && filtersOnce == filtersTwice
    ensures filtersOnce == MergeFilters(start, patch)
    ensures once == View(issues, MergeFilters(start, patch), now)
  {
    var store := new IssueState();
    store.CompleteFetch(Success(issues), now);
    // Bring the store to the arbitrary starting filter first.
    store.SetFilters(FilterPatch(Some(start.searchQuery), Some(start.assignee), Some(start.severity)), now);
    assert store.filters == start;
    store.SetFilters(patch, now);
    once, filtersOnce := store.filteredIssues, store.filters;
    store.SetFilters(patch, now);
    twice, filtersTwice := store.filteredIssues, store.filters;
    MergeFiltersIdempotent(start, patch);
  }
}
