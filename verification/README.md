# Kanban issue board: the client-side issue state engine

This project models the client side of a kanban issue board in Dafny. The board has three columns: backlog, in progress and done. The model covers these parts:

- **Issue store.** It holds the canonical issue list, the active filter and a derived view of the issues. The view holds the issues that pass the filter, in priority order. Every action that changes the issues or the filters rebuilds the view; starting a fetch and a failed fetch leave it as it was.
- **Priority ranking.** It gives each issue an integer score. The sort is stable: highest score first, newer first on equal scores, input order on full ties.
- **Drag controller.** It decides what a card drop does. A move updates the store optimistically and shows a toast with an undo. It then persists the change, and reverts it if the persist is rejected.
- **Supporting leaves:**
  - the toast queue;
  - the recently-accessed list;
  - the repository stub;
  - the role permissions;
  - the label and badge maps.

## How the code maps to Dafny

- **Stores as classes.** The store and the toast queue are Dafny classes. Each has the fields the source overwrites. The board component is a class over both stores, holding the drag state (`activeId`, `previousIssue`).
- **The view invariant.** `IssueState.Valid()` states it: `filteredIssues` is `View(issues, filters, t)` for the clock `t` of the last rebuild. Every action preserves it.
- **Async actions.** Each one is split into the step that starts it and a completion step. The completion step takes the repository's outcome as a `Result`. The begin step of a persist is the `PersistRequest` a move returns.
- **Clocks.** All clock readings are a parameter `now`, in integer milliseconds.
- **Undo callbacks.** The board attaches a closure to a move toast. The model keeps it as data, `UndoToken`, which carries the snapshot the closure captured.

## Model

| member | source | states |
|---|---|---|
| Types.ParseStatus | src/types/index.ts:1-7 | A string reads back as a status exactly when it is that status's code. |
| Types.SpreadProperties | src/store/issueStore.ts:73 | An object spread (`Spread`) keeps the fields the patch lacks. It takes the fields the patch carries. An empty patch changes nothing, and spreading twice equals spreading once. |
| Types.MergeFilters | src/store/issueStore.ts:86-89 | Merging a partial filter keeps each field the partial leaves out. It takes each field the partial carries, including an explicit null. |
| Types.MergeFiltersIdempotent | src/store/issueStore.ts:86-89 | Merging the same partial filter twice equals merging it once. |
| Types.MessageOf | src/store/issueStore.ts:47 | An `Error` yields its message; any other thrown value yields the fallback text. |
| Types.FindById | src/utils/api.ts:17 | `find` by id returns nothing exactly when no entry has the id. Otherwise it returns the first entry with the id. |
| Priority.DaysSinceCreated | src/utils/priorityCalculator.ts:4-6 | The age is the floor of elapsed time over one day: `days` whole days fit in the elapsed time and `days + 1` do not. This holds for negative ages too. |
| Priority.PriorityOfAge | src/utils/priorityCalculator.ts:3-10 | `CalculatePriority`: for an issue `days` whole days old, the priority is `severity*10 - days + rank`. |
| Priority.ThreeDaysOldExample | src/utils/priorityCalculator.test.ts:23-33 | Severity 5, rank 10, created three days ago: priority 57. |
| Priority.CreatedNowExamples | src/utils/priorityCalculator.test.ts:66-87 | Created now, the priority is 0 for severity 0 and rank 0. It is 40 for severity 5 and rank -10, and 50 for severity 5 and rank 0. |
| Priority.YearOldExample | src/utils/priorityCalculator.test.ts:101-111 | Severity 5, a year old: priority -315, not clamped. |
| Priority.RankShiftsPriority | src/utils/priorityCalculator.test.ts:58-64 | Raising the rank by k raises the priority by exactly k. |
| Priority.SeverityRaisesPriority | src/utils/priorityCalculator.test.ts:35-40 | A higher severity gives a strictly higher priority, by ten per level. |
| Priority.OlderIsNotHigher | src/utils/priorityCalculator.test.ts:42-56 | An earlier creation never raises the priority. It lowers the priority as soon as it adds a whole day of age. |
| Priority.Compare | src/utils/priorityCalculator.ts:13-24 | The comparator is negative exactly when `a` outranks `b`: higher priority, or equal priority and newer. It is positive exactly when `b` outranks `a`, and zero exactly on a full tie. |
| Priority.SortPermutes | src/utils/priorityCalculator.ts:12-13 | `SortIssuesByPriority` returns a permutation of its input: same multiset, same length. |
| Priority.SortRanked | src/utils/priorityCalculator.ts:17-23 | In the output no later entry outranks an earlier one, and priority never increases along it. |
| Priority.SortStable | src/utils/priorityCalculator.ts:13 | Entries in a full tie keep their input order. |
| Priority.SortSmallInputs | src/utils/priorityCalculator.test.ts:178-189 | Empty input gives empty output, and a single issue comes back unchanged. |
| Priority.EqualPriorityNewestFirst | src/utils/priorityCalculator.test.ts:219-239 | Three issues of equal priority come out newest first. |
| Permissions.CapabilitiesAgree | src/utils/permissions.ts:4-18 | Each of the four capabilities holds exactly for admins, so all four agree. |
| Permissions.ReadOnlyIsNoMove | src/utils/permissions.ts:8-22 | Read-only holds exactly when the move capability does not. |
| SeverityLabels.GetSeverityLabel | src/utils/severityLabels.ts:3-13 | Levels 1 to 5 get a label other than "Unknown", and every other severity gets "Unknown". No label is empty. |
| SeverityLabels.SeverityOptionsMatchLabels | src/utils/severityLabels.ts:15-21 | There are five options, valued 5 down to 1. Each is captioned with its level's label, never "Unknown". |
| SeverityLabels.SeverityLabelsDistinct | src/utils/severityLabels.ts:3-9 | Distinct known levels have distinct labels. |
| StatusLabels.GetStatusLabel | src/utils/statusLabels.ts:3-11 | Every status has a non-empty label. |
| StatusLabels.StatusLabelsDistinct | src/utils/statusLabels.ts:3-7 | Distinct statuses have distinct labels. |
| BadgeVariants.GetSeverityVariant | src/utils/badgeVariants.ts:5-9 | Danger exactly from severity 4 up, warning exactly at 3, secondary exactly below 3. |
| BadgeVariants.SeverityVariantMonotone | src/utils/badgeVariants.ts:5-9 | A higher severity never gets a less urgent badge under secondary < warning < danger. |
| BadgeVariants.GetStatusVariant | src/utils/badgeVariants.ts:11-21 | Success exactly for done, warning exactly for in progress, secondary exactly for backlog. |
| RecentlyAccessed.Without | src/hooks/useRecentlyAccessed.ts:11 | The filtered list holds exactly the other ids and is no longer than before. |
| RecentlyAccessed.WithoutConcat | src/hooks/useRecentlyAccessed.ts:11 | Removal works piecewise over a concatenation, so the remaining ids keep their relative order. |
| RecentlyAccessed.WithoutCount | src/hooks/useRecentlyAccessed.ts:11 | Every copy of the removed id goes, and every other id keeps its number of copies. |
| RecentlyAccessed.WithoutAbsent | src/hooks/useRecentlyAccessed.ts:11 | Filtering out an absent id changes nothing. |
| RecentlyAccessed.AddRecentIssue | src/hooks/useRecentlyAccessed.ts:4-15 | The new list starts with the id, holds it exactly once and has at most five entries. The rest is the previous list without the id, in its order, truncated. |
| RecentlyAccessed.AddRecentIssueIdempotent | src/hooks/useRecentlyAccessed.ts:9-15 | Adding the same id twice in a row equals adding it once. |
| RecentlyAccessed.ClearRecentIssues | src/hooks/useRecentlyAccessed.ts:17-19 | Clearing gives the empty list. |
| Api.GetIssues | src/utils/api.ts:10-13 | The dataset is returned unchanged. |
| Api.GetIssueById | src/utils/api.ts:15-19 | The result is a dataset entry with that id. It is null exactly when no entry has the id. |
| Api.UpdateIssue | src/utils/api.ts:21-34 | The update fails exactly for an unknown id, with "Issue <id> not found". Otherwise the result is the dataset entry spread with the patch, stamped `updatedAt = now` even when the patch sets it. |
| Api.UpdateIssueStatus | src/utils/api.ts:36-38 | It fails exactly when `updateIssue` would. It sets the status and the stamp and keeps every other field of the entry. |
| Api.ResolveIssue | src/utils/api.ts:40-42 | It fails exactly for an unknown id. Otherwise the issue comes back done. |
| Api.UpdatesDoNotAccumulate | src/utils/api.ts:23-33 | The dataset is never written: a status update reports its new status, yet an update of the same dataset that does not carry the status still reports the dataset's own status. |
| IssueStore.ToLowerIdempotent | src/store/issueStore.ts:100-103 | Case folding is idempotent and keeps the length. |
| IssueStore.IncludesAt | src/store/issueStore.ts:102-103 | An occurrence of the query at any offset makes `includes` true. |
| IssueStore.IncludesOnlyAt | src/store/issueStore.ts:102-103 | `includes` is true only if the query occurs at some offset. |
| IssueStore.FilterByMembers | src/store/issueStore.ts:101-114 | `FilterBy`, the model of `filter`, keeps exactly the entries satisfying the predicate. |
| IssueStore.FilterByConcat | src/store/issueStore.ts:101-114 | Filtering works piecewise over a concatenation, so the surviving entries keep their input order. |
| IssueStore.FilterByCount | src/store/issueStore.ts:101-114 | Every occurrence of a satisfying entry survives, and no occurrence of any other entry does, so the result is a sub-multiset of the input. |
| IssueStore.FilterByKeepsAll | src/store/issueStore.ts:96-105 | A predicate every entry satisfies removes nothing, so an empty query or the initial filters keep every issue. |
| IssueStore.FilterByEquivalent | src/store/issueStore.ts:99-115 | Predicates that agree on every entry filter alike. |
| IssueStore.FilterByAnd | src/store/issueStore.ts:99-115 | Two successive filters equal one filter by their conjunction. |
| IssueStore.SearchStage | src/store/issueStore.ts:99-105 | The search stage equals filtering by a filter that only searches. It runs only for a non-empty query and matches the folded title or any folded tag against the folded query. |
| IssueStore.AssigneeStage | src/store/issueStore.ts:108-110 | The assignee stage adds an exact assignee match, and only for a non-null, non-empty assignee. |
| IssueStore.SeverityStage | src/store/issueStore.ts:113-115 | The severity stage adds an exact severity match whenever the severity is not null. |
| IssueStore.FilterByCommutes | src/store/issueStore.ts:99-115 | The filter stages are independent: their order does not change the result. |
| IssueStore.ViewIsFilterThenSort | src/store/issueStore.ts:93-121 | The view (`View`, filter then sort) is a permutation of the issues passing the filter. It holds exactly the issues that pass and is in ranked order. |
| IssueStore.InitialFiltersKeepAll | src/store/issueStore.ts:26-30 | Under the initial filters the view holds every issue. |
| IssueStore.SearchIgnoresQueryCase | src/store/issueStore.ts:100 | Folding the query first does not change which issues pass. |
| IssueStore.TagMatchesWhateverTheTitle | src/store/issueStore.ts:103 | A tag "BUG" makes an issue pass the query "bug", whatever its title. |
| IssueStore.PatchMatchingChangesOnlyMatches | src/store/issueStore.ts:70-75 | An optimistic update (`PatchMatching`) keeps the length and order and every entry with another id. Each matching entry takes the patch's fields and `updatedAt = now`. An unknown id changes nothing. |
| IssueStore.OptimisticThenRevertRestores | src/store/issueStore.ts:70-84 | An optimistic update followed by a revert (`ReplaceMatching`) to the prior snapshot restores the list exactly, `updatedAt` included. |
| IssueStore.IssueState.constructor | src/store/issueStore.ts:24-33 | The store starts empty under the initial filters. It is not loading and has no error and no sync time, and the view invariant holds. |
| IssueStore.IssueState.ApplyFilters | src/store/issueStore.ts:93-121 | Running the three stages in order and then the sort leaves `filteredIssues` equal to the view of `issues` under `filters`. |
| IssueStore.IssueState.BeginFetch | src/store/issueStore.ts:36 | Starting a fetch sets loading and clears the error. |
| IssueStore.IssueState.CompleteFetch | src/store/issueStore.ts:35-51 | On success the issues are replaced wholesale, the sync time is set and the view is rebuilt. On failure the issues, view and sync time stay and the error message is recorded. Loading ends either way. |
| IssueStore.IssueState.FetchSucceeded | src/store/issueStore.ts:38-44 | The success path replaces the issues, stamps the sync time, ends loading and rebuilds the view. |
| IssueStore.IssueState.FetchFailed | src/store/issueStore.ts:45-49 | The failure path records the message or the fallback text and ends loading. It changes no issue. |
| IssueStore.IssueState.CompleteUpdate | src/store/issueStore.ts:53-67 | On success every entry with the id becomes the server's issue and the view is rebuilt. On failure no issue changes, the error is set and the error is handed back to rethrow. |
| IssueStore.IssueState.UpdateIssueOptimistic | src/store/issueStore.ts:70-77 | Matching entries take the patch and `updatedAt = now`, and the view is rebuilt. |
| IssueStore.IssueState.RevertIssue | src/store/issueStore.ts:79-84 | Matching entries become the snapshot verbatim, and the view is rebuilt. |
| IssueStore.IssueState.SetFilters | src/store/issueStore.ts:86-91 | The partial filter is merged in and the view is rebuilt. |
| IssueStore.SetFiltersTwice | src/store/issueStore.ts:86-91 | From any starting filter, setting the same partial filter twice leaves the same filters and view as setting it once; the filters are the merge of the start with the partial. |
| ToastStore.NatToString | src/store/toastStore.ts:14 | A number renders as a non-empty string of decimal digits. |
| ToastStore.NatRoundTrip | src/store/toastStore.ts:14 | Reading a rendered number back gives the number. |
| ToastStore.IntRoundTrip | src/store/toastStore.ts:14 | Reading a rendered clock value, sign included, back gives the value. |
| ToastStore.ToastId | src/store/toastStore.ts:14 | A toast id is "toast-" followed by the clock reading: the part after the prefix reads back as `now`. |
| ToastStore.ToastIdsDistinct | src/store/toastStore.ts:14 | Two toast ids are equal exactly when they were made in the same millisecond. |
| ToastStore.DismissMembers | src/store/toastStore.ts:31 | Dismissing an id (`Dismiss`) keeps exactly the toasts with another id. |
| ToastStore.DismissConcat | src/store/toastStore.ts:31 | Dismissal works piecewise, so the surviving toasts keep their order. |
| ToastStore.DismissUnknown | src/store/toastStore.ts:31 | Dismissing an id no toast has changes nothing. |
| ToastStore.DismissTwice | src/store/toastStore.ts:31 | Dismissing twice equals dismissing once. |
| ToastStore.ExpiryRemovesOnlyItsInstant | src/store/toastStore.ts:21-26 | Expiry removes the new toast and leaves the earlier ones in place, unless one was made in the same millisecond. |
| ToastStore.SameInstantToastsDismissedTogether | src/store/toastStore.ts:14-31 | Two toasts made in the same millisecond share an id, so dismissing one dismisses both. |
| ToastStore.ToastState.AddToast | src/store/toastStore.ts:13-27 | Exactly one toast is appended at the end, with the given message, type and undo. Earlier toasts are unchanged, and the returned expiry id is the new toast's id. |
| ToastStore.ToastState.RemoveToast | src/store/toastStore.ts:29-33 | Every toast with the id is removed and the rest stay in order. |
| Board.ParseStatusCode | src/components/Board/Column.tsx:17-19 | A column's droppable id reads back as its status. |
| Board.AsWrittenNewStatus | src/components/Board/Board.tsx:82-85 | As written, a drop leaves the issue alone exactly when `over.id` equals its current status code. Otherwise `over.id` itself becomes the status. |
| Board.AsWrittenCardDropLeavesStatuses | src/components/Board/Board.tsx:82-91 | Dropping on any card whose id is no status code, such as "ISSUE-002", would, as written, store that id as the status, which is the code of no status. |
| Board.ResolveDropTarget | src/components/Board/Board.tsx:82 | The drop target is no target exactly when `over.id` is neither a column id nor a card of the view. Otherwise it is the named column, or the column of the card dropped on. |
| Board.DropOnColumn | src/components/Board/Board.tsx:82 | A drop on a column targets that column's status. |
| Board.DropOnCardJoinsItsColumn | src/components/Board/Board.tsx:82 | A drop on a card targets that card's column. |
| Board.DecideDrop | src/components/Board/Board.tsx:73-88 | Without the move capability nothing happens. There is no move for a missing target, a drop on the card itself, a card absent from the view, or a drop on its own status. A move carries the viewed issue and a different target status, and a permitted drop with a resolved target other than the issue's status is always a move. The target is resolved by `ResolveDropTarget`, the corrected target of the Findings row, not by casting `over.id`. |
| Board.DropOnCardMoves | src/components/Board/Board.tsx:76-91 | A permitted drop of a viewed issue on a card of another column moves the issue into that card's column (the corrected behaviour of the Findings row). |
| Board.DropOnOtherColumnMoves | src/components/Board/Board.tsx:76-91 | A permitted drop of a viewed issue on another column is a move there. |
| Board.MoveMessage | src/components/Board/Board.tsx:93-97 | The move toast reads "<id>: <title> moved from <old label> to <new label>". The "from" part is omitted when there is no snapshot. |
| Board.IssuesInStatusMembers | src/components/Board/Board.tsx:46-52 | A column (`IssuesInStatus`) holds exactly the view's issues of its status. |
| Board.IssuesInStatusConcat | src/components/Board/Board.tsx:46-52 | A column is computed piecewise, so it keeps the view's order. |
| Board.ColumnsPartitionView | src/components/Board/Board.tsx:46-52 | The three columns together hold every issue of the view exactly once. |
| Board.BeforeIrreflexive | src/components/Board/Board.tsx:57 | No string sorts before itself. |
| Board.BeforeTransitive | src/components/Board/Board.tsx:57 | The default string order is transitive. |
| Board.BeforeTotal | src/components/Board/Board.tsx:57 | Of two different strings, one sorts before the other. |
| Board.InsertSorted | src/components/Board/Board.tsx:56-57 | Inserting into the set adds exactly the new string. |
| Board.InsertSortedSorted | src/components/Board/Board.tsx:56-57 | Inserting keeps a sorted, repeat-free list sorted. |
| Board.Assignees | src/components/Board/Board.tsx:54-58 | The list holds exactly the assignees of the given issues. |
| Board.BoardState.AssigneeChoices | src/components/Board/Board.tsx:54-58 | The board's assignee choices are drawn from every stored issue, not only the filtered ones: each stored issue's assignee is among them. |
| Board.BoardState.Column | src/components/Board/Board.tsx:46-52 | A column of the board holds exactly the filtered view's issues of its status. |
| Board.FilterNarrowsColumnsNotChoices | src/components/Board/Board.tsx:46-58 | Setting a filter leaves the assignee choices as they were, and they still list every issue's assignee. A column then holds exactly the issues passing the new filter with its status. |
| Board.AssigneesSortedDistinct | src/components/Board/Board.tsx:56-57 | The assignee list is sorted and has no repeats. |
| Board.BoardState.constructor | src/components/Board/Board.tsx:20-23 | The board starts with no active card and no snapshot. |
| Board.BoardState.HandleDragStart | src/components/Board/Board.tsx:60-70 | Without the move capability nothing changes. Otherwise the card becomes active, and the snapshot is the view's copy of the card when the view has one; else the earlier snapshot stays. |
| Board.BoardState.HandleDragEnd | src/components/Board/Board.tsx:72-121 | A refused drop changes nothing, and an empty drop clears only the active id. A move patches the issue's status optimistically and rebuilds the view. It appends one info toast whose undo restores the pre-drop snapshot, returns the persist request for the same id and patch, and clears the active id and the snapshot. The new status is the corrected target of the Findings row: a drop on a card moves to that card's column. |
| Board.BoardState.CompletePersist | src/components/Board/Board.tsx:111-117 | A successful persist stores the server's issue, rebuilds the view, leaves the store's error as it was and shows no toast. A rejection sets the store's error; without a snapshot the issues and view stay. With a snapshot, it also reverts to the snapshot, rebuilds the view at `now` and appends exactly one error toast, "Failed to update issue. Change reverted.". |
| Board.BoardState.Undo | src/components/Board/Board.tsx:102-107 | With a snapshot, undo reverts to it, rebuilds the view at `now` and appends one success toast "<id>: <title> restored to <label>" (`RestoredMessage`). Without one it does nothing. |
| Board.BoardState.PressUndo | src/components/common/Toast/Toast.tsx:19-22 | Pressing Undo runs the undo, then dismisses the pressed toast's id. |
| Board.NewBoard | src/components/Board/Board.tsx:36-38 | A newly mounted board has fetched the issues, shows all of them under the initial filters, and has no toasts and no drag state. |
| Board.InitialViewFinds | src/components/Board/Board.tsx:66 | With unique ids, looking up a viewed issue by id in the initial view finds that issue. |
| Board.MoveThenUndoRestores | src/components/Board/Board.tsx:90-108 | An admin's move followed by Undo restores the issues exactly. The queue then holds only the "restored" toast. |
| Board.FailedMoveReverts | src/components/Board/Board.tsx:90-117 | An admin's move whose persist is rejected restores the issues exactly. The queue is exactly two toasts: the move's info toast with its undo, then one error toast "Failed to update issue. Change reverted.". |
| Board.ContributorDragIsInert | src/components/Board/Board.tsx:60-73 | A contributor's drag changes no issue, shows no toast and persists nothing, wherever the card is dropped. |

## Left out

- **Timers.** The five-second toast expiry, the 500 ms repository delay and the 10-second polling are not modelled. Expiry is an explicit `RemoveToast` of the id `AddToast` returns. A completion is an explicit call carrying the repository's outcome.
- **Async interleavings.** The model has no concurrency: a persist still in flight racing an undo, two drags of the same issue, or a poll landing between a move and its persist.
- **Drag library.** The sensors, the activation distance and the drag overlay of the drag-and-drop library are left out. A drop is given as the active card id and the optional id of what it landed on.
- **Rendering.** Rendering, routing and the issue page are left out.
- **Persistence.** The local storage behind the recently-accessed list is not part of this model; only its state updaters are.
- **Time, case and numbers.**
  - ISO-8601 timestamps are integer milliseconds.
  - `toLocaleTimeString` is left out.
  - Severity and rank are integers, not floating-point numbers.
  - Case folding covers ASCII letters only.
  - String order is by Dafny character value, which agrees with UTF-16 code-unit order outside surrogate pairs.
- **Clock reads during a sort.** The clock is read once for the whole sort. The source reads `Date.now()` inside every comparison, so a sort during which an issue's age ticks over a whole day is not modelled.
- **Sort algorithm.** The sort is defined as a stable insertion sort. `Array.prototype.sort` is stable, and the model keeps that property; the engine's own algorithm and comparison count are not modelled.
- **Single dataset.** `getIssues` returns the same dataset on every call, and each fetch is given its issue list as the completion's outcome.
- Board.DecideDrop: models the corrected drop target of the Findings row; for a drop on another card it moves the issue to that card's column, where the code as written stores the card's id as the status (that behaviour is `AsWrittenNewStatus`).
- Board.BoardState.HandleDragEnd: uses `DecideDrop`, so it too models the corrected drop target rather than the cast of `over.id` at Board.tsx:82.
- **Board render state.** `activeIssue` and the sync-time display only feed rendering.

## Findings

| source | as written | input that shows it | evidently intended | confidence | as-written member | corrected member |
|---|---|---|---|---|---|---|
| src/components/Board/Board.tsx:82 | `over.id` is cast to a status. But each card is itself a drop target (`useSortable` with the issue id), so `over.id` can be a card id. | Drag a backlog issue onto the card "ISSUE-002". The issue's status becomes "ISSUE-002", which is no column. | A drop on a card moves the issue to that card's column. | medium, not executed | Board.AsWrittenCardDropLeavesStatuses | Board.DropOnCardMoves |
