/**
 * The board's drag controller and derived lists
 * (src/components/Board/Board.tsx): the decision a drop makes, the toasts it
 * emits, the undo it offers, and the per-column and assignee lists.
 */
module Board {
  import opened Wrappers
  import opened Types
  import opened Permissions
  import opened StatusLabels
  import opened IssueStore
  import opened ToastStore

  // ---------------------------------------------------------------------
  // Where a card was dropped
  // ---------------------------------------------------------------------

  /** A status code reads back as its status. */
  lemma ParseStatusCode(s: IssueStatus)
    ensures ParseStatus(StatusCode(s)) == Some(s)
  {
  }

  /**
   * The status the code as written gives a dropped issue: `over.id` cast to
   * a status, unless it equals the issue's current status code.
   */
  function AsWrittenNewStatus(issue: Issue, overId: string): (written: Option<string>)
    ensures written.None? <==> overId == StatusCode(issue.status)
    ensures written.Some? ==> written.value == overId
  {
    if StatusCode(issue.status) == overId then None else Some(overId)
  }

  /**
   * Cards are drop targets too, so `over.id` can be another card's id, such
   * as "ISSUE-002"; whatever the dragged issue, the code as written then
   * stores that id as the issue's status, which is no status at all.
   */
  lemma AsWrittenCardDropLeavesStatuses(issue: Issue, card: Issue)
    requires forall s: IssueStatus :: StatusCode(s) != card.id
    ensures AsWrittenNewStatus(issue, card.id) == Some(card.id)
    ensures forall s: IssueStatus :: StatusCode(s) != AsWrittenNewStatus(issue, card.id).value
  {
  }

  /**
   * The column a drop lands in: a column's own id names its status, and a
   * card of the view stands for the column it sits in. Anything else is no
   * target.
   */
  function ResolveDropTarget(overId: string, view: seq<Issue>): (target: Option<IssueStatus>)
    ensures target.None? <==>
              (forall s: IssueStatus :: StatusCode(s) != overId) &&
              (forall k :: 0 <= k < |view| ==> view[k].id != overId)
    ensures target.Some? ==>
              StatusCode(target.value) == overId ||
              exists k :: 0 <= k < |view| && view[k].id == overId && view[k].status == target.value
  {
    match ParseStatus(overId)
    case Some(s) => Some(s)
    case None =>
      match FindById(view, overId)
      case Some(card) => Some(card.status)
      case None => None
  }

  /** Dropped on a column: that column's status. */
  lemma DropOnColumn(s: IssueStatus, view: seq<Issue>)
    ensures ResolveDropTarget(StatusCode(s), view) == Some(s)
  {
    ParseStatusCode(s);
  }

  /** Dropped on a card: the status of that card's column, never a card id. */
  lemma DropOnCardJoinsItsColumn(overId: string, view: seq<Issue>, card: Issue)
    requires forall s: IssueStatus :: StatusCode(s) != overId
    requires FindById(view, overId) == Some(card)
    ensures ResolveDropTarget(overId, view) == Some(card.status)
  {
  }

  /** What `handleDragEnd` does with a drop. */
  datatype DropDecision =
    | NotPermitted
    | NoDrop
    | Move(issue: Issue, target: IssueStatus)

  /**
   * The guards of `handleDragEnd` in order: permission, a target other than
   * the card itself, the card present in the view, and a change of status.
   */
  function DecideDrop(canDrag: bool, activeIssueId: string, overId: Option<string>, view: seq<Issue>): (d: DropDecision)
    ensures d.NotPermitted? <==> !canDrag
    ensures canDrag && overId.None? ==> d.NoDrop?
    ensures canDrag && overId == Some(activeIssueId) ==> d.NoDrop?
    ensures canDrag && FindById(view, activeIssueId).None? ==> d.NoDrop?
    ensures (canDrag && overId.Some? && FindById(view, activeIssueId).Some? &&
             ResolveDropTarget(overId.value, view) == Some(FindById(view, activeIssueId).value.status)) ==> d.NoDrop?
    ensures d.Move? ==>
              overId.Some? && overId.value != activeIssueId &&
              FindById(view, activeIssueId) == Some(d.issue) && d.issue.id == activeIssueId &&
              ResolveDropTarget(overId.value, view) == Some(d.target) && d.issue.status != d.target
    ensures (canDrag && overId.Some? && overId.value != activeIssueId && FindById(view, activeIssueId).Some? &&
             ResolveDropTarget(overId.value, view).Some? &&
             ResolveDropTarget(overId.value, view).value != FindById(view, activeIssueId).value.status) ==>
              d == Move(FindById(view, activeIssueId).value, ResolveDropTarget(overId.value, view).value)
  {
    if !canDrag then NotPermitted
    else if overId.None? || overId.value == activeIssueId then NoDrop
    else
      match FindById(view, activeIssueId)
      case None => NoDrop
      case Some(issue) =>
        match ResolveDropTarget(overId.value, view)
        case None => NoDrop
        case Some(target) => if issue.status == target then NoDrop else Move(issue, target)
  }

  /** A drop onto another column of an issue in the view is a move there. */
  lemma DropOnOtherColumnMoves(activeIssueId: string, s: IssueStatus, view: seq<Issue>)
    requires StatusCode(s) != activeIssueId
    requires FindById(view, activeIssueId).Some? && FindById(view, activeIssueId).value.status != s
    ensures DecideDrop(true, activeIssueId, Some(StatusCode(s)), view) == Move(FindById(view, activeIssueId).value, s)
  {
    DropOnColumn(s, view);
  }

  /**
   * A permitted drop onto another card of the view, in another column, moves
   * the dragged issue into that card's column.
   */
  lemma DropOnCardMoves(activeIssueId: string, overId: string, view: seq<Issue>, card: Issue)
    requires overId != activeIssueId
    requires forall s: IssueStatus :: StatusCode(s) != overId
    requires FindById(view, overId) == Some(card)
    requires FindById(view, activeIssueId).Some? && FindById(view, activeIssueId).value.status != card.status
    ensures DecideDrop(true, activeIssueId, Some(overId), view) == Move(FindById(view, activeIssueId).value, card.status)
  {
    DropOnCardJoinsItsColumn(overId, view, card);
  }

  // ---------------------------------------------------------------------
  // Toast texts
  // ---------------------------------------------------------------------

  /**
   * The move toast: the "from" part uses the snapshot's status label, and
   * is left out, as an empty label would be, when there is no snapshot.
   */
  function MoveMessage(issue: Issue, snapshot: Option<Issue>, target: IssueStatus): (m: string)
    ensures snapshot.None? ==> m == issue.id + ": " + issue.title + " moved to " + GetStatusLabel(target)
    ensures snapshot.Some? ==>
              m == issue.id + ": " + issue.title + " moved from " + GetStatusLabel(snapshot.value.status) +
                   " to " + GetStatusLabel(target)
  {
    var fromLabel := if snapshot.Some? then GetStatusLabel(snapshot.value.status) else "";
    var fromPart := if fromLabel != "" then "from " + fromLabel + " " else "";
    issue.id + ": " + issue.title + " moved " + fromPart + "to " + GetStatusLabel(target)
  }

  /** The undo toast. */
  function RestoredMessage(snapshot: Issue): string
  {
    snapshot.id + ": " + snapshot.title + " restored to " + GetStatusLabel(snapshot.status)
  }

  const FailureMessage: string := "Failed to update issue. Change reverted."

  // ---------------------------------------------------------------------
  // Columns and assignees
  // ---------------------------------------------------------------------

  /** One column: the viewed issues of that status, in view order. */
  function IssuesInStatus(view: seq<Issue>, status: IssueStatus): (r: seq<Issue>)
    ensures |r| <= |view|
  {
    if |view| == 0 then []
    else (if view[0].status == status then [view[0]] else []) + IssuesInStatus(view[1..], status)
  }

  /** A column holds exactly the view's issues of its status. */
  lemma {:induction false} IssuesInStatusMembers(view: seq<Issue>, status: IssueStatus)
    ensures forall x :: x in IssuesInStatus(view, status) <==> x in view && x.status == status
  {
    if |view| > 0 {
      IssuesInStatusMembers(view[1..], status);
      assert view == [view[0]] + view[1..];
    }
  }

  /** A column keeps the view's order: it is computed piecewise. */
  lemma {:induction false} IssuesInStatusConcat(a: seq<Issue>, b: seq<Issue>, status: IssueStatus)
    ensures IssuesInStatus(a + b, status) == IssuesInStatus(a, status) + IssuesInStatus(b, status)
  {
    if |a| == 0 {
      assert a + b == b;
    } else {
      var ab := a + b;
      assert ab[0] == a[0];
      assert ab[1..] == a[1..] + b;
      var head := if a[0].status == status then [a[0]] else [];
      IssuesInStatusConcat(a[1..], b, status);
      calc {
        IssuesInStatus(ab, status);
        head + IssuesInStatus(a[1..] + b, status);
        head + (IssuesInStatus(a[1..], status) + IssuesInStatus(b, status));
        (head + IssuesInStatus(a[1..], status)) + IssuesInStatus(b, status);
      }
    }
  }

  /** The three columns together hold every issue of the view exactly once. */
  lemma {:induction false} ColumnsPartitionView(view: seq<Issue>)
    ensures multiset(view) ==
              multiset(IssuesInStatus(view, Backlog)) +
              multiset(IssuesInStatus(view, InProgress)) +
              multiset(IssuesInStatus(view, Done))
  {
    if |view| > 0 {
      var v, rest := view[0], view[1..];
      ColumnsPartitionView(rest);
      assert view == [v] + rest;
      assert multiset(view) == multiset{v} + multiset(rest);
      forall s: IssueStatus
        ensures multiset(IssuesInStatus(view, s)) ==
                  (if v.status == s then multiset{v} else multiset{}) + multiset(IssuesInStatus(rest, s))
      {
        var head := if v.status == s then [v] else [];
        assert IssuesInStatus(view, s) == head + IssuesInStatus(rest, s);
        assert multiset(head) == (if v.status == s then multiset{v} else multiset{});
      }
    }
  }

  /** JavaScript's default string order: lexicographic by character code, a prefix first. */
  predicate Before(a: string, b: string)
    decreases |a|
  {
    if |a| == 0 then |b| > 0
    else if |b| == 0 then false
    else if a[0] == b[0] then Before(a[1..], b[1..])
    else a[0] < b[0]
  }

  lemma {:induction false} BeforeIrreflexive(a: string)
    ensures !Before(a, a)
    decreases |a|
  {
    if |a| > 0 {
      BeforeIrreflexive(a[1..]);
    }
  }

  lemma {:induction false} BeforeTransitive(a: string, b: string, c: string)
    requires Before(a, b) && Before(b, c)
    ensures Before(a, c)
    decreases |a|
  {
    if |a| > 0 && a[0] == b[0] && b[0] == c[0] {
      BeforeTransitive(a[1..], b[1..], c[1..]);
    }
  }

  lemma {:induction false} BeforeTotal(a: string, b: string)
    requires a != b
    ensures Before(a, b) || Before(b, a)
    decreases |a|
  {
    if |a| > 0 && |b| > 0 && a[0] == b[0] {
      assert a == [a[0]] + a[1..] && b == [b[0]] + b[1..];
      BeforeTotal(a[1..], b[1..]);
    }
  }

  predicate StrictlySorted(s: seq<string>)
  {
    forall i, j :: 0 <= i < j < |s| ==> Before(s[i], s[j])
  }

  /** Inserts `x` into a sorted list of distinct strings, unless it is already there. */
  function InsertSorted(x: string, t: seq<string>): (r: seq<string>)
    ensures forall y :: y in r <==> y == x || y in t
  {
    if |t| == 0 then [x]
    else if x == t[0] then t
    else if Before(t[0], x) then [t[0]] + InsertSorted(x, t[1..])
    else [x] + t
  }

  lemma {:induction false} InsertSortedSorted(x: string, t: seq<string>)
    requires StrictlySorted(t)
    ensures StrictlySorted(InsertSorted(x, t))
  {
    if |t| == 0 || x == t[0] {
    } else if Before(t[0], x) {
      var rest := InsertSorted(x, t[1..]);
      InsertSortedSorted(x, t[1..]);
      var r := [t[0]] + rest;
      forall i, j | 0 <= i < j < |r|
        ensures Before(r[i], r[j])
      {
        if i > 0 {
          assert r[i] == rest[i - 1] && r[j] == rest[j - 1];
        } else {
          assert r[j] == rest[j - 1];
          assert r[j] in rest;
          if r[j] != x {
            assert r[j] in t[1..];
            var k :| 0 <= k < |t[1..]| && t[1..][k] == r[j];
            assert t[k + 1] == r[j];
          }
        }
      }
    } else {
      BeforeTotal(x, t[0]);
      var r := [x] + t;
      forall i, j | 0 <= i < j < |r|
        ensures Before(r[i], r[j])
      {
        if i > 0 {
          assert r[i] == t[i - 1] && r[j] == t[j - 1];
        } else if j > 1 {
          BeforeTransitive(x, t[0], t[j - 1]);
        }
      }
    }
  }

  /** The assignee filter's choices: each assignee of the issues once, in ascending string order. */
  function Assignees(issues: seq<Issue>): (r: seq<string>)
    ensures forall a :: a in r <==> exists x :: x in issues && x.assignee == a
  {
    if |issues| == 0 then []
    else
      var r := InsertSorted(issues[0].assignee, Assignees(issues[1..]));
      assert forall x :: x in issues <==> x == issues[0] || x in issues[1..];
      r
  }

  /** The assignee list is sorted and free of repeats. */
  lemma {:induction false} AssigneesSortedDistinct(issues: seq<Issue>)
    ensures StrictlySorted(Assignees(issues))
    ensures forall i, j :: 0 <= i < j < |Assignees(issues)| ==> Assignees(issues)[i] != Assignees(issues)[j]
  {
    if |issues| > 0 {
      AssigneesSortedDistinct(issues[1..]);
      InsertSortedSorted(issues[0].assignee, Assignees(issues[1..]));
    }
    var r := Assignees(issues);
    forall i, j | 0 <= i < j < |r|
      ensures r[i] != r[j]
    {
      BeforeIrreflexive(r[i]);
    }
  }

  // ---------------------------------------------------------------------
  // The drag controller
  // ---------------------------------------------------------------------

  /**
   * The repository update a move starts, patching only the status of the
   * moved issue, with the snapshot its failure handler captured.
   */
  datatype PersistRequest = PersistRequest(issueId: string, patch: IssuePatch, snapshot: Option<Issue>)

  /**
   * The board component over the two stores: the id being dragged and the
   * snapshot taken for undo are its own state.
   */
  class BoardState {
    const store: IssueState
    const toastStore: ToastState
    /** The signed-in user whose role gates dragging. */
    const user: User
    var activeId: Option<string>
    var previousIssue: Option<Issue>

    ghost predicate Valid()
      reads this, store
    {
      store.Valid()
    }

    /** The assignee filter's choices, drawn from every stored issue, not only the viewed ones. */
    function AssigneeChoices(): (r: seq<string>)
      reads this, store
      ensures forall x :: x in store.issues ==> x.assignee in r
    {
      Assignees(store.issues)
    }

    /** A column of the board, drawn from the filtered view. */
    function Column(status: IssueStatus): (c: seq<Issue>)
      reads this, store
      ensures forall x :: x in c <==> x in store.filteredIssues && x.status == status
    {
      IssuesInStatusMembers(store.filteredIssues, status);
      IssuesInStatus(store.filteredIssues, status)
    }

    constructor(store: IssueState, toastStore: ToastState, user: User)
      ensures this.store == store && this.toastStore == toastStore && this.user == user
      ensures activeId.None? && previousIssue.None?
    {
      this.store := store;
      this.toastStore := toastStore;
      this.user := user;
      activeId := None;
      previousIssue := None;
    }

    /**
     * `handleDragStart`: without the move capability nothing happens;
     * otherwise the card becomes active and, when the view holds it, a copy
     * of it becomes the snapshot (an earlier snapshot stays otherwise).
     */
    method HandleDragStart(id: string)
      modifies this`activeId, this`previousIssue
      ensures !CanMoveIssues(user) ==> activeId == old(activeId) && previousIssue == old(previousIssue)
      ensures CanMoveIssues(user) ==> activeId == Some(id)
      ensures CanMoveIssues(user) && FindById(store.filteredIssues, id).Some? ==>
                previousIssue == FindById(store.filteredIssues, id)
      ensures CanMoveIssues(user) && FindById(store.filteredIssues, id).None? ==>
                previousIssue == old(previousIssue)
    {
      if !CanMoveIssues(user) {
        return;
      }
      activeId := Some(id);
      var issue := FindById(store.filteredIssues, id);
      if issue.Some? {
        previousIssue := issue;
      }
    }

    /**
     * `handleDragEnd`. A refused or empty drop leaves the stores alone; a
     * move patches the issue optimistically, shows one info toast whose undo
     * restores the snapshot, starts the persist, and clears the drag state.
     */
    method HandleDragEnd(activeIssueId: string, overId: Option<string>, now: int) returns (persist: Option<PersistRequest>)
      requires Valid()
      modifies this`activeId, this`previousIssue, store`issues, store`filteredIssues, store`viewTime, toastStore`toasts
      ensures Valid()
      ensures var d := DecideDrop(CanMoveIssues(user), activeIssueId, overId, old(store.filteredIssues));
              (d.NotPermitted? ==> activeId == old(activeId)) &&
              (d.NoDrop? ==> activeId.None?) &&
              (!d.Move? ==>
                 store.issues == old(store.issues) && store.filteredIssues == old(store.filteredIssues) &&
                 toastStore.toasts == old(toastStore.toasts) &&
                 previousIssue == old(previousIssue) && persist.None?) &&
              (d.Move? ==>
                 store.issues == PatchMatching(old(store.issues), d.issue.id, StatusPatch(d.target), now) &&
                 store.filteredIssues == View(store.issues, store.filters, now) &&
                 toastStore.toasts == old(toastStore.toasts) +
                   [Toast(ToastId(now), MoveMessage(d.issue, old(previousIssue), d.target), InfoToast,
                          Some(RestoreSnapshot(old(previousIssue))))] &&
                 persist == Some(PersistRequest(d.issue.id, StatusPatch(d.target), old(previousIssue))) &&
                 activeId.None? && previousIssue.None?)
    {
      var d := DecideDrop(CanMoveIssues(user), activeIssueId, overId, store.filteredIssues);
      persist := None;
      match d
      case NotPermitted =>
      case NoDrop =>
        activeId := None;
      case Move(issue, target) =>
        store.UpdateIssueOptimistic(issue.id, StatusPatch(target), now);
        var message := MoveMessage(issue, previousIssue, target);
        var _ := toastStore.AddToast(message, InfoToast, Some(RestoreSnapshot(previousIssue)), now);
        persist := Some(PersistRequest(issue.id, StatusPatch(target), previousIssue));
        activeId := None;
        previousIssue := None;
    }

    /**
     * The settling of a move's persist: the store's own completion, then, on
     * a rejection with a snapshot, the revert and one error toast.
     */
    method CompletePersist(req: PersistRequest, outcome: Result<Issue, Thrown>, now: int)
      requires Valid()
      modifies store`issues, store`filteredIssues, store`viewTime, store`error, toastStore`toasts
      ensures Valid()
      ensures outcome.Success? ==>
                store.issues == ReplaceMatching(old(store.issues), req.issueId, outcome.value) &&
                store.filteredIssues == View(store.issues, store.filters, now) &&
                store.error == old(store.error) && toastStore.toasts == old(toastStore.toasts)
      ensures outcome.Failure? ==> store.error == Some(MessageOf(outcome.error, "Failed to update issue"))
      ensures outcome.Failure? && req.snapshot.None? ==>
                store.issues == old(store.issues) && store.filteredIssues == old(store.filteredIssues) &&
                toastStore.toasts == old(toastStore.toasts)
      ensures outcome.Failure? && req.snapshot.Some? ==>
                store.issues == ReplaceMatching(old(store.issues), req.snapshot.value.id, req.snapshot.value) &&
                store.filteredIssues == View(store.issues, store.filters, now) &&
                toastStore.toasts == old(toastStore.toasts) + [Toast(ToastId(now), FailureMessage, ErrorToast, None)]
    {
      var rethrown := store.CompleteUpdate(req.issueId, outcome, now);
      if rethrown.Some? && req.snapshot.Some? {
        store.RevertIssue(req.snapshot.value, now);
        var _ := toastStore.AddToast(FailureMessage, ErrorToast, None, now);
      }
    }

    /** The undo callback: restores the captured snapshot and says so; without one it does nothing. */
    method Undo(token: UndoToken, now: int)
      requires Valid()
      modifies store`issues, store`filteredIssues, store`viewTime, toastStore`toasts
      ensures Valid()
      ensures token.snapshot.None? ==>
                store.issues == old(store.issues) && store.filteredIssues == old(store.filteredIssues) &&
                toastStore.toasts == old(toastStore.toasts)
      ensures token.snapshot.Some? ==>
                store.issues == ReplaceMatching(old(store.issues), token.snapshot.value.id, token.snapshot.value) &&
                store.filteredIssues == View(store.issues, store.filters, now) &&
                toastStore.toasts == old(toastStore.toasts) +
                  [Toast(ToastId(now), RestoredMessage(token.snapshot.value), SuccessToast, None)]
    {
      if token.snapshot.Some? {
        var snapshot := token.snapshot.value;
        store.RevertIssue(snapshot, now);
        var _ := toastStore.AddToast(RestoredMessage(snapshot), SuccessToast, None, now);
      }
    }

    /** The toast's Undo button: run the undo, then dismiss the toast. */
    method PressUndo(t: Toast, now: int)
      requires Valid() && t.onUndo.Some?
      modifies store`issues, store`filteredIssues, store`viewTime, toastStore`toasts
      ensures Valid()
      ensures var snapshot := t.onUndo.value.snapshot;
              var added := if snapshot.Some?
                           then [Toast(ToastId(now), RestoredMessage(snapshot.value), SuccessToast, None)]
                           else [];
              toastStore.toasts == Dismiss(old(toastStore.toasts) + added, t.id) &&
              (snapshot.Some? ==> store.issues == ReplaceMatching(old(store.issues), snapshot.value.id, snapshot.value)) &&
              (snapshot.None? ==> store.issues == old(store.issues))
    {
      ghost var before := toastStore.toasts;
      Undo(t.onUndo.value, now);
      if t.onUndo.value.snapshot.None? {
        assert toastStore.toasts == before + [];
      }
      toastStore.RemoveToast(t.id);
    }
  }

  /**
   * A store loaded with `issues`, a toast queue, and a board for `user`, all
   * new.
   */
  method NewBoard(issues: seq<Issue>, user: User, now: int) returns (board: BoardState)
    ensures fresh(board) && fresh(board.store) && fresh(board.toastStore)
    ensures board.Valid() && board.user == user
    ensures board.store.issues == issues && board.store.filters == InitialFilters
    ensures board.store.filteredIssues == View(issues, InitialFilters, now)
    ensures board.toastStore.toasts == []
    ensures board.activeId.None? && board.previousIssue.None?
  {
    var store := new IssueState();
    store.CompleteFetch(Success(issues), now);
    var toasts := new ToastState();
    board := new BoardState(store, toasts, user);
  }

  /**
   * Setting a filter changes what the columns show but not the assignee
   * choices: the columns hold exactly the issues passing the new filter, and
   * the choices still list every issue's assignee.
   */
  method FilterNarrowsColumnsNotChoices(issues: seq<Issue>, user: User, patch: FilterPatch, status: IssueStatus, now: int)
    returns (choicesBefore: seq<string>, choicesAfter: seq<string>, column: seq<Issue>)
    ensures choicesAfter == choicesBefore
    ensures forall x :: x in issues ==> x.assignee in choicesAfter
    ensures forall x :: x in column <==> x in issues && Keep(x, MergeFilters(InitialFilters, patch)) && x.status == status
  {
    var board := NewBoard(issues, user, now);
    choicesBefore := board.AssigneeChoices();
    board.store.SetFilters(patch, now);
    choicesAfter := board.AssigneeChoices();
    column := board.Column(status);
    ViewIsFilterThenSort(issues, MergeFilters(InitialFilters, patch), now);
  }

  /** An issue the initial view shows is the one `find` returns for its id, when ids are unique. */
  lemma InitialViewFinds(issues: seq<Issue>, x: Issue, now: int)
    requires x in issues
    requires forall k :: 0 <= k < |issues| && issues[k].id == x.id ==> issues[k] == x
    ensures FindById(View(issues, InitialFilters, now), x.id) == Some(x)
  {
    var view := View(issues, InitialFilters, now);
    InitialFiltersKeepAll(issues, now);
    assert x in multiset(view);
    var found := FindById(view, x.id);
    assert found.value in multiset(view);
    assert found.value in multiset(issues);
  }

  /**
   * An admin drags an issue to another column and presses Undo on the move
   * toast: the issues are exactly as before, and the move toast is gone,
   * leaving only the "restored" toast.
   */
  method MoveThenUndoRestores(issues: seq<Issue>, x: Issue, target: IssueStatus, admin: User, t1: int, t2: int)
    returns (restored: seq<Issue>, shown: seq<Toast>)
    requires admin.role == Admin
    requires x in issues && x.status != target && x.id != StatusCode(target)
    requires forall k :: 0 <= k < |issues| && issues[k].id == x.id ==> issues[k] == x
    requires t1 != t2
    ensures restored == issues
    ensures shown == [Toast(ToastId(t2), RestoredMessage(x), SuccessToast, None)]
  {
    var board := NewBoard(issues, admin, t1);
    InitialViewFinds(issues, x, t1);
    board.HandleDragStart(x.id);
    DropOnOtherColumnMoves(x.id, target, board.store.filteredIssues);
    var persist := board.HandleDragEnd(x.id, Some(StatusCode(target)), t1);
    var moveToast := Toast(ToastId(t1), MoveMessage(x, Some(x), target), InfoToast, Some(RestoreSnapshot(Some(x))));
    assert board.toastStore.toasts == [moveToast];
    assert board.store.issues == PatchMatching(issues, x.id, StatusPatch(target), t1);
    board.PressUndo(moveToast, t2);
    OptimisticThenRevertRestores(issues, x, StatusPatch(target), t1);
    ToastIdsDistinct(t1, t2);
    var undoToast := Toast(ToastId(t2), RestoredMessage(x), SuccessToast, None);
    assert [moveToast] + [undoToast] == [moveToast, undoToast];
    DismissFirstOfTwo(moveToast, undoToast);
    restored, shown := board.store.issues, board.toastStore.toasts;
  }

  /**
   * An admin's move whose persist is rejected: the issue is reverted to its
   * snapshot, and the queue holds the info toast followed by exactly one
   * error toast.
   */
  method FailedMoveReverts(issues: seq<Issue>, x: Issue, target: IssueStatus, admin: User, e: Thrown, t1: int, t2: int)
    returns (restored: seq<Issue>, shown: seq<Toast>)
    requires admin.role == Admin
    requires x in issues && x.status != target && x.id != StatusCode(target)
    requires forall k :: 0 <= k < |issues| && issues[k].id == x.id ==> issues[k] == x
    ensures restored == issues
    ensures shown == [Toast(ToastId(t1), MoveMessage(x, Some(x), target), InfoToast, Some(RestoreSnapshot(Some(x)))),
                      Toast(ToastId(t2), FailureMessage, ErrorToast, None)]
  {
    var board := NewBoard(issues, admin, t1);
    InitialViewFinds(issues, x, t1);
    board.HandleDragStart(x.id);
    DropOnOtherColumnMoves(x.id, target, board.store.filteredIssues);
    var persist := board.HandleDragEnd(x.id, Some(StatusCode(target)), t1);
    var moveToast := Toast(ToastId(t1), MoveMessage(x, Some(x), target), InfoToast, Some(RestoreSnapshot(Some(x))));
    assert board.toastStore.toasts == [moveToast];
    assert persist == Some(PersistRequest(x.id, StatusPatch(target), Some(x)));
    board.CompletePersist(persist.value, Failure(e), t2);
    var errorToast := Toast(ToastId(t2), FailureMessage, ErrorToast, None);
    assert board.toastStore.toasts == [moveToast] + [errorToast];
    OptimisticThenRevertRestores(issues, x, StatusPatch(target), t1);
    restored := board.store.issues;
    shown := board.toastStore.toasts;
  }

  /** A contributor's drag changes no issue and shows no toast, wherever it is dropped. */
  method ContributorDragIsInert(issues: seq<Issue>, contributor: User, id: string, overId: Option<string>, now: int)
    returns (after: seq<Issue>, shown: seq<Toast>, persist: Option<PersistRequest>)
    requires contributor.role == Contributor
    ensures after == issues && shown == [] && persist.None?
  {
    var board := NewBoard(issues, contributor, now);
    board.HandleDragStart(id);
    persist := board.HandleDragEnd(id, overId, now);
    after, shown := board.store.issues, board.toastStore.toasts;
  }
}
