/**
 * The permission gate (src/utils/permissions.ts): each capability is a single
 * comparison of the user's role.
 */
module Permissions {
  import opened Types

  predicate CanEditIssues(user: User) { user.role == Admin }

  predicate CanMoveIssues(user: User) { user.role == Admin }

  predicate CanUpdatePriority(user: User) { user.role == Admin }

  predicate CanResolveIssues(user: User) { user.role == Admin }

  predicate IsReadOnly(user: User) { user.role == Contributor }

  /** Under the current policy the four capabilities coincide: all for admins, none otherwise. */
  lemma CapabilitiesAgree(user: User)
    ensures CanEditIssues(user) <==> user.role == Admin
    ensures CanMoveIssues(user) == CanEditIssues(user)
    ensures CanUpdatePriority(user) == CanEditIssues(user)
    ensures CanResolveIssues(user) == CanEditIssues(user)
  {
  }

  /** Over the two roles, read-only is exactly the absence of the move capability. */
  lemma ReadOnlyIsNoMove(user: User)
    ensures IsReadOnly(user) <==> !CanMoveIssues(user)
  {
  }
}
