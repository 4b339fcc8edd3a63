/** `Task.has_permission`: the per-task permission check. */
module Models {
  import opened Wrappers
  import opened Domain

  const VIEW := "view"
  const EDIT := "edit"
  const DELETE := "delete"

  /**
   * Whether `u` holds permission `kind` on task `t`, tried in order: the admin override,
   * then ownership, then the grant row for the `(t, u)` pair ("edit" needs its edit flag,
   * "view" needs only the row to exist). Every other kind is refused.
   */
  predicate HasPermission(t: Task, u: User, grants: GrantTable, kind: string) {
    if IsAdmin(u) then true
    else if u.id == t.owner then true
    else if kind == EDIT then (t.id, u.id) in grants && grants[(t.id, u.id)].canEdit
    else if kind == VIEW then (t.id, u.id) in grants
    else false
  }

  /** A superuser or "Administrador" member holds every permission on every task. */
  lemma AdminHasEveryPermission(t: Task, u: User, grants: GrantTable, kind: string)
    requires IsAdmin(u)
    ensures HasPermission(t, u, grants, kind)
  {
  }

  /** The owner holds every permission on their task. */
  lemma OwnerHasEveryPermission(t: Task, u: User, grants: GrantTable, kind: string)
    requires u.id == t.owner
    ensures HasPermission(t, u, grants, kind)
  {
  }

  /** For anyone else, "edit" holds exactly when their grant row has the edit flag. */
  lemma EditNeedsEditFlag(t: Task, u: User, grants: GrantTable)
    requires !IsAdmin(u) && u.id != t.owner
    ensures HasPermission(t, u, grants, EDIT) <==> (t.id, u.id) in grants && grants[(t.id, u.id)].canEdit
  {
  }

  /** For anyone else, "view" holds exactly when a grant row exists, whatever its view flag says. */
  lemma ViewNeedsAnyRow(t: Task, u: User, grants: GrantTable)
    requires !IsAdmin(u) && u.id != t.owner
    ensures HasPermission(t, u, grants, VIEW) <==> (t.id, u.id) in grants
  {
  }

  /** For anyone else, every other kind, "delete" included, is refused. */
  lemma OtherKindsRefused(t: Task, u: User, grants: GrantTable, kind: string)
    requires !IsAdmin(u) && u.id != t.owner && kind != EDIT && kind != VIEW
    ensures !HasPermission(t, u, grants, kind)
  {
  }

  /** Edit implies view. */
  lemma EditImpliesView(t: Task, u: User, grants: GrantTable)
    ensures HasPermission(t, u, grants, EDIT) ==> HasPermission(t, u, grants, VIEW)
  {
  }

  /** Two tables with the same rows and the same edit flags. */
  ghost predicate SameRowsAndEditFlags(g1: GrantTable, g2: GrantTable) {
    && g1.Keys == g2.Keys
    && forall k :: k in g1 ==> g1[k].canEdit == g2[k].canEdit
  }

  /**
   * The `can_view` and `can_delete` flags are never read: tables that differ only in
   * those flags (and in the audit fields) give every user the same answer for every kind.
   */
  lemma DeleteAndViewFlagsNeverRead(t: Task, u: User, g1: GrantTable, g2: GrantTable, kind: string)
    requires SameRowsAndEditFlags(g1, g2)
    ensures HasPermission(t, u, g1, kind) == HasPermission(t, u, g2, kind)
  {
  }

  /** A row with the field defaults lets a non-owner view but not edit. */
  lemma DefaultGrantIsViewOnly(t: Task, u: User, grants: GrantTable, grantedAt: int, grantedBy: Option<UserId>)
    requires !IsAdmin(u) && u.id != t.owner
    ensures var g := grants[(t.id, u.id) := DefaultGrant(grantedAt, grantedBy)];
      HasPermission(t, u, g, VIEW) && !HasPermission(t, u, g, EDIT)
  {
  }
}
