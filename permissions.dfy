/**
 * The access resolver and the sharing service: the accessible-task query, the
 * permission-checking gate of the `user_has_permission` decorator, `can_share_task`,
 * the table update of `share_task`, and `get_user_role`.
 */
module Permissions {
  import opened Wrappers
  import opened Seqs
  import opened Domain
  import opened Models

  /** The `Q` objects `get_user_accessible_tasks` combines with `|`. */
  datatype Query =
    | Everything               // Task.objects.all()
    | OwnedBy(user: UserId)    // Q(user=user)
    | AssignedTo(user: UserId) // Q(assigned_user=user)
    | SharedWith(user: UserId) // Q(task_permissions__user=user)
    | Unassigned               // Q(assigned_user__isnull=True)
    | Or(left: Query, right: Query)

  predicate Matches(q: Query, t: Task, grants: GrantTable) {
    match q
    case Everything => true
    case OwnedBy(u) => t.owner == u
    case AssignedTo(u) => t.assignee == Some(u)
    case SharedWith(u) => (t.id, u) in grants
    case Unassigned => t.assignee.None?
    case Or(l, r) => Matches(l, t, grants) || Matches(r, t, grants)
  }

  /** The query built step by step as in `get_user_accessible_tasks`. */
  function AccessQuery(u: User): Query {
    if IsAdmin(u) then Everything
    else
      var q := Or(OwnedBy(u.id), AssignedTo(u.id));
      var q := Or(q, SharedWith(u.id));
      if InGroup(u, SALES_GROUP) || InGroup(u, SUPPORT_GROUP) then
        if InGroup(u, SALES_GROUP) then Or(q, Unassigned) else q
      else q
  }

  /**
   * The four visibility rules, stated directly: admins see everything; anyone else sees
   * what they own, what is assigned to them, what is shared with them by any grant row,
   * and, in "Ventas", every unassigned task.
   */
  predicate Visible(u: User, t: Task, grants: GrantTable) {
    || IsAdmin(u)
    || t.owner == u.id
    || t.assignee == Some(u.id)
    || (t.id, u.id) in grants
    || (InGroup(u, SALES_GROUP) && t.assignee.None?)
  }

  lemma AccessQueryIsVisible(u: User, t: Task, grants: GrantTable)
    ensures Matches(AccessQuery(u), t, grants) == Visible(u, t, grants)
  {
    if !IsAdmin(u) {
      var q1 := Or(OwnedBy(u.id), AssignedTo(u.id));
      var q := Or(q1, SharedWith(u.id));
      assert Matches(q1, t, grants) == (t.owner == u.id || t.assignee == Some(u.id));
      assert Matches(q, t, grants) == (Matches(q1, t, grants) || (t.id, u.id) in grants);
      assert Matches(Or(q, Unassigned), t, grants) == (Matches(q, t, grants) || t.assignee.None?);
      if InGroup(u, SALES_GROUP) {
        assert AccessQuery(u) == Or(q, Unassigned);
      } else {
        assert AccessQuery(u) == q;
      }
    }
  }

  /**
   * `get_user_accessible_tasks`: the table filtered by the access query, each task once.
   */
  function AccessibleTasks(u: User, ts: seq<Task>, grants: GrantTable): (r: seq<Task>)
    ensures forall t :: t in r <==> t in ts && Visible(u, t, grants)
    ensures multiset(r) <= multiset(ts)
    ensures DistinctIds(ts) ==> DistinctIds(r)
  {
    var q := AccessQuery(u);
    var p := (t: Task) => Matches(q, t, grants);
    var r := Filter(ts, p);
    forall t ensures p(t) == Visible(u, t, grants) {
      AccessQueryIsVisible(u, t, grants);
    }
    FilterDistinctIds(ts, p);
    FilterSubMultiset(ts, p);
    r
  }

  /** For a superuser or "Administrador" member the accessible set is the whole table. */
  lemma AdminSeesEverything(u: User, ts: seq<Task>, grants: GrantTable)
    requires IsAdmin(u)
    ensures AccessibleTasks(u, ts, grants) == ts
  {
    FilterAll(ts, (t: Task) => Matches(AccessQuery(u), t, grants));
  }

  /**
   * For a user outside "Administrador" and "Ventas" (in "Soporte Técnico" or not),
   * a task is accessible exactly when they own it, are its assignee, or hold a grant row.
   */
  lemma SupportAddsNothing(u: User, t: Task, ts: seq<Task>, grants: GrantTable)
    requires !IsAdmin(u) && !InGroup(u, SALES_GROUP) && t in ts
    ensures t in AccessibleTasks(u, ts, grants) <==>
      t.owner == u.id || t.assignee == Some(u.id) || (t.id, u.id) in grants
  {
  }

  /** A "Ventas" member who owns, is assigned and shares nothing sees exactly the unassigned tasks. */
  lemma SalesSeesUnassigned(u: User, t: Task, ts: seq<Task>, grants: GrantTable)
    requires !IsAdmin(u) && InGroup(u, SALES_GROUP) && t in ts
    requires t.owner != u.id && t.assignee != Some(u.id) && (t.id, u.id) !in grants
    ensures t in AccessibleTasks(u, ts, grants) <==> t.assignee.None?
  {
  }

  /** Everything `has_permission(u, t, 'view')` allows is in the accessible set. */
  lemma ViewableIsAccessible(u: User, t: Task, ts: seq<Task>, grants: GrantTable)
    requires t in ts && HasPermission(t, u, grants, VIEW)
    ensures t in AccessibleTasks(u, ts, grants)
  {
  }

  /**
   * The converse fails: the assignee of a task they neither own nor hold a grant on
   * sees it listed, yet `has_permission` refuses them even "view".
   */
  lemma AssigneeListedButNotViewable()
    ensures var u := User(2, "b", false, []);
      var t := Task(1, "t", "", false, 0, None, 1, Some(2));
      t in AccessibleTasks(u, [t], map[]) && !HasPermission(t, u, map[], VIEW)
  {
  }

  /** `can_share_task`: only the owner may share. */
  predicate CanShareTask(u: User, t: Task) {
    t.owner == u.id
  }

  datatype ShareError = SelfShare  // ValueError("No puedes compartir una tarea contigo mismo")

  /**
   * The grant table after `share_task(t, grantee, canEdit, canDelete, grantedBy)` at time
   * `now`: sharing with the owner fails; otherwise the row for the pair is created with
   * these flags or, if it exists, updated in place (its creation time is kept).
   */
  function Share(grants: GrantTable, t: Task, grantee: UserId, canEdit: bool, canDelete: bool,
                 grantedBy: Option<UserId>, now: int): (r: Result<GrantTable, ShareError>)
    ensures r.Failure? <==> grantee == t.owner
    ensures r.Success? ==>
      var key := (t.id, grantee);
      && r.value.Keys == grants.Keys + {key}
      && r.value[key].canView
      && r.value[key].canEdit == canEdit
      && r.value[key].canDelete == canDelete
      && r.value[key].grantedBy == Some(grantedBy.GetOr(t.owner))
      && r.value[key].grantedAt == (if key in grants then grants[key].grantedAt else now)
      && forall k :: k in grants && k != key ==> r.value[k] == grants[k]
  {
    if grantee == t.owner then Failure(SelfShare)
    else
      var key := (t.id, grantee);
      var granter := Some(grantedBy.GetOr(t.owner));
      if key !in grants then
        Success(grants[key := Grant(true, canEdit, canDelete, now, granter)])
      else
        var row := grants[key];
        Success(grants[key := row.(canView := true, canEdit := canEdit, canDelete := canDelete, grantedBy := granter)])
  }

  /** Sharing twice with the same arguments leaves the table as sharing once did. */
  lemma ShareIdempotent(grants: GrantTable, t: Task, grantee: UserId, canEdit: bool, canDelete: bool,
                        grantedBy: Option<UserId>, now1: int, now2: int)
    requires Share(grants, t, grantee, canEdit, canDelete, grantedBy, now1).Success?
    ensures var once := Share(grants, t, grantee, canEdit, canDelete, grantedBy, now1).value;
      Share(once, t, grantee, canEdit, canDelete, grantedBy, now2) == Success(once)
  {
    var once := Share(grants, t, grantee, canEdit, canDelete, grantedBy, now1).value;
    var twice := Share(once, t, grantee, canEdit, canDelete, grantedBy, now2).value;
    var key := (t.id, grantee);
    assert twice[key] == once[key];
    assert twice == once;
  }

  /** After a successful share the grantee may view, and may edit exactly when `canEdit` was given. */
  lemma ShareGrantsAccess(grants: GrantTable, t: Task, u: User, canEdit: bool, canDelete: bool,
                          grantedBy: Option<UserId>, now: int, ts: seq<Task>)
    requires !IsAdmin(u) && t in ts
    requires Share(grants, t, u.id, canEdit, canDelete, grantedBy, now).Success?
    ensures var g := Share(grants, t, u.id, canEdit, canDelete, grantedBy, now).value;
      && HasPermission(t, u, g, VIEW)
      && HasPermission(t, u, g, EDIT) == canEdit
      && t in AccessibleTasks(u, ts, g)
  {
  }

  /** The one user `can_share_task` allows to share is the one user a share may never name. */
  lemma OwnerCannotShareWithSelf(u: User, t: Task, grants: GrantTable, canEdit: bool, canDelete: bool,
                                 grantedBy: Option<UserId>, now: int)
    requires CanShareTask(u, t)
    ensures Share(grants, t, u.id, canEdit, canDelete, grantedBy, now) == Failure(SelfShare)
  {
  }

  /**
   * `share_task` does not consult `can_share_task`: a share on behalf of someone other
   * than the owner goes through, and the row records that user as the granter.
   */
  lemma ShareIgnoresCanShare(granter: User, t: Task, grants: GrantTable, grantee: UserId, canEdit: bool,
                             canDelete: bool, now: int)
    requires !CanShareTask(granter, t) && grantee != t.owner
    ensures var r := Share(grants, t, grantee, canEdit, canDelete, Some(granter.id), now);
      r.Success? && r.value[(t.id, grantee)].grantedBy == Some(granter.id)
  {
  }

  /** `permissions.get_user_role`: "Desarrollador" for a superuser, else the first group's name, else "Sin Rol". */
  function UserRole(u: User): string {
    if u.isSuperuser then "Desarrollador"
    else if |u.groups| > 0 then u.groups[0]
    else "Sin Rol"
  }

  /** What the `user_has_permission(kind)` decorator does before calling the view. */
  datatype Gate =
    | MissingTaskId      // PermissionDenied: no task id
    | TaskNotFound       // get_object_or_404
    | Refused            // flash message and redirect to the listing
    | Admitted(task: Task)

  function PermissionGate(ts: seq<Task>, grants: GrantTable, u: User, taskId: TaskId, kind: string): (g: Gate)
    ensures g.Admitted? <==>
      taskId != 0 && FindTask(ts, taskId).Some? && HasPermission(FindTask(ts, taskId).value, u, grants, kind)
    ensures g.Admitted? ==> g.task in ts && g.task.id == taskId
    ensures g == TaskNotFound <==> taskId != 0 && forall t :: t in ts ==> t.id != taskId
    ensures g == MissingTaskId <==> taskId == 0
    ensures g == Refused <==>
      taskId != 0 && FindTask(ts, taskId).Some? && !HasPermission(FindTask(ts, taskId).value, u, grants, kind)
  {
    if taskId == 0 then MissingTaskId
    else match FindTask(ts, taskId)
      case None => TaskNotFound
      case Some(t) => if HasPermission(t, u, grants, kind) then Admitted(t) else Refused
  }
}
