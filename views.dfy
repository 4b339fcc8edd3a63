/**
 * The decisions and listings of the request handlers: which form a user edits with,
 * who may delete, what the detail page shows, and the filtered, ordered listings.
 */
module Views {
  import opened Wrappers
  import opened Seqs
  import opened Domain
  import opened Models
  import opened Permissions
  import opened Mixins
  import opened Ordering

  /** `TaskForm` (title, description, importance) or the restricted `TaskStatusOnlyForm`. */
  datatype FormKind = FullForm | RestrictedForm

  /** `task_detail`: the restricted form for role "Ventas" unless superuser or role "Administrador"/"Soporte Técnico". */
  function DetailFormKind(u: User): FormKind {
    var role := UserRole(u);
    var adminOrSupport := u.isSuperuser || role in [ADMIN_GROUP, SUPPORT_GROUP];
    var salesOnly := role == SALES_GROUP && !adminOrSupport;
    if salesOnly then RestrictedForm else FullForm
  }

  /** Since the role is the first group's name, the restricted form goes exactly to non-superusers whose first group is "Ventas". */
  lemma DetailFormRestrictedIff(u: User)
    ensures DetailFormKind(u) == RestrictedForm <==> !u.isSuperuser && |u.groups| > 0 && u.groups[0] == SALES_GROUP
  {
  }

  /** `TaskEditView.get_form_class`: restricted for members of "Ventas" who are in neither "Soporte Técnico" nor "Administrador". */
  function EditViewFormKind(u: User): FormKind {
    var salesOnly := InGroup(u, SALES_GROUP) && !InGroup(u, SUPPORT_GROUP) && !InGroup(u, ADMIN_GROUP);
    if salesOnly then RestrictedForm else FullForm
  }

  /**
   * The two "Ventas only" tests disagree both ways: a user whose first group is "Ventas"
   * but who is also in "Administrador" gets the restricted form on the detail page and the
   * full one in the edit view; a user in "Ventas" behind another group gets the opposite;
   * and a superuser in "Ventas" alone gets the restricted form in the edit view.
   */
  lemma SalesOnlyTestsDisagree()
    ensures var u := User(3, "a", false, [SALES_GROUP, ADMIN_GROUP]);
      DetailFormKind(u) == RestrictedForm && EditViewFormKind(u) == FullForm
    ensures var u := User(4, "b", false, ["Clientes", SALES_GROUP]);
      DetailFormKind(u) == FullForm && EditViewFormKind(u) == RestrictedForm
    ensures var u := User(5, "c", true, [SALES_GROUP]);
      DetailFormKind(u) == FullForm && EditViewFormKind(u) == RestrictedForm
  {
  }

  /** What the GET branch of `task_detail` hands to its template. */
  datatype DetailContext = DetailContext(
    task: Task, form: FormKind, canEdit: bool, isPending: bool, isAdmin: bool, role: string, isSuperuser: bool)

  /** `is_admin` is assigned twice; the second assignment, group membership alone, is the one shown. */
  function DetailPage(u: User, t: Task, grants: GrantTable): (c: DetailContext)
    ensures c.task == t && c.form == DetailFormKind(u)
    ensures c.role == UserRole(u) && c.isSuperuser == u.isSuperuser
    ensures c.canEdit == HasPermission(t, u, grants, EDIT)
    ensures c.isPending <==> t.datecompleted.None?
    ensures c.isAdmin <==> ADMIN_GROUP in u.groups
  {
    var canEdit := HasPermission(t, u, grants, EDIT);
    var role := UserRole(u);
    var isAdmin := role == ADMIN_GROUP || u.isSuperuser;
    var isPending := t.datecompleted.None?;
    var isAdmin := InGroup(u, ADMIN_GROUP);
    DetailContext(t, DetailFormKind(u), canEdit, isPending, isAdmin, role, u.isSuperuser)
  }

  /** A superuser outside "Administrador" is not shown the delete button. */
  lemma SuperuserNotShownDelete(u: User, t: Task, grants: GrantTable)
    requires u.isSuperuser && ADMIN_GROUP !in u.groups
    ensures !DetailPage(u, t, grants).isAdmin && DetailPage(u, t, grants).canEdit
  {
  }

  /** `delete_task` deletes only for the owner. */
  predicate DeleteTaskAllowed(u: User, t: Task) {
    t.owner == u.id
  }

  /** `TaskDeleteView.dispatch` admits only superusers and "Administrador" members. */
  predicate DeleteViewAllowed(u: User) {
    IsAdmin(u)
  }

  /**
   * The two delete policies disagree, and neither reads `can_delete`: an administrator
   * who does not own the task passes only the class-based view, the owner only the
   * function, and a grantee with `can_delete` passes neither.
   */
  lemma DeletePoliciesDisagree(t: Task, u: User, grants: GrantTable)
    requires (t.id, u.id) in grants && grants[(t.id, u.id)].canDelete
    requires !IsAdmin(u) && t.owner != u.id
    ensures !DeleteTaskAllowed(u, t) && !DeleteViewAllowed(u) && !HasPermission(t, u, grants, DELETE)
    ensures var admin := User(9, "root", true, []);
      t.owner != 9 ==> DeleteViewAllowed(admin) && !DeleteTaskAllowed(admin, t)
    ensures var owner := User(t.owner, "owner", false, []);
      DeleteTaskAllowed(owner, t) && !DeleteViewAllowed(owner)
  {
  }

  /** `tasks`: the accessible tasks with no completion time, newest first (the model's default ordering). */
  function PendingTasks(u: User, ts: seq<Task>, grants: GrantTable): (r: seq<Task>)
    ensures forall t :: t in r <==> t in ts && Visible(u, t, grants) && t.datecompleted.None?
    ensures forall i, j :: 0 <= i < j < |r| ==> r[i].created >= r[j].created
    ensures DistinctIds(ts) ==> DistinctIds(r)
  {
    var all := AccessibleTasks(u, ts, grants);
    var pending := Filter(all, IsPending);
    FilterDistinctIds(all, IsPending);
    OrderTasks(pending, Created, map[], false)
  }

  /** `tasks_completed`: the accessible tasks with a completion time, latest completion first. */
  function CompletedTasks(u: User, ts: seq<Task>, grants: GrantTable): (r: seq<Task>)
    ensures forall t :: t in r <==> t in ts && Visible(u, t, grants) && t.datecompleted.Some?
    ensures forall i, j :: 0 <= i < j < |r| ==> OptLe(r[j].datecompleted, r[i].datecompleted)
    ensures DistinctIds(ts) ==> DistinctIds(r)
  {
    var all := AccessibleTasks(u, ts, grants);
    var done := Filter(all, IsCompleted);
    FilterDistinctIds(all, IsCompleted);
    var r := OrderTasks(done, DateCompleted, map[], false);
    forall i, j | 0 <= i < j < |r| ensures OptLe(r[j].datecompleted, r[i].datecompleted) {
      assert KeyLe(DateCompleted, map[], r[j], r[i]);
    }
    r
  }

  /** `task_list`: every accessible task, newest first. */
  function TaskList(u: User, ts: seq<Task>, grants: GrantTable): (r: seq<Task>)
    ensures forall t :: t in r <==> t in ts && Visible(u, t, grants)
    ensures forall i, j :: 0 <= i < j < |r| ==> r[i].created >= r[j].created
    ensures DistinctIds(ts) ==> DistinctIds(r)
  {
    var r := OrderTasks(AccessibleTasks(u, ts, grants), Created, map[], false);
    forall i, j | 0 <= i < j < |r| ensures r[i].created >= r[j].created {
      assert KeyLe(Created, map[], r[j], r[i]);
    }
    r
  }

  /** The task list splits into the pending and the completed listings. */
  lemma TaskListSplits(u: User, ts: seq<Task>, grants: GrantTable, t: Task)
    ensures t in TaskList(u, ts, grants) <==> t in PendingTasks(u, ts, grants) || t in CompletedTasks(u, ts, grants)
    ensures !(t in PendingTasks(u, ts, grants) && t in CompletedTasks(u, ts, grants))
  {
  }

  /**
   * The query parameters of `tasks_details`. `dateFrom`/`dateTo` are the result of
   * `parse_date` (midnight of the date, in seconds), absent when the parameter is empty
   * or not of the form of a date; `sort`/`order` are absent when not given.
   */
  datatype ListingParams = ListingParams(
    status: string, important: string, dateFrom: Option<int>, dateTo: Option<int>,
    sort: Option<string>, order: Option<string>)

  predicate StatusAdmits(status: string, t: Task) {
    if status == "completed" then t.datecompleted.Some?
    else if status == "pending" then t.datecompleted.None?
    else true
  }

  predicate ImportanceAdmits(important: string, t: Task) {
    if important == "yes" then t.important
    else if important == "no" then !t.important
    else true
  }

  predicate DatesAdmit(dateFrom: Option<int>, dateTo: Option<int>, t: Task) {
    && (dateFrom.Some? ==> t.created >= dateFrom.value)
    && (dateTo.Some? ==> t.created <= dateTo.value)
  }

  /** The ordering `tasks_details` applies: a whitelisted field, ascending iff `order == "asc"`; else newest first. */
  function ListingOrder(sort: Option<string>, order: Option<string>): (r: (SortField, bool))
    ensures ParseSortField(sort.GetOr("created")).Some? ==>
      r == (ParseSortField(sort.GetOr("created")).value, order.GetOr("desc") == "asc")
    ensures ParseSortField(sort.GetOr("created")).None? ==> r == (Created, false)
  {
    var sortBy := sort.GetOr("created");
    var sortOrder := order.GetOr("desc");
    match ParseSortField(sortBy)
    case Some(f) => if sortOrder == "asc" then (f, true) else (f, false)
    case None => (Created, false)
  }

  /** Without parameters the listing is newest first. */
  lemma DefaultListingOrder()
    ensures ListingOrder(None, None) == (Created, false)
  {
  }

  /** `filter(datecompleted__isnull=...)` as chosen by the `status` parameter. */
  function ByStatus(ts: seq<Task>, status: string): (r: seq<Task>)
    ensures forall t :: t in r <==> t in ts && StatusAdmits(status, t)
    ensures DistinctIds(ts) ==> DistinctIds(r)
  {
    if status == "completed" then FilterDistinctIds(ts, IsCompleted); Filter(ts, IsCompleted)
    else if status == "pending" then FilterDistinctIds(ts, IsPending); Filter(ts, IsPending)
    else ts
  }

  /** `filter(important=...)` as chosen by the `important` parameter. */
  function ByImportance(ts: seq<Task>, important: string): (r: seq<Task>)
    ensures forall t :: t in r <==> t in ts && ImportanceAdmits(important, t)
    ensures DistinctIds(ts) ==> DistinctIds(r)
  {
    if important == "yes" then FilterDistinctIds(ts, IsImportant); Filter(ts, IsImportant)
    else if important == "no" then FilterDistinctIds(ts, IsUnimportant); Filter(ts, IsUnimportant)
    else ts
  }

  /** `filter(created__gte=date_from)` and `filter(created__lte=date_to)`, each when its date parsed. */
  function ByDates(ts: seq<Task>, dateFrom: Option<int>, dateTo: Option<int>): (r: seq<Task>)
    ensures forall t :: t in r <==> t in ts && DatesAdmit(dateFrom, dateTo, t)
    ensures DistinctIds(ts) ==> DistinctIds(r)
  {
    var tasks :=
      if dateFrom.Some? then
        var from := (t: Task) => t.created >= dateFrom.value;
        FilterDistinctIds(ts, from); Filter(ts, from)
      else ts;
    if dateTo.Some? then
      var to := (t: Task) => t.created <= dateTo.value;
      FilterDistinctIds(tasks, to); Filter(tasks, to)
    else tasks
  }

  /** `tasks_details`: the accessible tasks, narrowed by each filter in turn, then ordered. */
  function DetailsListing(u: User, ts: seq<Task>, grants: GrantTable, names: map<UserId, string>,
                          p: ListingParams): (r: seq<Task>)
    ensures forall t :: t in r <==>
      && t in AccessibleTasks(u, ts, grants)
      && StatusAdmits(p.status, t)
      && ImportanceAdmits(p.important, t)
      && DatesAdmit(p.dateFrom, p.dateTo, t)
    ensures var (f, ascending) := ListingOrder(p.sort, p.order);
      forall i, j :: 0 <= i < j < |r| ==>
        if ascending then KeyLe(f, names, r[i], r[j]) else KeyLe(f, names, r[j], r[i])
    ensures DistinctIds(ts) ==> DistinctIds(r)
  {
    var all := AccessibleTasks(u, ts, grants);
    var tasks := ByDates(ByImportance(ByStatus(all, p.status), p.important), p.dateFrom, p.dateTo);
    var (f, ascending) := ListingOrder(p.sort, p.order);
    OrderTasks(tasks, f, names, ascending)
  }

  /** Status and importance values other than the named ones, and absent dates, filter nothing. */
  lemma UnknownFiltersKeepEverything(u: User, ts: seq<Task>, grants: GrantTable, names: map<UserId, string>,
                                     p: ListingParams, t: Task)
    requires p.status !in ["completed", "pending"] && p.important !in ["yes", "no"]
    requires p.dateFrom.None? && p.dateTo.None?
    ensures t in DetailsListing(u, ts, grants, names, p) <==> t in AccessibleTasks(u, ts, grants)
  {
  }

  /** `TaskEditView.get_queryset`: everything for admins, else the tasks whose id is accessible. */
  function EditViewQueryset(u: User, ts: seq<Task>, grants: GrantTable): (r: seq<Task>)
    ensures DistinctIds(ts) ==> forall t :: t in r <==> t in AccessibleTasks(u, ts, grants)
    ensures DistinctIds(ts) ==> DistinctIds(r)
  {
    if IsAdmin(u) then
      AdminSeesEverything(u, ts, grants);
      ts
    else
      var accessible := AccessibleTasks(u, ts, grants);
      var ids := set t | t in accessible :: t.id;
      var p := (t: Task) => t.id in ids;
      var r := Filter(ts, p);
      FilterDistinctIds(ts, p);
      assert DistinctIds(ts) ==> forall t :: t in r ==> t in accessible by {
        if DistinctIds(ts) {
          forall t | t in r ensures t in accessible {
            var a :| a in accessible && a.id == t.id;
            var i :| 0 <= i < |ts| && ts[i] == t;
            var j :| 0 <= j < |ts| && ts[j] == a;
            assert i == j;
          }
        }
      }
      r
  }

  /** What `TaskEditView` does with a request for task `taskId`. */
  datatype EditViewOutcome = ToLogin | Denied | Missing | Opened(task: Task, form: FormKind)

  const EDIT_VIEW_GROUPS := [SUPPORT_GROUP, SALES_GROUP]

  /**
   * `TaskEditView`: the role gate of `RoleRequiredMixin` with "Soporte Técnico" and "Ventas"
   * allowed, then the lookup of `taskId` in `get_queryset`, then the form of `get_form_class`.
   */
  function EditViewOpen(v: Visitor, ts: seq<Task>, grants: GrantTable, taskId: TaskId): (o: EditViewOutcome)
    ensures o == ToLogin <==> v.Anonymous?
    ensures o == Denied <==> RoleRequired(v, EDIT_VIEW_GROUPS) == Forbidden
    ensures o == Denied <==>
      v.SignedIn? && !IsAdmin(v.user) && !InGroup(v.user, SUPPORT_GROUP) && !InGroup(v.user, SALES_GROUP)
    ensures RoleRequired(v, EDIT_VIEW_GROUPS) == Admit ==>
      (o == Missing <==> FindTask(EditViewQueryset(v.user, ts, grants), taskId).None?)
    ensures o.Opened? ==>
      && v.SignedIn? && o.task in EditViewQueryset(v.user, ts, grants)
      && o.task.id == taskId && o.form == EditViewFormKind(v.user)
  {
    match v
    case Anonymous => ToLogin
    case SignedIn(u) =>
      match RoleRequired(v, EDIT_VIEW_GROUPS)
      case NoPermission => ToLogin
      case Forbidden => Denied
      case Admit =>
        match FindTask(EditViewQueryset(u, ts, grants), taskId)
        case None => Missing
        case Some(t) => Opened(t, EditViewFormKind(u))
  }

  /**
   * `TaskEditView` never asks for edit permission: a "Ventas" member opens for editing
   * an unassigned task of someone else on which they hold no grant.
   */
  lemma EditViewIgnoresEditPermission(u: User, t: Task, ts: seq<Task>, grants: GrantTable)
    requires DistinctIds(ts) && t in ts
    requires !IsAdmin(u) && InGroup(u, SALES_GROUP)
    requires t.owner != u.id && t.assignee.None? && (t.id, u.id) !in grants
    ensures EditViewOpen(SignedIn(u), ts, grants, t.id) == Opened(t, EditViewFormKind(u))
    ensures !HasPermission(t, u, grants, EDIT)
  {
    assert AnyAllowed(u, EDIT_VIEW_GROUPS) by {
      assert SALES_GROUP in EDIT_VIEW_GROUPS;
    }
    var q := EditViewQueryset(u, ts, grants);
    assert t in q;
    FindTaskUnique(q, t);
  }
}
