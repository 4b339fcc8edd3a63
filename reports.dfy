/**
 * The report views: the dashboard counts of `task_reports`, the period and age
 * selections, and the per-owner and per-importance groupings, all over the tasks
 * the requesting user may access. Timestamps are seconds; `now` is a parameter.
 */
module Reports {
  import opened Wrappers
  import opened Seqs
  import opened Domain
  import opened Permissions
  import opened Ordering
  import Views

  /** `timedelta(days=1)` in seconds. */
  const DAY: int := 86400

  /** The window of the dashboard, and the default `days` of the period reports. */
  const DEFAULT_DAYS: int := 30

  /**
   * `int(request.GET.get('days', 30))`: the parsed `days` parameter, 30 when it is absent.
   * A value that does not parse raises in the source and is not modelled.
   */
  function PeriodDays(given: Option<int>): (d: int)
    ensures given.None? ==> d == DEFAULT_DAYS
    ensures given.Some? ==> d == given.value
  {
    given.GetOr(DEFAULT_DAYS)
  }

  /** `now - timedelta(days=days)`. */
  function StartDate(now: int, days: int): (start: int)
    ensures start <= now <==> days >= 0
  {
    now - days * DAY
  }

  /** `created__gte=start`. */
  function CreatedFrom(start: int): Task -> bool {
    (t: Task) => t.created >= start
  }

  /** `datecompleted__isnull=True, created__lt=start`. */
  function PendingBefore(start: int): Task -> bool {
    (t: Task) => t.datecompleted.None? && t.created < start
  }

  /** `datecompleted__gte=start, datecompleted__isnull=False`. */
  function CompletedFrom(start: int): Task -> bool {
    (t: Task) => t.datecompleted.Some? && t.datecompleted.value >= start
  }

  datatype StatusCount = StatusCount(status: string, count: nat)
  datatype ImportanceCount = ImportanceCount(importance: string, count: nat)
  datatype UserCount = UserCount(user: string, count: nat)

  /** The context `task_reports` renders. */
  datatype Dashboard = Dashboard(
    total: nat, completed: nat, pending: nat, important: nat, recent: nat, oldest: nat,
    byStatus: seq<StatusCount>, byImportance: seq<ImportanceCount>, byUser: seq<UserCount>)

  /**
   * `task_reports`: the status counts and the importance counts each split the total;
   * the tasks pending for over 30 days are among the pending ones; the status list
   * repeats the status counts; the user list holds the requester with the total.
   */
  function TaskReports(u: User, ts: seq<Task>, grants: GrantTable, now: int): (d: Dashboard)
    ensures d.total == |AccessibleTasks(u, ts, grants)|
    ensures var all := AccessibleTasks(u, ts, grants);
      && d.completed == |Filter(all, IsCompleted)| && d.pending == |Filter(all, IsPending)|
      && d.important == |Filter(all, IsImportant)|
      && d.recent == |Filter(all, CreatedFrom(StartDate(now, DEFAULT_DAYS)))|
      && d.oldest == |Filter(all, PendingBefore(StartDate(now, DEFAULT_DAYS)))|
    ensures d.completed + d.pending == d.total
    ensures |d.byImportance| == 2
    ensures d.byImportance[0] == ImportanceCount("Importantes", d.important)
    ensures d.byImportance[1].importance == "No Importantes"
    ensures d.byImportance[1].count == |Filter(AccessibleTasks(u, ts, grants), IsUnimportant)|
    ensures d.important + d.byImportance[1].count == d.total
    ensures d.byStatus == [StatusCount("Completadas", d.completed), StatusCount("Pendientes", d.pending)]
    ensures d.oldest <= d.pending && d.recent <= d.total
    ensures d.byUser == [UserCount(u.username, d.total)]
  {
    var all := AccessibleTasks(u, ts, grants);
    var thirtyDaysAgo := StartDate(now, DEFAULT_DAYS);
    var completed := |Filter(all, IsCompleted)|;
    var pending := |Filter(all, IsPending)|;
    var important := |Filter(all, IsImportant)|;
    var notImportant := |Filter(all, IsUnimportant)|;
    var recent := |Filter(all, CreatedFrom(thirtyDaysAgo))|;
    var oldest := |Filter(all, PendingBefore(thirtyDaysAgo))|;
    FilterPartition(all, IsCompleted, IsPending);
    FilterPartition(all, IsImportant, IsUnimportant);
    FilterMonotone(all, IsPending, PendingBefore(thirtyDaysAgo));
    Dashboard(
      |all|, completed, pending, important, recent, oldest,
      [StatusCount("Completadas", completed), StatusCount("Pendientes", pending)],
      [ImportanceCount("Importantes", important), ImportanceCount("No Importantes", notImportant)],
      [UserCount(u.username, |all|)])
  }

  /** The context of the created-period and completed-period reports. */
  datatype PeriodReport = PeriodReport(tasks: seq<Task>, periodDays: int, startDate: int, total: nat)

  /** `report_tasks_created_period`: the accessible tasks created since the start date, newest first. */
  function CreatedPeriod(u: User, ts: seq<Task>, grants: GrantTable, now: int, daysParam: Option<int>): (r: PeriodReport)
    ensures r.periodDays == PeriodDays(daysParam) && r.startDate == now - r.periodDays * DAY && r.total == |r.tasks|
    ensures forall t :: t in r.tasks <==> t in ts && Visible(u, t, grants) && t.created >= r.startDate
    ensures forall i, j :: 0 <= i < j < |r.tasks| ==> r.tasks[i].created >= r.tasks[j].created
    ensures DistinctIds(ts) ==> DistinctIds(r.tasks)
  {
    var days := PeriodDays(daysParam);
    var start := StartDate(now, days);
    var all := AccessibleTasks(u, ts, grants);
    FilterDistinctIds(all, CreatedFrom(start));
    var recent := OrderTasks(Filter(all, CreatedFrom(start)), Created, map[], false);
    forall i, j | 0 <= i < j < |recent| ensures recent[i].created >= recent[j].created {
      assert KeyLe(Created, map[], recent[j], recent[i]);
    }
    PeriodReport(recent, days, start, |recent|)
  }

  /** `report_tasks_completed_period`: the accessible tasks completed since the start date, latest first. */
  function CompletedPeriod(u: User, ts: seq<Task>, grants: GrantTable, now: int, daysParam: Option<int>): (r: PeriodReport)
    ensures r.periodDays == PeriodDays(daysParam) && r.startDate == now - r.periodDays * DAY && r.total == |r.tasks|
    ensures forall t :: t in r.tasks <==>
      t in ts && Visible(u, t, grants) && t.datecompleted.Some? && t.datecompleted.value >= r.startDate
    ensures forall i, j :: 0 <= i < j < |r.tasks| ==> OptLe(r.tasks[j].datecompleted, r.tasks[i].datecompleted)
    ensures DistinctIds(ts) ==> DistinctIds(r.tasks)
  {
    var days := PeriodDays(daysParam);
    var start := StartDate(now, days);
    var all := AccessibleTasks(u, ts, grants);
    FilterDistinctIds(all, CompletedFrom(start));
    var done := OrderTasks(Filter(all, CompletedFrom(start)), DateCompleted, map[], false);
    forall i, j | 0 <= i < j < |done| ensures OptLe(done[j].datecompleted, done[i].datecompleted) {
      assert KeyLe(DateCompleted, map[], done[j], done[i]);
    }
    PeriodReport(done, days, start, |done|)
  }

  /** The context of `report_old_pending_tasks`. */
  datatype AgeReport = AgeReport(tasks: seq<Task>, periodDays: int, total: nat)

  /** `report_old_pending_tasks`: the accessible uncompleted tasks created before the start date, oldest first. */
  function OldPending(u: User, ts: seq<Task>, grants: GrantTable, now: int, daysParam: Option<int>): (r: AgeReport)
    ensures r.periodDays == PeriodDays(daysParam) && r.total == |r.tasks|
    ensures forall t :: t in r.tasks <==>
      t in ts && Visible(u, t, grants) && t.datecompleted.None? && t.created < now - r.periodDays * DAY
    ensures forall i, j :: 0 <= i < j < |r.tasks| ==> r.tasks[i].created <= r.tasks[j].created
    ensures DistinctIds(ts) ==> DistinctIds(r.tasks)
  {
    var days := PeriodDays(daysParam);
    var start := StartDate(now, days);
    var all := AccessibleTasks(u, ts, grants);
    var pending := Filter(all, PendingBefore(start));
    FilterDistinctIds(all, PendingBefore(start));
    var aged := OrderTasks(pending, Created, map[], true);
    forall i, j | 0 <= i < j < |aged| ensures aged[i].created <= aged[j].created {
      assert KeyLe(Created, map[], aged[i], aged[j]);
    }
    AgeReport(aged, days, |aged|)
  }

  /** Every task in the created-period report falls outside the old-pending one, and back. */
  lemma PeriodAndAgeAreDisjoint(u: User, ts: seq<Task>, grants: GrantTable, now: int, daysParam: Option<int>, t: Task)
    ensures !(t in CreatedPeriod(u, ts, grants, now, daysParam).tasks && t in OldPending(u, ts, grants, now, daysParam).tasks)
  {
  }

  /**
   * The dashboard's 30-day counts are the sizes of the period reports at their default
   * `days`, and its total splits into the completed and pending listings' sizes.
   */
  lemma DashboardMatchesReports(u: User, ts: seq<Task>, grants: GrantTable, now: int)
    ensures TaskReports(u, ts, grants, now).recent == CreatedPeriod(u, ts, grants, now, None).total
    ensures TaskReports(u, ts, grants, now).oldest == OldPending(u, ts, grants, now, None).total
  {
    var all := AccessibleTasks(u, ts, grants);
    var start := StartDate(now, DEFAULT_DAYS);
    var recent := Filter(all, CreatedFrom(start));
    var aged := Filter(all, PendingBefore(start));
    assert |OrderTasks(recent, Created, map[], false)| == |recent| by {
      assert |multiset(OrderTasks(recent, Created, map[], false))| == |multiset(recent)|;
    }
    assert |OrderTasks(aged, Created, map[], true)| == |aged| by {
      assert |multiset(OrderTasks(aged, Created, map[], true))| == |multiset(aged)|;
    }
  }

  /** The dashboard's status counts are the lengths of the pending and completed listings. */
  lemma DashboardMatchesListings(u: User, ts: seq<Task>, grants: GrantTable, now: int)
    ensures TaskReports(u, ts, grants, now).total == |Views.TaskList(u, ts, grants)|
    ensures TaskReports(u, ts, grants, now).pending == |Views.PendingTasks(u, ts, grants)|
    ensures TaskReports(u, ts, grants, now).completed == |Views.CompletedTasks(u, ts, grants)|
  {
    var all := AccessibleTasks(u, ts, grants);
    var pending := Filter(all, IsPending);
    var done := Filter(all, IsCompleted);
    assert |Views.TaskList(u, ts, grants)| == |all| by {
      assert |multiset(OrderTasks(all, Created, map[], false))| == |multiset(all)|;
    }
    assert |Views.PendingTasks(u, ts, grants)| == |pending| by {
      assert |multiset(OrderTasks(pending, Created, map[], false))| == |multiset(pending)|;
    }
    assert |Views.CompletedTasks(u, ts, grants)| == |done| by {
      assert |multiset(OrderTasks(done, DateCompleted, map[], false))| == |multiset(done)|;
    }
  }

  // ---- Grouping by owner: `values('user__username').annotate(...).order_by('-total')` ----

  /** One row of `report_tasks_by_user`. */
  datatype UserGroup = UserGroup(username: string, total: nat, completed: nat, pending: nat, important: nat)

  /** `user__username == n`. */
  function NameIs(names: map<UserId, string>, n: string): Task -> bool {
    (t: Task) => UsernameOf(names, t) == n
  }

  /** The owner names occurring in `ts`, each once. */
  function Usernames(names: map<UserId, string>, ts: seq<Task>): (r: seq<string>)
    ensures forall t :: t in ts ==> UsernameOf(names, t) in r
    ensures forall n :: n in r ==> exists t :: t in ts && UsernameOf(names, t) == n
    ensures forall i, j :: 0 <= i < j < |r| ==> r[i] != r[j]
  {
    if ts == [] then []
    else
      assert ts == [ts[0]] + ts[1..];
      var rest := Usernames(names, ts[1..]);
      var n := UsernameOf(names, ts[0]);
      if n in rest then rest else [n] + rest
  }

  /** The aggregates of the tasks owned by `n`. */
  function GroupOf(names: map<UserId, string>, all: seq<Task>, n: string): (g: UserGroup)
    ensures g.username == n
    ensures g.total == |Filter(all, NameIs(names, n))|
    ensures var mine := Filter(all, NameIs(names, n));
      && g.completed == |Filter(mine, IsCompleted)| && g.pending == |Filter(mine, IsPending)|
      && g.important == |Filter(mine, IsImportant)|
    ensures g.completed + g.pending == g.total && g.important <= g.total
  {
    var mine := Filter(all, NameIs(names, n));
    FilterPartition(mine, IsCompleted, IsPending);
    UserGroup(n, |mine|, |Filter(mine, IsCompleted)|, |Filter(mine, IsPending)|, |Filter(mine, IsImportant)|)
  }

  function GroupsOf(names: map<UserId, string>, all: seq<Task>, ns: seq<string>): (gs: seq<UserGroup>)
    ensures |gs| == |ns|
    ensures forall i :: 0 <= i < |ns| ==> gs[i] == GroupOf(names, all, ns[i])
  {
    seq(|ns|, i requires 0 <= i < |ns| => GroupOf(names, all, ns[i]))
  }

  function SumTotals(gs: seq<UserGroup>): nat {
    if gs == [] then 0 else gs[0].total + SumTotals(gs[1..])
  }

  /** How many times `n` occurs in `ns`. */
  function Occurrences(ns: seq<string>, n: string): nat {
    if ns == [] then 0 else (if ns[0] == n then 1 else 0) + Occurrences(ns[1..], n)
  }

  lemma {:induction false} OccursOnce(ns: seq<string>, n: string)
    requires n in ns
    requires forall i, j :: 0 <= i < j < |ns| ==> ns[i] != ns[j]
    ensures Occurrences(ns, n) == 1
  {
    if ns[0] == n {
      NotOccurring(ns[1..], n);
    } else {
      OccursOnce(ns[1..], n);
    }
  }

  lemma {:induction false} NotOccurring(ns: seq<string>, n: string)
    requires n !in ns
    ensures Occurrences(ns, n) == 0
  {
    if ns != [] {
      NotOccurring(ns[1..], n);
    }
  }

  /** The group totals over `ns`, counted straight from the tasks. */
  function SumCounts(names: map<UserId, string>, all: seq<Task>, ns: seq<string>): nat {
    if ns == [] then 0 else |Filter(all, NameIs(names, ns[0]))| + SumCounts(names, all, ns[1..])
  }

  lemma {:induction false} SumTotalsAreSumCounts(names: map<UserId, string>, all: seq<Task>, ns: seq<string>)
    ensures SumTotals(GroupsOf(names, all, ns)) == SumCounts(names, all, ns)
  {
    if ns != [] {
      assert GroupsOf(names, all, ns)[1..] == GroupsOf(names, all, ns[1..]);
      SumTotalsAreSumCounts(names, all, ns[1..]);
    }
  }

  /** Adding one task adds one to the count of each name in `ns` equal to its owner's. */
  lemma {:induction false} SumCountsCons(names: map<UserId, string>, x: Task, rest: seq<Task>, ns: seq<string>)
    ensures SumCounts(names, [x] + rest, ns) == Occurrences(ns, UsernameOf(names, x)) + SumCounts(names, rest, ns)
  {
    if ns != [] {
      FilterCons(x, rest, NameIs(names, ns[0]));
      SumCountsCons(names, x, rest, ns[1..]);
    }
  }

  /** Over a list of distinct names covering every owner, the counts add up to the task count. */
  lemma {:induction false} CountsCoverAll(names: map<UserId, string>, all: seq<Task>, ns: seq<string>)
    requires forall t :: t in all ==> UsernameOf(names, t) in ns
    requires forall i, j :: 0 <= i < j < |ns| ==> ns[i] != ns[j]
    ensures SumCounts(names, all, ns) == |all|
  {
    if all == [] {
      NoTasksNoCounts(names, ns);
    } else {
      var x := all[0];
      var rest := all[1..];
      assert all == [x] + rest;
      SumCountsCons(names, x, rest, ns);
      OccursOnce(ns, UsernameOf(names, x));
      CountsCoverAll(names, rest, ns);
    }
  }

  lemma {:induction false} NoTasksNoCounts(names: map<UserId, string>, ns: seq<string>)
    ensures SumCounts(names, [], ns) == 0
  {
    if ns != [] {
      NoTasksNoCounts(names, ns[1..]);
    }
  }

  /** Inserting a group adds its total to the sum. */
  lemma {:induction false} SumTotalsInsert(x: UserGroup, s: seq<UserGroup>, le: (UserGroup, UserGroup) -> bool)
    ensures SumTotals(Insert(x, s, le)) == x.total + SumTotals(s)
  {
    if s == [] {
      assert Insert(x, s, le) == [x];
    } else if le(x, s[0]) {
      assert ([x] + s)[1..] == s;
    } else {
      var r := [s[0]] + Insert(x, s[1..], le);
      assert r[1..] == Insert(x, s[1..], le);
      SumTotalsInsert(x, s[1..], le);
    }
  }

  /** Sorting the groups does not change the sum of their totals. */
  lemma {:induction false} SumTotalsSort(s: seq<UserGroup>, le: (UserGroup, UserGroup) -> bool)
    requires TotalPreorder(le)
    ensures SumTotals(Sort(s, le)) == SumTotals(s)
  {
    if s != [] {
      SumTotalsSort(s[1..], le);
      SumTotalsInsert(s[0], Sort(s[1..], le), le);
    }
  }

  /** The order `-total`. */
  function MoreTasks(): (UserGroup, UserGroup) -> bool {
    (a: UserGroup, b: UserGroup) => a.total >= b.total
  }

  lemma MoreTasksTotalPreorder()
    ensures TotalPreorder(MoreTasks())
  {
  }

  /** A name taken from the tasks has a group with at least one task in it. */
  lemma PresentNameHasTasks(names: map<UserId, string>, all: seq<Task>, n: string)
    requires n in Usernames(names, all)
    ensures GroupOf(names, all, n).total >= 1
  {
    var t :| t in all && UsernameOf(names, t) == n;
    assert t in Filter(all, NameIs(names, n));
  }

  /**
   * The grouped rows before ordering: each of them non-empty with its counts split,
   * one for every owner, and their totals adding up to the number of tasks.
   */
  lemma PresentGroups(names: map<UserId, string>, all: seq<Task>)
    ensures var gs := GroupsOf(names, all, Usernames(names, all));
      && SumTotals(gs) == |all|
      && (forall g :: g in gs ==> g.completed + g.pending == g.total && g.total >= 1)
      && (forall g :: g in gs ==> g == GroupOf(names, all, g.username))
      && (forall g :: g in gs ==> exists t :: t in all && UsernameOf(names, t) == g.username)
      && (forall t :: t in all ==> exists g :: g in gs && g.username == UsernameOf(names, t))
  {
    var ns := Usernames(names, all);
    var gs := GroupsOf(names, all, ns);
    SumTotalsAreSumCounts(names, all, ns);
    CountsCoverAll(names, all, ns);
    forall g | g in gs ensures
      && g.completed + g.pending == g.total && g.total >= 1
      && g == GroupOf(names, all, g.username)
      && exists t :: t in all && UsernameOf(names, t) == g.username
    {
      var k :| 0 <= k < |gs| && gs[k] == g;
      assert ns[k] in ns;
      PresentNameHasTasks(names, all, ns[k]);
    }
    forall t | t in all ensures exists g :: g in gs && g.username == UsernameOf(names, t) {
      var k :| 0 <= k < |ns| && ns[k] == UsernameOf(names, t);
      assert gs[k] in gs;
    }
  }

  /** The context of `report_tasks_by_user`. */
  datatype UserReport = UserReport(groups: seq<UserGroup>, total: nat)

  /**
   * `report_tasks_by_user`: one row per owner of an accessible task, largest first; each
   * row's completed and pending counts split its total, and the totals add up to the
   * number of accessible tasks.
   */
  function ByUser(u: User, ts: seq<Task>, grants: GrantTable, names: map<UserId, string>): (r: UserReport)
    ensures r.total == |AccessibleTasks(u, ts, grants)|
    ensures SumTotals(r.groups) == r.total
    ensures forall i :: 0 <= i < |r.groups| ==>
      r.groups[i].completed + r.groups[i].pending == r.groups[i].total && r.groups[i].total >= 1
    ensures forall i, j :: 0 <= i < j < |r.groups| ==> r.groups[i].total >= r.groups[j].total
    ensures forall i, j :: 0 <= i < j < |r.groups| ==> r.groups[i].username != r.groups[j].username
    ensures forall t :: t in AccessibleTasks(u, ts, grants) ==>
      exists g :: g in r.groups && g.username == UsernameOf(names, t)
    ensures forall g :: g in r.groups ==>
      && g == GroupOf(names, AccessibleTasks(u, ts, grants), g.username)
      && exists t :: t in AccessibleTasks(u, ts, grants) && UsernameOf(names, t) == g.username
  {
    var all := AccessibleTasks(u, ts, grants);
    var gs := GroupsOf(names, all, Usernames(names, all));
    PresentGroups(names, all);
    MoreTasksTotalPreorder();
    var sorted := Sort(gs, MoreTasks());
    SumTotalsSort(gs, MoreTasks());
    forall i | 0 <= i < |sorted| ensures sorted[i].completed + sorted[i].pending == sorted[i].total && sorted[i].total >= 1 {
      SortMembers(gs, MoreTasks(), sorted[i]);
    }
    forall t | t in all ensures exists g :: g in sorted && g.username == UsernameOf(names, t) {
      var g :| g in gs && g.username == UsernameOf(names, t);
      SortMembers(gs, MoreTasks(), g);
    }
    forall g | g in sorted ensures
      && g == GroupOf(names, all, g.username)
      && exists t :: t in all && UsernameOf(names, t) == g.username
    {
      SortMembers(gs, MoreTasks(), g);
    }
    assert NoDuplicates(gs);
    SortNoDuplicates(gs, MoreTasks());
    forall i, j | 0 <= i < j < |sorted| ensures sorted[i].username != sorted[j].username {
      assert sorted[i] in sorted && sorted[j] in sorted;
    }
    UserReport(sorted, |all|)
  }

  // ---- The grouped counts as the SQL computes them for a non-administrator ----

  /** The rules of `get_user_accessible_tasks` that do not go through the grant rows. */
  predicate VisibleWithoutGrant(u: User, t: Task) {
    || t.owner == u.id
    || t.assignee == Some(u.id)
    || (InGroup(u, SALES_GROUP) && t.assignee.None?)
  }

  /** The users holding a grant row on task `id`. */
  function GrantHolders(grants: GrantTable, id: TaskId): set<UserId> {
    set k | k in grants.Keys && k.0 == id :: k.1
  }

  lemma HolderIffGrant(grants: GrantTable, id: TaskId, v: UserId)
    ensures v in GrantHolders(grants, id) <==> (id, v) in grants
  {
    if (id, v) in grants {
      assert (id, v) in grants.Keys && (id, v).0 == id;
    }
  }

  /**
   * How many rows task `t` gives the grouped query. For a non-administrator the access
   * filter reaches the grant table through a LEFT OUTER JOIN: a task without grant rows
   * gives one row, a task with grant rows gives one row per grant row, and the WHERE
   * clause keeps those it admits. `Count('id')` counts every kept row, since `distinct()`
   * applies to the grouped rows and not to what they count. An administrator's query has
   * no join.
   */
  function JoinedRows(u: User, t: Task, grants: GrantTable): (n: nat)
    ensures n >= 1 <==> Visible(u, t, grants)
    ensures IsAdmin(u) ==> n == 1
    ensures GrantHolders(grants, t.id) == {} ==> n == (if Visible(u, t, grants) then 1 else 0)
    ensures !IsAdmin(u) && VisibleWithoutGrant(u, t) && GrantHolders(grants, t.id) != {} ==>
      n == |GrantHolders(grants, t.id)|
    ensures !IsAdmin(u) && !VisibleWithoutGrant(u, t) ==> n <= 1
  {
    HolderIffGrant(grants, t.id, u.id);
    if IsAdmin(u) then 1
    else
      var holders := GrantHolders(grants, t.id);
      var kept := set h | h in holders && (VisibleWithoutGrant(u, t) || h == u.id);
      if holders == {} then (if VisibleWithoutGrant(u, t) then 1 else 0)
      else if VisibleWithoutGrant(u, t) then
        assert kept == holders;
        |kept|
      else
        assert kept == if u.id in holders then {u.id} else {};
        |kept|
  }

  /** `Count('id')` over the joined rows of `rows`. */
  function JoinedCount(u: User, grants: GrantTable, rows: seq<Task>): (c: nat)
    ensures IsAdmin(u) ==> c == |rows|
    ensures (forall t :: t in rows ==> Visible(u, t, grants)) ==> c >= |rows|
  {
    if rows == [] then 0
    else
      assert forall t :: t in rows[1..] ==> t in rows;
      JoinedRows(u, rows[0], grants) + JoinedCount(u, grants, rows[1..])
  }

  /**
   * The converse: the joined count is the number of tasks exactly counted when no task
   * among them is visible without a grant while also holding grant rows.
   */
  lemma {:induction false} JoinedCountExact(u: User, grants: GrantTable, rows: seq<Task>)
    requires forall t :: t in rows ==> Visible(u, t, grants)
    requires forall t :: t in rows ==>
      IsAdmin(u) || !VisibleWithoutGrant(u, t) || GrantHolders(grants, t.id) == {}
    ensures JoinedCount(u, grants, rows) == |rows|
  {
    if rows != [] {
      assert rows[0] in rows;
      assert forall t :: t in rows[1..] ==> t in rows;
      JoinedCountExact(u, grants, rows[1..]);
    }
  }

  /**
   * A non-administrator owning one task that is shared with two other users: the accessible
   * set, whose size is the reports' `total`, holds one task, while the grouped query counts that task once per grant row, in
   * the owner's row of `report_tasks_by_user` and in the "No Importante" row of
   * `report_tasks_by_importance` alike.
   */
  lemma SharedTaskCountedPerGrant()
    ensures var u := User(1, "ana", false, []);
      var t := Task(7, "t", "", false, 0, None, 1, None);
      var grants := map[(7, 2) := DefaultGrant(0, Some(1)), (7, 3) := DefaultGrant(0, Some(1))];
      var names := map[1 := "ana"];
      var all := AccessibleTasks(u, [t], grants);
      && |all| == 1
      && JoinedCount(u, grants, Filter(all, NameIs(names, "ana"))) == 2
      && JoinedCount(u, grants, Filter(all, ImportanceIs(false))) == 2
  {
    var u := User(1, "ana", false, []);
    var t := Task(7, "t", "", false, 0, None, 1, None);
    var grants := map[(7, 2) := DefaultGrant(0, Some(1)), (7, 3) := DefaultGrant(0, Some(1))];
    var names := map[1 := "ana"];
    var all := AccessibleTasks(u, [t], grants);
    SingleRow(t, all);
    SingleRow(t, Filter(all, NameIs(names, "ana")));
    SingleRow(t, Filter(all, ImportanceIs(false)));
    TwoHolders(grants, 7, 2, 3);
    assert JoinedRows(u, t, grants) == 2;
    assert JoinedCount(u, grants, [t]) == 2 by {
      assert [t][1..] == [];
    }
  }

  /** A row counted more than once lifts the joined count above the number of rows. */
  lemma {:induction false} JoinedCountExceeds(u: User, grants: GrantTable, rows: seq<Task>, t: Task)
    requires forall x :: x in rows ==> Visible(u, x, grants)
    requires t in rows && JoinedRows(u, t, grants) >= 2
    ensures JoinedCount(u, grants, rows) > |rows|
  {
    assert forall x :: x in rows[1..] ==> x in rows;
    if rows[0] != t {
      JoinedCountExceeds(u, grants, rows[1..], t);
    }
  }

  /**
   * Whenever a non-administrator owns a task with two or more grant rows, the grouped
   * query's counts of the task's owner row and of its importance row both exceed the
   * number of distinct tasks they stand for.
   */
  lemma JoinOvercountsSharedOwnTask(u: User, ts: seq<Task>, grants: GrantTable, names: map<UserId, string>, t: Task)
    requires !IsAdmin(u) && t in ts && t.owner == u.id && |GrantHolders(grants, t.id)| >= 2
    ensures var all := AccessibleTasks(u, ts, grants);
      var n := UsernameOf(names, t);
      && JoinedCount(u, grants, Filter(all, NameIs(names, n))) > GroupOf(names, all, n).total
      && JoinedCount(u, grants, Filter(all, ImportanceIs(t.important))) > ImportanceGroupOf(all, t.important).total
  {
    var all := AccessibleTasks(u, ts, grants);
    var n := UsernameOf(names, t);
    assert VisibleWithoutGrant(u, t);
    JoinedCountExceeds(u, grants, Filter(all, NameIs(names, n)), t);
    JoinedCountExceeds(u, grants, Filter(all, ImportanceIs(t.important)), t);
  }

  lemma SingleRow(t: Task, r: seq<Task>)
    requires |r| <= 1 && t in r
    ensures r == [t]
  {
  }

  lemma TwoHolders(grants: GrantTable, id: TaskId, a: UserId, b: UserId)
    requires grants.Keys == {(id, a), (id, b)} && a != b
    ensures |GrantHolders(grants, id)| == 2
  {
    HolderIffGrant(grants, id, a);
    HolderIffGrant(grants, id, b);
    assert GrantHolders(grants, id) == {a, b};
  }

  // ---- Grouping by importance: `values('important').annotate(...).order_by('-important')` ----

  /** One row of `report_tasks_by_importance`; `importanceName` is absent until the labelling loop sets it. */
  datatype ImportanceGroup = ImportanceGroup(
    important: bool, total: nat, completed: nat, pending: nat, importanceName: Option<string>)

  function ImportanceLabel(important: bool): string {
    if important then "Importante" else "No Importante"
  }

  function ImportanceIs(b: bool): Task -> bool {
    if b then IsImportant else IsUnimportant
  }

  function ImportanceGroupOf(all: seq<Task>, b: bool): (g: ImportanceGroup)
    ensures g.important == b && g.total == |Filter(all, ImportanceIs(b))|
    ensures var rows := Filter(all, ImportanceIs(b));
      g.completed == |Filter(rows, IsCompleted)| && g.pending == |Filter(rows, IsPending)|
    ensures g.completed + g.pending == g.total && g.importanceName.None?
  {
    var rows := Filter(all, ImportanceIs(b));
    FilterPartition(rows, IsCompleted, IsPending);
    ImportanceGroup(b, |rows|, |Filter(rows, IsCompleted)|, |Filter(rows, IsPending)|, None)
  }

  function ImportanceTotal(rows: seq<ImportanceGroup>): nat {
    if rows == [] then 0 else rows[0].total + ImportanceTotal(rows[1..])
  }

  /** The grouped rows before labelling: one per importance value that occurs, `True` first. */
  function ImportanceGroups(all: seq<Task>): (r: seq<ImportanceGroup>)
    ensures |r| <= 2
    ensures forall g :: g in r ==> g.total >= 1
    ensures forall i, j :: 0 <= i < j < |r| ==> r[i].important && !r[j].important
  {
    var yes := ImportanceGroupOf(all, true);
    var no := ImportanceGroupOf(all, false);
    if yes.total > 0 && no.total > 0 then [yes, no]
    else if yes.total > 0 then [yes]
    else if no.total > 0 then [no]
    else []
  }

  /** Each row holds the aggregates of the tasks with its importance value. */
  lemma ImportanceRowsAreGroups(all: seq<Task>)
    ensures forall g :: g in ImportanceGroups(all) ==> g == ImportanceGroupOf(all, g.important)
  {
    var yes := ImportanceGroupOf(all, true);
    var no := ImportanceGroupOf(all, false);
    forall g | g in ImportanceGroups(all) ensures g == ImportanceGroupOf(all, g.important) {
      if g.important {
        assert g == yes;
      } else {
        assert g == no;
      }
    }
  }

  /** A row for an importance value exists exactly when some task has that value. */
  lemma ImportanceRowIffTask(all: seq<Task>, b: bool)
    ensures var r := ImportanceGroups(all);
      (exists i :: 0 <= i < |r| && r[i].important == b) <==> (exists t :: t in all && t.important == b)
  {
    var r := ImportanceGroups(all);
    var rows := Filter(all, ImportanceIs(b));
    if |rows| > 0 {
      assert rows[0] in rows;
      var i := if b || ImportanceGroupOf(all, true).total == 0 then 0 else 1;
      assert r[i].important == b;
    }
  }

  /** The row totals add up to the number of tasks. */
  lemma ImportanceGroupsTotal(all: seq<Task>)
    ensures ImportanceTotal(ImportanceGroups(all)) == |all|
  {
    var yes := ImportanceGroupOf(all, true);
    var no := ImportanceGroupOf(all, false);
    FilterPartition(all, ImportanceIs(true), ImportanceIs(false));
    var r := ImportanceGroups(all);
    if yes.total > 0 && no.total > 0 {
      assert r[1..] == [no] && [no][1..] == [];
      assert ImportanceTotal([no]) == no.total;
    }
  }

  /** A row with its `importance_name` set. */
  function Labelled(g: ImportanceGroup): ImportanceGroup {
    g.(importanceName := Some(ImportanceLabel(g.important)))
  }

  /**
   * The loop of `report_tasks_by_importance` that adds `importance_name` to each row in
   * place: every row gets the label of its importance value and keeps its counts.
   */
  method LabelRows(groups: seq<ImportanceGroup>) returns (rows: seq<ImportanceGroup>)
    ensures |rows| == |groups|
    ensures forall i :: 0 <= i < |rows| ==> rows[i] == Labelled(groups[i])
    ensures forall i :: 0 <= i < |rows| ==>
      rows[i].importanceName == Some(if rows[i].important then "Importante" else "No Importante")
    ensures ImportanceTotal(rows) == ImportanceTotal(groups)
  {
    var a := new ImportanceGroup[|groups|](k requires 0 <= k < |groups| => groups[k]);
    var i := 0;
    while i < a.Length
      invariant 0 <= i <= a.Length
      invariant forall k :: 0 <= k < i ==> a[k] == Labelled(groups[k])
      invariant forall k :: i <= k < a.Length ==> a[k] == groups[k]
    {
      a[i] := Labelled(a[i]);
      i := i + 1;
    }
    rows := a[..];
    LabellingKeepsTotals(groups, rows);
  }

  /**
   * `report_tasks_by_importance`: the grouped rows, `True` first, each labelled; the
   * overall total is the number of accessible tasks and the row totals add up to it.
   */
  method ByImportance(u: User, ts: seq<Task>, grants: GrantTable) returns (rows: seq<ImportanceGroup>, total: nat)
    ensures total == |AccessibleTasks(u, ts, grants)|
    ensures var groups := ImportanceGroups(AccessibleTasks(u, ts, grants));
      && |rows| == |groups|
      && forall i :: 0 <= i < |rows| ==> rows[i] == Labelled(groups[i])
    ensures ImportanceTotal(rows) == total
  {
    var all := AccessibleTasks(u, ts, grants);
    var groups := ImportanceGroups(all);
    rows := LabelRows(groups);
    total := |all|;
    ImportanceGroupsTotal(all);
  }

  /** Labelling the rows leaves their totals, and so their sum, as they were. */
  lemma {:induction false} LabellingKeepsTotals(groups: seq<ImportanceGroup>, rows: seq<ImportanceGroup>)
    requires |rows| == |groups|
    requires forall i :: 0 <= i < |rows| ==> rows[i].total == groups[i].total
    ensures ImportanceTotal(rows) == ImportanceTotal(groups)
  {
    if rows != [] {
      LabellingKeepsTotals(groups[1..], rows[1..]);
    }
  }
}
