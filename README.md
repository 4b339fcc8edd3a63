# Task access control and reports of the django-CRUD task application

This project models the core of a small Django task manager: tasks owned by one user and optionally assigned to another, shared through `TaskPermission` grant rows, and gated by user groups ("Administrador", "Ventas", "Soporte Técnico"). The model covers:

- the per-task permission check `Task.has_permission`;
- the accessible-task query and the `user_has_permission` decorator's gate;
- the sharing service and the role lookups;
- the group gate of `RoleRequiredMixin`;
- the listing, detail, create, complete, delete and edit handlers;
- the report views.

Modules follow the source layout:

- `Models` is `tasks/models.py`.
- `Permissions` is `tasks/permissions.py`.
- `Mixins` is `tasks/mixins.py`.
- `TaskFilters` is the template filter.
- `Views`, `Ordering` and `Store` are `tasks/views.py`:
  - `Ordering` holds the `order_by` orderings.
  - `Store` is the class `TaskStore`, holding the task table and the grant table. Its methods are the handlers that write to the database.
- `Reports` is `tasks/reports.py`.
- `Domain`, `Seqs` and `Wrappers` hold the entities and the generic sequence tools:
  - `Filter` is the queryset filter.
  - `Sort` is an insertion sort standing for `order_by`.

A queryset is a sequence of task rows. A filtered queryset keeps exactly the rows its predicate admits. An ordered one is sorted by the named key, in either direction. The grant table is a map keyed by the `(task, user)` pair, which is its `unique_together` constraint. Timestamps are integers in seconds, and the current time is a parameter.

## Model

| member | source | states |
|---|---|---|
| Models.HasPermission | tasks/models.py:30-55 | `Task.has_permission`; its properties are stated by the lemmas of the next seven rows, from AdminHasEveryPermission to DeleteAndViewFlagsNeverRead |
| Models.AdminHasEveryPermission | tasks/models.py:33-35 | a superuser or "Administrador" member holds every permission kind on every task |
| Models.OwnerHasEveryPermission | tasks/models.py:37-39 | the owner holds every permission kind on their task |
| Models.EditNeedsEditFlag | tasks/models.py:41-47 | for anyone else, "edit" holds exactly when a grant row for the pair exists with its edit flag set |
| Models.ViewNeedsAnyRow | tasks/models.py:49-53 | for anyone else, "view" holds exactly when a grant row for the pair exists, whatever its view flag |
| Models.OtherKindsRefused | tasks/models.py:55 | for anyone else, every other kind, "delete" included, is refused |
| Models.EditImpliesView | tasks/models.py:30-55 | whoever may edit a task may view it |
| Models.DeleteAndViewFlagsNeverRead | tasks/models.py:41-53 | grant tables that differ only in the view and delete flags give the same answer for every user and kind |
| Models.DefaultGrantIsViewOnly | tasks/models.py:91-93 | a grant row with the field defaults lets a non-owner view but not edit |
| Domain.DefaultGrant | tasks/models.py:91-93 | the field defaults: may view, may not edit, may not delete |
| Domain.FindTask | tasks/permissions.py:32 | the lookup by primary key returns a row of the table with that key, or none when no row has it |
| Permissions.AccessQuery | tasks/permissions.py:66-86 | the `Q` object built step by step; Permissions.AccessQueryIsVisible proves it equals Permissions.Visible |
| Permissions.Visible | tasks/permissions.py:66-86 | the four visibility rules stated directly; the partner of AccessQuery in Permissions.AccessQueryIsVisible |
| Permissions.AccessQueryIsVisible | tasks/permissions.py:66-86 | the query built step by step admits a task exactly when one of the four visibility rules holds |
| Permissions.AccessibleTasks | tasks/permissions.py:66-86 | the accessible tasks are exactly the visible rows of the table, each row at most as often as in the table, keys kept unique |
| Permissions.AdminSeesEverything | tasks/permissions.py:67-69 | for an administrator the accessible set is the whole table |
| Permissions.SupportAddsNothing | tasks/permissions.py:71-84 | outside "Administrador" and "Ventas" (in "Soporte Técnico" or not) a task is accessible exactly when owned, assigned or shared |
| Permissions.SalesSeesUnassigned | tasks/permissions.py:81-83 | a "Ventas" member with no ownership, assignment or grant on a task sees it exactly when it is unassigned |
| Permissions.ViewableIsAccessible | tasks/permissions.py:66-86 | every task `has_permission(..., 'view')` allows is in the accessible listing |
| Permissions.AssigneeListedButNotViewable | tasks/permissions.py:72 | the converse fails: an assignee without ownership or grant sees the task listed but is refused "view" |
| Permissions.CanShareTask | tasks/permissions.py:89-93 | only the owner may share; Permissions.OwnerCannotShareWithSelf and Permissions.ShareIgnoresCanShare state what that means for `share_task` |
| Permissions.OwnerCannotShareWithSelf | tasks/permissions.py:89-93 | the one user allowed to share (the owner) is the one user a share may never name |
| Permissions.ShareIgnoresCanShare | tasks/permissions.py:96-119 | the sharing service does not consult `can_share_task`: a share on behalf of a non-owner succeeds and records that granter |
| Permissions.Share | tasks/permissions.py:107-128 | sharing with the owner fails. Otherwise exactly the grant row for the pair is created or updated: it may view, the edit and delete flags are the given ones, and the granter is the given one or else the owner. An existing row keeps its creation time; every other row is unchanged |
| Permissions.ShareIdempotent | tasks/permissions.py:110-126 | sharing again with the same arguments leaves the table as the first share left it |
| Permissions.ShareGrantsAccess | tasks/permissions.py:110-119 | after a share the grantee may view the task, may edit it exactly when edit was granted, and finds it accessible |
| Permissions.PermissionGate | tasks/permissions.py:27-40 | a missing (zero) id is refused with 403, and only such an id. Otherwise the decorator answers 404 exactly when no row has the id, admits exactly when the permission holds, and sends the user back with a message exactly when it does not |
| Mixins.RoleRequired | tasks/mixins.py:8-24 | the gate of `RoleRequiredMixin.dispatch`; its cases are the lemmas Mixins.AnonymousIsSentToLogin, Mixins.AdminAlwaysAdmitted, Mixins.OthersNeedAnAllowedGroup and Mixins.EmptyAllowsOnlyAdmins |
| Mixins.AnyAllowed | tasks/mixins.py:20 | true exactly when the user is in one of the allowed groups |
| Mixins.AnonymousIsSentToLogin | tasks/mixins.py:10-11 | an anonymous visitor is sent to the login page |
| Mixins.AdminAlwaysAdmitted | tasks/mixins.py:13-18 | a superuser or "Administrador" member is always admitted |
| Mixins.OthersNeedAnAllowedGroup | tasks/mixins.py:20-24 | anyone else is admitted exactly when in an allowed group, otherwise forbidden, never sent to login |
| Mixins.EmptyAllowsOnlyAdmins | tasks/mixins.py:6 | with the default empty group list only administrators get in |
| TaskFilters.RoleLabel | tasks/templatetags/task_filters.py:6-24 | the `get_user_role` template filter; its cases are the four lemmas that follow |
| TaskFilters.MissingUserIsNA | tasks/templatetags/task_filters.py:12-13 | no user gives "N/A" |
| TaskFilters.SuperuserIsDeveloper | tasks/templatetags/task_filters.py:15-16 | a superuser is "Desarrollador", even when in "Administrador" |
| TaskFilters.AdminLabelIgnoresOrder | tasks/templatetags/task_filters.py:19-20 | a non-superuser in "Administrador" gets that label wherever the group sits in their list |
| TaskFilters.FilterAgreesWithUserRole | tasks/templatetags/task_filters.py:22-24 | outside those cases the filter agrees with `permissions.get_user_role` (first group, else "Sin Rol") |
| Permissions.UserRole | tasks/permissions.py:130-141 | superuser, else the first group, else "Sin Rol"; TaskFilters.FilterAgreesWithUserRole, TaskFilters.RoleVariantsDisagree and Views.DetailFormRestrictedIff state its relation to the filter and to the detail form |
| TaskFilters.RoleVariantsDisagree | tasks/permissions.py:130-141 | the two role lookups disagree for a user whose first group is "Ventas" and who is also in "Administrador" |
| Ordering.ParseSortField | tasks/views.py:309-314 | a sort field is recognised exactly when it is one of the five whitelisted names, and each name selects the field it names: `title` the title, `user__username` the owner's username, `created`, `datecompleted` and `important` those columns |
| Ordering.OrderTasks | tasks/views.py:310-317 | ordering returns a permutation of its input, sorted by the field, ascending or descending |
| Views.DetailFormKind | tasks/views.py:174-186 | the detail page's form choice; Views.DetailFormRestrictedIff says exactly who gets the restricted form |
| Views.EditViewFormKind | tasks/views.py:464-476 | the edit view's form choice; Views.SalesOnlyTestsDisagree compares it with the detail page's |
| Views.DetailFormRestrictedIff | tasks/views.py:174-186 | the detail page gives the restricted form exactly to non-superusers whose first group is "Ventas" |
| Views.SalesOnlyTestsDisagree | tasks/views.py:177-186 | the detail page's and the edit view's "Ventas only" tests disagree, in both directions |
| Views.DetailPage | tasks/views.py:170-216 | the page shows the fetched task, the role's form, edit rights as `has_permission(..., 'edit')`, pending as "no completion time", admin as "in group Administrador", the role of `get_user_role` and the superuser flag |
| Views.SuperuserNotShownDelete | tasks/views.py:194-200 | a superuser outside "Administrador" may edit but is not shown the delete button |
| Views.DeleteTaskAllowed | tasks/views.py:257 | `delete_task` deletes only for the owner; Views.DeletePoliciesDisagree and Store.TaskStore.DeleteTask state its effect |
| Views.DeleteViewAllowed | tasks/views.py:486-491 | `TaskDeleteView` admits only superusers and "Administrador" members; Views.DeletePoliciesDisagree and Store.TaskStore.DeleteViaView state its effect |
| Views.DeletePoliciesDisagree | tasks/views.py:252-264 | the owner-only and the admin-only delete policies disagree, and a `can_delete` grantee passes neither |
| Views.PendingTasks | tasks/views.py:44-50 | the accessible tasks that have no completion time, newest first |
| Views.CompletedTasks | tasks/views.py:52-58 | the accessible tasks that have a completion time, latest completion first |
| Views.TaskList | tasks/views.py:423-429 | every accessible task, newest first |
| Views.TaskListSplits | tasks/views.py:44-58 | the full listing is the disjoint union of the pending and the completed listings |
| Views.ListingOrder | tasks/views.py:305-317 | a whitelisted sort field gives that field, ascending exactly for `asc`; any other gives newest first |
| Views.DefaultListingOrder | tasks/views.py:305-306 | without parameters the listing is newest first |
| Views.ByStatus | tasks/views.py:282-285 | exactly the rows whose completion state matches "completed" or "pending"; any other value keeps all |
| Views.ByImportance | tasks/views.py:287-290 | exactly the rows whose importance matches "yes" or "no"; any other value keeps all |
| Views.ByDates | tasks/views.py:292-302 | exactly the rows created within the parsed bounds, each bound applied only when present |
| Views.DetailsListing | tasks/views.py:267-327 | the accessible rows admitted by every filter, ordered by the chosen field and direction |
| Views.UnknownFiltersKeepEverything | tasks/views.py:279-302 | unrecognised filter values and absent dates keep every accessible task |
| Views.EditViewQueryset | tasks/views.py:448-461 | with unique keys, the edit view's rows are exactly the accessible tasks |
| Views.EditViewOpen | tasks/views.py:432-476 | an anonymous visitor goes to the login page. A signed-in user outside "Administrador", "Soporte Técnico" and "Ventas" is refused, and only such a user; anyone else gets 404 exactly when the queryset holds no row with the key, and otherwise the row with that key and the form of `get_form_class` |
| Views.EditViewIgnoresEditPermission | tasks/views.py:432-461 | a "Ventas" member opens for editing an unassigned task of another user on which they hold no edit permission |
| Store.DefaultAssignee | tasks/views.py:89-90 | a missing assignee becomes the requester, a given one is kept |
| Store.NewTask | tasks/views.py:83-92 | the new row is owned by and assigned to the requester, created now, not completed, with the form's fields |
| Store.CreatorSeesNewTask | tasks/views.py:84-92 | the creator holds every permission on the new task and finds it accessible |
| Store.Edited | tasks/views.py:226-229 | the full form writes title, description and importance; the restricted form title, description and completion time; key, owner, assignee and creation time never change |
| Store.Completed | tasks/views.py:247-249 | completing writes the current time as completion time and changes nothing else |
| Store.CompleteTwiceRestamps | tasks/views.py:247-249 | completing again only moves the completion time |
| Store.Replace | tasks/views.py:229 | saving a row replaces the row with its key and keeps every other row in place |
| Store.FindAfterReplace | tasks/views.py:229 | after a save the key finds the saved row and every other lookup is unchanged |
| Store.ReplaceTwice | tasks/views.py:229 | two saves of the same key keep only the second |
| Store.RemoveTask | tasks/views.py:263 | deleting keeps exactly the rows with another key, with unique keys preserved |
| Store.FindAfterRemove | tasks/views.py:263 | after a delete every other key finds what it found before |
| Store.CascadeGrants | tasks/models.py:89 | the grant rows of the deleted task go with it, all others stay unchanged |
| Store.DeletedTaskIsGone | tasks/permissions.py:32 | after a delete every gate on the key answers 404 |
| Store.ConsistentAfterAppend | tasks/views.py:92 | saving a new row under the next key keeps keys unique, in range, and every grant pointing at a task not owned by the grantee |
| Store.ConsistentAfterReplace | tasks/views.py:229 | saving an existing row under its own key and owner keeps the invariants |
| Store.ConsistentAfterRemove | tasks/models.py:89 | deleting a task with its grant rows keeps the invariants |
| Store.ConsistentAfterShare | tasks/permissions.py:107-126 | sharing with anyone but the owner keeps the invariants |
| Store.TaskStore.CreateTask | tasks/views.py:75-100 | GET shows the form and an invalid POST the errors, writing nothing. A valid POST appends the new row under the next key and leaves the grants untouched |
| Store.TaskStore.TaskDetailPost | tasks/views.py:218-241 | behind the view gate: without edit permission the request is declined and nothing changes. Otherwise a valid form saves the row as the role's form edits it, and an invalid one writes nothing |
| Store.TaskStore.CompleteTask | tasks/views.py:243-250 | behind the edit gate: POST stamps the completion time; GET returns no response and writes nothing |
| Store.TaskStore.DeleteTask | tasks/views.py:252-264 | a missing key is 404 and a non-owner is declined, whatever their role or grant. The owner's GET returns no response; the owner's POST deletes the row and its grant rows |
| Store.TaskStore.DeleteViaView | tasks/views.py:479-493 | only administrators pass (anyone else is 403). GET asks for confirmation; POST deletes any existing task with its grant rows |
| Store.TaskStore.ShareTask | tasks/permissions.py:96-128 | sharing with the owner fails and writes nothing. Otherwise the grant table becomes the table that `Share` describes, and the saved row is returned |
| Reports.StartDate | tasks/reports.py:81 | `now - timedelta(days=days)`: the start is not after now exactly when `days` is not negative |
| Reports.PeriodDays | tasks/reports.py:79 | the `days` parameter, 30 when it is absent |
| Reports.TaskReports | tasks/reports.py:13-70 | the total counts the accessible tasks, and each other count counts exactly the accessible tasks it names: completed, pending, important, not important, created in the last 30 days, pending since before then. Completed plus pending, and important plus not important, each give the total. The status and user lists hold exactly those counts |
| Reports.DashboardMatchesListings | tasks/reports.py:34-36 | the dashboard's total, pending and completed counts are the lengths of the `task_list`, `tasks` and `tasks_completed` listings |
| Reports.CreatedPeriod | tasks/reports.py:73-97 | exactly the accessible tasks created since the start date, newest first, with the period and start date of the request |
| Reports.CompletedPeriod | tasks/reports.py:100-127 | exactly the accessible tasks completed since the start date, latest completion first |
| Reports.OldPending | tasks/reports.py:187-212 | exactly the accessible uncompleted tasks created before the start date, oldest first |
| Reports.PeriodAndAgeAreDisjoint | tasks/reports.py:84 | no task is both in the created-period report and in the old-pending report for the same days |
| Reports.DashboardMatchesReports | tasks/reports.py:40-47 | the dashboard's recent and old counts are the sizes of the created-period and old-pending reports at their default of 30 days |
| Reports.Usernames | tasks/reports.py:138 | the owner names of the tasks, each once, every owner present |
| Reports.GroupOf | tasks/reports.py:138-142 | one owner's row counts that owner's tasks, and its completed, pending and important counts count exactly that owner's tasks of each kind; completed and pending split the total |
| Reports.GroupsOf | tasks/reports.py:138-142 | one row per listed name, each the aggregates of that name |
| Reports.PresentGroups | tasks/reports.py:138-142 | the grouped rows are non-empty aggregates of real owners covering every task, with totals adding up to the task count |
| Reports.ByUser | tasks/reports.py:130-154 | one row per owner of an accessible task, usernames distinct, largest total first. Each row aggregates that owner's tasks; the totals add up to the overall total, which is the number of accessible tasks |
| Reports.ImportanceGroupOf | tasks/reports.py:165-168 | the row for one importance value counts the tasks with that value, and its completed and pending counts count exactly those tasks completed and pending |
| Reports.ImportanceGroups | tasks/reports.py:165-169 | at most two non-empty rows, `True` before `False` |
| Reports.ImportanceRowsAreGroups | tasks/reports.py:165-168 | each row holds the aggregates of the tasks with its importance value |
| Reports.ImportanceRowIffTask | tasks/reports.py:165 | a row for an importance value exists exactly when some task has that value |
| Reports.ImportanceGroupsTotal | tasks/reports.py:165-168 | the row totals add up to the number of tasks |
| Reports.LabelRows | tasks/reports.py:172-173 | the loop gives every row the label of its importance value and changes nothing else, so the totals are kept |
| Reports.ByImportance | tasks/reports.py:157-184 | the grouped rows each labelled, with the overall total the number of accessible tasks and the row totals adding up to it |
| Reports.JoinedRows | tasks/permissions.py:75 | the rows the grant-table join gives one task: at least one exactly when the task is visible; exactly one for an administrator, and exactly one for a visible task with no grant rows (none for an invisible one); one per grant row when the task has grant rows and is visible without a grant; at most one otherwise |
| Reports.JoinedCountExact | tasks/reports.py:138-142 | the joined count equals the number of visible tasks counted when none of them is both visible without a grant and holding grant rows |
| Reports.JoinedCount | tasks/reports.py:138-142 | `Count('id')` over the joined rows: exact for administrators, never below the number of visible tasks counted |
| Reports.JoinOvercountsSharedOwnTask | tasks/reports.py:138-142 | a non-administrator's own task with two or more grant rows makes the joined counts of its owner row and its importance row exceed the number of tasks they stand for |
| Reports.SharedTaskCountedPerGrant | tasks/reports.py:138-147 | one own task shared with two users: one accessible task, yet joined counts of 2 in the by-owner and by-importance rows |

## Left out

- Sign-up, sign-in, sign-out and the authentication forms are out of scope. `login_required` is represented only by the anonymous visitor of the mixin.
- The PDF export `tasks_details_pdf` repeats the `tasks_details` filters and only adds rendering, so it is left out.
- Templates, redirects and flash messages are left out. Each handler's answer becomes a `Response` value.
- The ORM, the database and transactions are left out. Tables are values held by the store, and two concurrent `share_task` calls racing on `get_or_create` are not modelled.
- The URL routes, the admin site, the migrations and the server configuration are left out.
- Form field sets and field validation are left out. `form.is_valid()` is a boolean of the submission.
- `TaskStatusOnlyForm` is imported from `tasks/forms.py`, but that file defines only `TaskForm`. Its fields cannot be read from the source; the restricted form is assumed to edit title, description and completion time.
- The `ValueError` branch of `create_task` (tasks/views.py:98-100) is not modelled, because a validated form raises nothing on save here.
- Reports.PeriodDays: the parsing of `days` with `int()` is not modelled. A non-numeric value raises and yields a server error in the source; the model takes the parsed number.
- Reports.StartDate: `timedelta(days=days)` and the subtraction from `timezone.now()` raise `OverflowError` for a `days` far outside the calendar's range (tasks/reports.py:81, 108, 194). The model computes a start date and returns a report there.
- Views.ByDates: `parse_date` is not modelled. The bounds arrive already parsed, as midnight in seconds, and are absent when empty or not of the form of a date. A well-formed but impossible date such as "2024-02-30" makes `parse_date` raise `ValueError` (tasks/views.py:294, 300), a server error the model does not represent.
- Ordering.OrderTasks: a missing completion time sorts before every present one. Where NULLs go depends on the database.
- Ordering.StrLe: titles and usernames compare code point by code point. The database's collation may order them otherwise.
- Ordering.OrderTasks: the database may return rows with equal keys in any order, and the model's sort fixes one such order. The same holds for `-total` ties in Reports.ByUser.
- Reports.ByUser: usernames come from a user table given as a map. An owner missing from it has the empty name.
- Permissions.UserRole: the group order of `groups.first()` is taken to be the order of the user's group list.
- Deleting a user, with the cascades and `SET_NULL` on assignee and granter, is not modelled. No handler in the core deletes users.
- Store.TaskStore.ShareTask: `share_task` does not call `can_share_task`, and neither does the model. Permissions.ShareIgnoresCanShare shows the consequence.
- Reports.ByUser, Reports.ByImportance: count each accessible task once in every row, the evident intent. The grouped query as written counts joined rows instead; see Findings.

## Findings

| source | as written | input that shows it | evidently intended | confidence | as-written member | corrected member |
|---|---|---|---|---|---|---|
| tasks/reports.py:138-142 | for a non-administrator the accessible queryset joins the grant table (tasks/permissions.py:75), and `Count('id')` in `values('user__username').annotate(...)` counts a task once per joined row; `distinct()` does not remove them | a non-administrator owning one task shared with two other users: the owner's row says 2 while `total` is 1 | each row counts distinct tasks, so the row totals add up to `total` | medium; a reading of the ORM's join and grouping rules, not executed | Reports.SharedTaskCountedPerGrant | Reports.ByUser |
| tasks/reports.py:165-168 | the same join makes `Count('id')` in `values('important').annotate(...)` count a task once per joined row | the same user and task: the "No Importante" row says 2 while `total` is 1 | each row counts distinct tasks, so the row totals add up to `total` | medium; a reading of the ORM's join and grouping rules, not executed | Reports.JoinOvercountsSharedOwnTask | Reports.ByImportance |
