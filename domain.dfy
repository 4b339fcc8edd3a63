/**
 * The entities of the task application: users (from the authentication framework),
 * tasks, and the per-task sharing grants (`TaskPermission` rows).
 */
module Domain {
  import opened Wrappers
  import opened Seqs

  type UserId = nat
  type TaskId = nat

  /** Group names the application tests for, spelled as in the database. */
  const ADMIN_GROUP := "Administrador"
  const SALES_GROUP := "Ventas"
  const SUPPORT_GROUP := "Soporte Técnico"

  /** An authenticated user; `groups` lists the group names in the order `first()` sees them. */
  datatype User = User(id: UserId, username: string, isSuperuser: bool, groups: seq<string>)

  /** A task row. `created` and `datecompleted` are timestamps in seconds. */
  datatype Task = Task(
    id: TaskId,
    title: string,
    description: string,
    important: bool,
    created: int,
    datecompleted: Option<int>,
    owner: UserId,
    assignee: Option<UserId>)

  /** A `TaskPermission` row; the `(task, user)` pair that identifies it is its key in a `GrantTable`. */
  datatype Grant = Grant(canView: bool, canEdit: bool, canDelete: bool, grantedAt: int, grantedBy: Option<UserId>)

  /**
   * The `TaskPermission` table. Keying it by the `(task, user)` pair is the
   * `unique_together` constraint: the table holds at most one row per pair.
   */
  type GrantTable = map<(TaskId, UserId), Grant>

  /** A row created with the field defaults: it may view, not edit, not delete. */
  function DefaultGrant(grantedAt: int, grantedBy: Option<UserId>): (g: Grant)
    ensures g.canView && !g.canEdit && !g.canDelete
  {
    Grant(canView := true, canEdit := false, canDelete := false, grantedAt := grantedAt, grantedBy := grantedBy)
  }

  predicate InGroup(u: User, name: string) {
    name in u.groups
  }

  /** Superuser, or member of the "Administrador" group: the override every check starts with. */
  predicate IsAdmin(u: User) {
    u.isSuperuser || InGroup(u, ADMIN_GROUP)
  }

  predicate IsCompleted(t: Task) {
    t.datecompleted.Some?
  }

  predicate IsPending(t: Task) {
    t.datecompleted.None?
  }

  predicate IsImportant(t: Task) {
    t.important
  }

  predicate IsUnimportant(t: Task) {
    !t.important
  }

  /** Primary keys are unique. */
  ghost predicate DistinctIds(ts: seq<Task>) {
    forall i, j :: 0 <= i < j < |ts| ==> ts[i].id != ts[j].id
  }

  /** Looks a task up by primary key (`get_object_or_404` without the 404). */
  function FindTask(ts: seq<Task>, id: TaskId): (r: Option<Task>)
    ensures r.Some? ==> r.value in ts && r.value.id == id
    ensures r.None? ==> forall t :: t in ts ==> t.id != id
  {
    if ts == [] then None
    else if ts[0].id == id then Some(ts[0])
    else FindTask(ts[1..], id)
  }

  /** With unique keys, the row found is the only one with that key. */
  lemma FindTaskUnique(ts: seq<Task>, t: Task)
    requires DistinctIds(ts) && t in ts
    ensures FindTask(ts, t.id) == Some(t)
  {
    var r := FindTask(ts, t.id);
    var i :| 0 <= i < |ts| && ts[i] == t;
    var j :| 0 <= j < |ts| && ts[j] == r.value;
    assert i == j;
  }

  /** Filtering a table with unique keys gives a table with unique keys. */
  lemma {:induction false} FilterDistinctIds(ts: seq<Task>, p: Task -> bool)
    ensures DistinctIds(ts) ==> DistinctIds(Filter(ts, p))
  {
    if ts != [] && DistinctIds(ts) {
      var tail := ts[1..];
      assert DistinctIds(tail) by {
        forall i, j | 0 <= i < j < |tail| ensures tail[i].id != tail[j].id {
          assert tail[i] == ts[i + 1] && tail[j] == ts[j + 1];
        }
      }
      FilterDistinctIds(tail, p);
      var rest := Filter(tail, p);
      forall t | t in rest ensures t.id != ts[0].id {
        var k :| 0 <= k < |tail| && tail[k] == t;
        assert ts[k + 1] == t;
      }
    }
  }

  /** Sorting a table with unique keys gives a table with unique keys. */
  lemma SortDistinctIds(ts: seq<Task>, le: (Task, Task) -> bool)
    requires TotalPreorder(le)
    ensures DistinctIds(ts) ==> DistinctIds(Sort(ts, le))
  {
    var r := Sort(ts, le);
    forall i, j | DistinctIds(ts) && 0 <= i < j < |r| ensures r[i].id != r[j].id {
      assert r[i] in multiset(ts) && r[j] in multiset(ts);
      var a :| 0 <= a < |ts| && ts[a] == r[i];
      var b :| 0 <= b < |ts| && ts[b] == r[j];
      if a == b {
        assert multiset(r)[r[i]] == multiset(ts)[r[i]];
        MultiplicityOne(ts, a);
        MultiplicityAtLeastTwo(r, i, j);
      }
    }
  }

  lemma MultiplicityOne(ts: seq<Task>, a: nat)
    requires DistinctIds(ts) && a < |ts|
    ensures multiset(ts)[ts[a]] == 1
  {
    var t := ts[a];
    assert ts == ts[..a] + [t] + ts[a + 1..];
    assert t !in ts[..a] by {
      forall k | 0 <= k < a ensures ts[..a][k] != t { assert ts[..a][k] == ts[k]; }
    }
    var after := ts[a + 1..];
    assert t !in after by {
      forall k | 0 <= k < |after| ensures after[k] != t { assert after[k] == ts[a + 1 + k]; }
    }
    assert multiset(ts) == multiset(ts[..a]) + multiset{t} + multiset(ts[a + 1..]);
  }

  lemma MultiplicityAtLeastTwo(r: seq<Task>, i: nat, j: nat)
    requires i < j < |r| && r[i] == r[j]
    ensures multiset(r)[r[i]] >= 2
  {
    var t := r[i];
    assert r == r[..i] + [t] + r[i + 1..j] + [t] + r[j + 1..];
    assert multiset(r) == multiset(r[..i]) + multiset{t} + multiset(r[i + 1..j]) + multiset{t} + multiset(r[j + 1..]);
  }
}
