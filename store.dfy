/**
 * The handlers that change the database: `create_task`, the POST branch of
 * `task_detail`, `complete_task`, `delete_task`, `TaskDeleteView` and `share_task`,
 * as methods of a store holding the task table and the `TaskPermission` table.
 * Each method is specified by the table functions below, whose properties are lemmas.
 */
module Store {
  import opened Wrappers
  import opened Seqs
  import opened Domain
  import opened Models
  import opened Permissions
  import opened Views

  datatype Verb = Get | Post

  /**
   * A submitted task form: whether `form.is_valid()` holds, and the values of the
   * fields a form may carry (`TaskForm` uses title, description and importance; the
   * restricted form title, description and completion time).
   */
  datatype Submission = Submission(
    valid: bool, title: string, description: string, important: bool, datecompleted: Option<int>)

  /** What a handler answers, with redirects and flash messages reduced to their meaning. */
  datatype Response =
    | FormPage     // the form (or confirmation page) is rendered, nothing is written
    | FormErrors   // the form did not validate, nothing is written
    | Saved        // the change was written, then redirect
    | Declined     // an error message and a redirect, nothing is written
    | Forbidden    // PermissionDenied (HTTP 403)
    | NotFound     // get_object_or_404 (HTTP 404)
    | NoResponse   // the view returns None (a GET where only POST is handled)

  /** `if not new_task.assigned_user: new_task.assigned_user = request.user`. */
  function DefaultAssignee(given: Option<UserId>, requester: UserId): (r: Option<UserId>)
    ensures r.Some?
    ensures given.Some? ==> r == given
    ensures given.None? ==> r == Some(requester)
  {
    if given.None? then Some(requester) else given
  }

  /**
   * The row `create_task` saves from a valid `TaskForm`: owned by the requester, created
   * now, not completed. `TaskForm` has no assignee field, so the draft never carries one
   * and the default always applies.
   */
  function NewTask(id: TaskId, requester: User, s: Submission, now: int): (t: Task)
    ensures t.id == id && t.owner == requester.id && t.assignee == Some(requester.id)
    ensures t.created == now && t.datecompleted.None?
    ensures t.title == s.title && t.description == s.description && t.important == s.important
  {
    var draft := Task(id, s.title, s.description, s.important, now, None, requester.id, None);
    draft.(assignee := DefaultAssignee(draft.assignee, requester.id))
  }

  /** The creator holds every permission on the new task and finds it in the accessible listing. */
  lemma CreatorSeesNewTask(id: TaskId, u: User, s: Submission, now: int, ts: seq<Task>, grants: GrantTable, kind: string)
    ensures var t := NewTask(id, u, s, now);
      HasPermission(t, u, grants, kind) && t in AccessibleTasks(u, ts + [t], grants)
  {
  }

  /**
   * `form.save()` on an existing row: the full form writes title, description and
   * importance; the restricted form title, description and completion time. Key,
   * owner, assignee and creation time are never written.
   */
  function Edited(t: Task, form: FormKind, s: Submission): (r: Task)
    ensures r.id == t.id && r.owner == t.owner && r.assignee == t.assignee && r.created == t.created
    ensures r.title == s.title && r.description == s.description
    ensures r.important == (if form == FullForm then s.important else t.important)
    ensures r.datecompleted == (if form == RestrictedForm then s.datecompleted else t.datecompleted)
  {
    match form
    case FullForm => t.(title := s.title, description := s.description, important := s.important)
    case RestrictedForm => t.(title := s.title, description := s.description, datecompleted := s.datecompleted)
  }

  /** `task.datecompleted = timezone.now()`: only the completion time is written. */
  function Completed(t: Task, now: int): (r: Task)
    ensures r.datecompleted == Some(now)
    ensures r.(datecompleted := t.datecompleted) == t
  {
    t.(datecompleted := Some(now))
  }

  /** Completing an already completed task only moves its completion time. */
  lemma CompleteTwiceRestamps(t: Task, now1: int, now2: int)
    ensures Completed(Completed(t, now1), now2) == Completed(t, now2)
  {
  }

  /** `save()` of row `n`: the row with its key is replaced, every other row is kept in place. */
  function Replace(ts: seq<Task>, n: Task): (r: seq<Task>)
    ensures |r| == |ts|
    ensures forall i :: 0 <= i < |ts| ==> r[i] == (if ts[i].id == n.id then n else ts[i])
  {
    if ts == [] then [] else [if ts[0].id == n.id then n else ts[0]] + Replace(ts[1..], n)
  }

  /** A lookup after the save finds the saved row under its key and the old rows elsewhere. */
  lemma {:induction false} FindAfterReplace(ts: seq<Task>, n: Task, id: TaskId)
    ensures FindTask(Replace(ts, n), id) ==
      if id == n.id && FindTask(ts, id).Some? then Some(n) else FindTask(ts, id)
  {
    if ts != [] {
      assert Replace(ts, n)[1..] == Replace(ts[1..], n);
      FindAfterReplace(ts[1..], n, id);
    }
  }

  /** Saving a row twice keeps only the second save. */
  lemma ReplaceTwice(ts: seq<Task>, a: Task, b: Task)
    requires a.id == b.id
    ensures Replace(Replace(ts, a), b) == Replace(ts, b)
  {
  }

  /** `lambda t: t.id != id`, the rows a delete of `id` keeps. */
  function OtherThan(id: TaskId): Task -> bool {
    (t: Task) => t.id != id
  }

  /** `task.delete()`: the row with key `id` is gone, the others stay in order. */
  function RemoveTask(ts: seq<Task>, id: TaskId): (r: seq<Task>)
    ensures forall t :: t in r <==> t in ts && t.id != id
    ensures FindTask(r, id).None?
    ensures DistinctIds(ts) ==> DistinctIds(r)
  {
    FilterDistinctIds(ts, OtherThan(id));
    Filter(ts, OtherThan(id))
  }

  /** A lookup of any other key after the delete finds what it found before. */
  lemma {:induction false} FindAfterRemove(ts: seq<Task>, id: TaskId, other: TaskId)
    requires other != id
    ensures FindTask(RemoveTask(ts, id), other) == FindTask(ts, other)
  {
    if ts != [] {
      var rest := RemoveTask(ts[1..], id);
      FindAfterRemove(ts[1..], id, other);
      if ts[0].id == id {
        assert RemoveTask(ts, id) == rest;
      } else {
        assert RemoveTask(ts, id) == [ts[0]] + rest;
        assert ([ts[0]] + rest)[1..] == rest;
      }
    }
  }

  /** `on_delete=CASCADE` of `TaskPermission.task`: the rows for the deleted task go with it. */
  function CascadeGrants(grants: GrantTable, id: TaskId): (r: GrantTable)
    ensures forall k :: k in r <==> k in grants && k.0 != id
    ensures forall k :: k in r ==> r[k] == grants[k]
  {
    map k | k in grants && k.0 != id :: grants[k]
  }

  /** Once a task is deleted every gate on its key answers 404, whoever asks and for whatever kind. */
  lemma DeletedTaskIsGone(ts: seq<Task>, grants: GrantTable, id: TaskId, u: User, kind: string)
    requires id != 0
    ensures PermissionGate(RemoveTask(ts, id), CascadeGrants(grants, id), u, id, kind) == TaskNotFound
  {
  }

  /**
   * The database invariants the handlers keep: keys are unique, positive and below the
   * next key to hand out; every grant row refers to an existing task (the cascade);
   * and no grant names the task's own owner (`share_task` refuses self-shares).
   */
  ghost predicate Consistent(ts: seq<Task>, grants: GrantTable, nextId: nat) {
    && nextId >= 1
    && DistinctIds(ts)
    && (forall i :: 0 <= i < |ts| ==> 1 <= ts[i].id < nextId)
    && (forall k :: k in grants ==> FindTask(ts, k.0).Some? && FindTask(ts, k.0).value.owner != k.1)
  }

  lemma {:induction false} FindAfterAppend(ts: seq<Task>, t: Task, id: TaskId)
    requires FindTask(ts, id).Some?
    ensures FindTask(ts + [t], id) == FindTask(ts, id)
  {
    if ts[0].id != id {
      assert (ts + [t])[1..] == ts[1..] + [t];
      FindAfterAppend(ts[1..], t, id);
    }
  }

  lemma ConsistentAfterAppend(ts: seq<Task>, grants: GrantTable, nextId: nat, t: Task)
    requires Consistent(ts, grants, nextId) && t.id == nextId
    ensures Consistent(ts + [t], grants, nextId + 1)
  {
    var r := ts + [t];
    forall i, j | 0 <= i < j < |r| ensures r[i].id != r[j].id {
      if j == |ts| {
        assert r[i] == ts[i];
      } else {
        assert r[i] == ts[i] && r[j] == ts[j];
      }
    }
    forall k | k in grants ensures FindTask(r, k.0) == FindTask(ts, k.0) {
      FindAfterAppend(ts, t, k.0);
    }
  }

  /** A save keeps every key where it was. */
  lemma ReplaceKeepsKeys(ts: seq<Task>, n: Task, nextId: nat)
    requires DistinctIds(ts) && forall i :: 0 <= i < |ts| ==> 1 <= ts[i].id < nextId
    ensures DistinctIds(Replace(ts, n)) && forall i :: 0 <= i < |ts| ==> 1 <= Replace(ts, n)[i].id < nextId
  {
    var r := Replace(ts, n);
    forall i | 0 <= i < |r| ensures r[i].id == ts[i].id {
    }
  }

  lemma ConsistentAfterReplace(ts: seq<Task>, grants: GrantTable, nextId: nat, n: Task)
    requires Consistent(ts, grants, nextId)
    requires FindTask(ts, n.id).Some? && FindTask(ts, n.id).value.owner == n.owner
    ensures Consistent(Replace(ts, n), grants, nextId)
  {
    ReplaceKeepsKeys(ts, n, nextId);
    forall k | k in grants
      ensures FindTask(Replace(ts, n), k.0).Some? && FindTask(Replace(ts, n), k.0).value.owner != k.1
    {
      FindAfterReplace(ts, n, k.0);
    }
  }

  /** Saving a row of the table under its own key and owner keeps the invariants. */
  lemma EditKeepsConsistent(ts: seq<Task>, grants: GrantTable, nextId: nat, t: Task, n: Task)
    requires Consistent(ts, grants, nextId) && t in ts && n.id == t.id && n.owner == t.owner
    ensures Consistent(Replace(ts, n), grants, nextId)
  {
    FindTaskUnique(ts, t);
    ConsistentAfterReplace(ts, grants, nextId, n);
  }

  lemma ConsistentAfterRemove(ts: seq<Task>, grants: GrantTable, nextId: nat, id: TaskId)
    requires Consistent(ts, grants, nextId)
    ensures Consistent(RemoveTask(ts, id), CascadeGrants(grants, id), nextId)
  {
    var r := RemoveTask(ts, id);
    forall i | 0 <= i < |r| ensures 1 <= r[i].id < nextId {
      assert r[i] in ts;
    }
    forall k | k in CascadeGrants(grants, id) ensures FindTask(r, k.0) == FindTask(ts, k.0) {
      FindAfterRemove(ts, id, k.0);
    }
  }

  lemma ConsistentAfterShare(ts: seq<Task>, grants: GrantTable, nextId: nat, t: Task, grantee: UserId,
                             canEdit: bool, canDelete: bool, grantedBy: Option<UserId>, now: int)
    requires Consistent(ts, grants, nextId) && t in ts && grantee != t.owner
    ensures Consistent(ts, Share(grants, t, grantee, canEdit, canDelete, grantedBy, now).value, nextId)
  {
    FindTaskUnique(ts, t);
  }

  /** The task table, the grant table and the key counter of the database. */
  class TaskStore {
    var tasks: seq<Task>
    var grants: GrantTable
    var nextId: nat

    ghost predicate Valid()
      reads this
    {
      Consistent(tasks, grants, nextId)
    }

    constructor()
      ensures Valid()
      ensures tasks == [] && grants == map[] && nextId == 1
    {
      tasks := [];
      grants := map[];
      nextId := 1;
    }

    /** `create_task`: GET shows the form; a valid POST saves a new row under the next key. */
    method CreateTask(u: User, verb: Verb, s: Submission, now: int) returns (resp: Response)
      requires Valid()
      modifies this
      ensures Valid()
      ensures verb == Get ==> resp == FormPage
      ensures verb == Post && !s.valid ==> resp == FormErrors
      ensures resp != Saved ==> unchanged(this)
      ensures resp == Saved <==> verb == Post && s.valid
      ensures resp == Saved ==>
        && tasks == old(tasks) + [NewTask(old(nextId), u, s, now)]
        && grants == old(grants)
        && nextId == old(nextId) + 1
    {
      if verb == Get {
        return FormPage;
      }
      if !s.valid {
        return FormErrors;
      }
      var t := NewTask(nextId, u, s, now);
      ConsistentAfterAppend(tasks, grants, nextId, t);
      tasks := tasks + [t];
      nextId := nextId + 1;
      resp := Saved;
    }

    /**
     * The POST branch of `task_detail`, behind `user_has_permission('view')`: a user
     * without edit permission is refused and nothing changes; otherwise the form the
     * role selects is validated and saved.
     */
    method TaskDetailPost(u: User, taskId: TaskId, s: Submission) returns (resp: Response)
      requires Valid()
      modifies this
      ensures Valid()
      ensures var gate := PermissionGate(old(tasks), old(grants), u, taskId, VIEW);
        && (gate == MissingTaskId ==> resp == Forbidden)
        && (gate == TaskNotFound ==> resp == NotFound)
        && (gate == Refused ==> resp == Declined)
        && (gate.Admitted? && !HasPermission(gate.task, u, old(grants), EDIT) ==> resp == Declined)
        && (gate.Admitted? && HasPermission(gate.task, u, old(grants), EDIT) && !s.valid ==> resp == FormErrors)
        && (resp == Saved <==> gate.Admitted? && HasPermission(gate.task, u, old(grants), EDIT) && s.valid)
        && (resp == Saved ==> tasks == Replace(old(tasks), Edited(gate.task, DetailFormKind(u), s)))
      ensures resp != Saved ==> unchanged(this)
      ensures grants == old(grants) && nextId == old(nextId)
    {
      var gate := PermissionGate(tasks, grants, u, taskId, VIEW);
      match gate
      case MissingTaskId => return Forbidden;
      case TaskNotFound => return NotFound;
      case Refused => return Declined;
      case Admitted(t) =>
        if !HasPermission(t, u, grants, EDIT) {
          return Declined;
        }
        if !s.valid {
          return FormErrors;
        }
        var n := Edited(t, DetailFormKind(u), s);
        EditKeepsConsistent(tasks, grants, nextId, t, n);
        tasks := Replace(tasks, n);
        resp := Saved;
    }

    /** `complete_task`, behind `user_has_permission('edit')`: a POST stamps the completion time. */
    method CompleteTask(u: User, taskId: TaskId, verb: Verb, now: int) returns (resp: Response)
      requires Valid()
      modifies this
      ensures Valid()
      ensures var gate := PermissionGate(old(tasks), old(grants), u, taskId, EDIT);
        && (gate == MissingTaskId ==> resp == Forbidden)
        && (gate == TaskNotFound ==> resp == NotFound)
        && (gate == Refused ==> resp == Declined)
        && (gate.Admitted? && verb == Get ==> resp == NoResponse)
        && (resp == Saved <==> gate.Admitted? && verb == Post)
        && (resp == Saved ==> tasks == Replace(old(tasks), Completed(gate.task, now)))
      ensures resp != Saved ==> unchanged(this)
      ensures grants == old(grants) && nextId == old(nextId)
    {
      var gate := PermissionGate(tasks, grants, u, taskId, EDIT);
      match gate
      case MissingTaskId => return Forbidden;
      case TaskNotFound => return NotFound;
      case Refused => return Declined;
      case Admitted(t) =>
        if verb == Get {
          return NoResponse;
        }
        var n := Completed(t, now);
        EditKeepsConsistent(tasks, grants, nextId, t, n);
        tasks := Replace(tasks, n);
        resp := Saved;
    }

    /**
     * `delete_task`: only the owner deletes, on POST, and the task's grant rows go with
     * it. Anyone else, administrators and `can_delete` grantees included, is refused.
     */
    method DeleteTask(u: User, taskId: TaskId, verb: Verb) returns (resp: Response)
      requires Valid()
      modifies this
      ensures Valid()
      ensures FindTask(old(tasks), taskId).None? ==> resp == NotFound
      ensures FindTask(old(tasks), taskId).Some? && FindTask(old(tasks), taskId).value.owner != u.id ==> resp == Declined
      ensures FindTask(old(tasks), taskId).Some? && FindTask(old(tasks), taskId).value.owner == u.id && verb == Get ==>
        resp == NoResponse
      ensures resp == Saved <==>
        FindTask(old(tasks), taskId).Some? && FindTask(old(tasks), taskId).value.owner == u.id && verb == Post
      ensures resp == Saved ==>
        tasks == RemoveTask(old(tasks), taskId) && grants == CascadeGrants(old(grants), taskId)
      ensures resp != Saved ==> unchanged(this)
      ensures nextId == old(nextId)
    {
      match FindTask(tasks, taskId)
      case None => return NotFound;
      case Some(t) =>
        if !DeleteTaskAllowed(u, t) {
          return Declined;
        }
        if verb == Get {
          return NoResponse;
        }
        ConsistentAfterRemove(tasks, grants, nextId, taskId);
        tasks := RemoveTask(tasks, taskId);
        grants := CascadeGrants(grants, taskId);
        resp := Saved;
    }

    /**
     * `TaskDeleteView`: superusers and "Administrador" members only; GET asks for
     * confirmation, POST deletes any task, owned or not.
     */
    method DeleteViaView(u: User, taskId: TaskId, verb: Verb) returns (resp: Response)
      requires Valid()
      modifies this
      ensures Valid()
      ensures !IsAdmin(u) ==> resp == Forbidden
      ensures IsAdmin(u) && FindTask(old(tasks), taskId).None? ==> resp == NotFound
      ensures IsAdmin(u) && FindTask(old(tasks), taskId).Some? && verb == Get ==> resp == FormPage
      ensures resp == Saved <==> IsAdmin(u) && FindTask(old(tasks), taskId).Some? && verb == Post
      ensures resp == Saved ==>
        tasks == RemoveTask(old(tasks), taskId) && grants == CascadeGrants(old(grants), taskId)
      ensures resp != Saved ==> unchanged(this)
      ensures nextId == old(nextId)
    {
      if !DeleteViewAllowed(u) {
        return Forbidden;
      }
      if FindTask(tasks, taskId).None? {
        return NotFound;
      }
      if verb == Get {
        return FormPage;
      }
      ConsistentAfterRemove(tasks, grants, nextId, taskId);
      tasks := RemoveTask(tasks, taskId);
      grants := CascadeGrants(grants, taskId);
      resp := Saved;
    }

    /**
     * `share_task`: a get-or-create of the row for `(t, grantee)` followed by setting its
     * fields. Sharing with the owner fails and writes nothing.
     */
    method ShareTask(t: Task, grantee: UserId, canEdit: bool, canDelete: bool,
                     grantedBy: Option<UserId>, now: int) returns (r: Result<Grant, ShareError>)
      requires Valid() && t in tasks
      modifies this
      ensures Valid()
      ensures tasks == old(tasks) && nextId == old(nextId)
      ensures r.Failure? <==> grantee == t.owner
      ensures r.Failure? ==> grants == old(grants)
      ensures r.Success? ==>
        && grants == Share(old(grants), t, grantee, canEdit, canDelete, grantedBy, now).value
        && (t.id, grantee) in grants && r.value == grants[(t.id, grantee)]
    {
      if grantee == t.owner {
        return Failure(SelfShare);
      }
      ConsistentAfterShare(tasks, grants, nextId, t, grantee, canEdit, canDelete, grantedBy, now);
      var key := (t.id, grantee);
      var granter := Some(grantedBy.GetOr(t.owner));
      var row: Grant;
      if key !in grants {
        row := Grant(true, canEdit, canDelete, now, granter);
      } else {
        row := grants[key];
        row := row.(canView := true);
        row := row.(canEdit := canEdit);
        row := row.(canDelete := canDelete);
        row := row.(grantedBy := granter);
      }
      grants := grants[key := row];
      r := Success(row);
    }
  }
}
