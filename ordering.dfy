/**
 * The orderings `order_by` uses on tasks: one per whitelisted sort field, ascending or
 * descending. Strings compare code point by code point; a missing completion time sorts
 * before every present one.
 */
module Ordering {
  import opened Wrappers
  import opened Seqs
  import opened Domain

  /** Lexicographic order on strings. */
  predicate StrLe(a: string, b: string) {
    if a == [] then true
    else if b == [] then false
    else if a[0] != b[0] then a[0] < b[0]
    else StrLe(a[1..], b[1..])
  }

  lemma {:induction false} StrLeTotal(a: string, b: string)
    ensures StrLe(a, b) || StrLe(b, a)
  {
    if a != [] && b != [] && a[0] == b[0] {
      StrLeTotal(a[1..], b[1..]);
    }
  }

  lemma {:induction false} StrLeTransitive(a: string, b: string, c: string)
    requires StrLe(a, b) && StrLe(b, c)
    ensures StrLe(a, c)
  {
    if a != [] && b != [] && c != [] && a[0] == b[0] && b[0] == c[0] {
      StrLeTransitive(a[1..], b[1..], c[1..]);
    }
  }

  /** A nullable timestamp: NULL first, then by time. */
  predicate OptLe(a: Option<int>, b: Option<int>) {
    a.None? || (b.Some? && a.value <= b.value)
  }

  /** The whitelisted `sort` values. */
  datatype SortField = Title | OwnerName | Created | DateCompleted | Importance

  /** `sort_by in valid_sort_fields`, giving the field it names. */
  function ParseSortField(s: string): (r: Option<SortField>)
    ensures r.Some? <==> s in ["title", "user__username", "created", "datecompleted", "important"]
    ensures r == Some(Title) <==> s == "title"
    ensures r == Some(OwnerName) <==> s == "user__username"
    ensures r == Some(Created) <==> s == "created"
    ensures r == Some(DateCompleted) <==> s == "datecompleted"
    ensures r == Some(Importance) <==> s == "important"
  {
    if s == "title" then Some(Title)
    else if s == "user__username" then Some(OwnerName)
    else if s == "created" then Some(Created)
    else if s == "datecompleted" then Some(DateCompleted)
    else if s == "important" then Some(Importance)
    else None
  }

  /** The owner's username (`user__username`), from the user table `names`. */
  function UsernameOf(names: map<UserId, string>, t: Task): string {
    if t.owner in names then names[t.owner] else ""
  }

  /** Ascending order on field `f`. */
  predicate KeyLe(f: SortField, names: map<UserId, string>, a: Task, b: Task) {
    match f
    case Title => StrLe(a.title, b.title)
    case OwnerName => StrLe(UsernameOf(names, a), UsernameOf(names, b))
    case Created => a.created <= b.created
    case DateCompleted => OptLe(a.datecompleted, b.datecompleted)
    case Importance => !a.important || b.important
  }

  /** `order_by('f')` when `ascending`, `order_by('-f')` otherwise. */
  function OrderBy(f: SortField, names: map<UserId, string>, ascending: bool): (Task, Task) -> bool {
    var up := (a: Task, b: Task) => KeyLe(f, names, a, b);
    if ascending then up else Flip(up)
  }

  lemma KeyLeTotalPreorder(f: SortField, names: map<UserId, string>)
    ensures TotalPreorder((a: Task, b: Task) => KeyLe(f, names, a, b))
  {
    forall a: Task, b: Task ensures KeyLe(f, names, a, b) || KeyLe(f, names, b, a) {
      if f == Title {
        StrLeTotal(a.title, b.title);
      } else if f == OwnerName {
        StrLeTotal(UsernameOf(names, a), UsernameOf(names, b));
      }
    }
    forall a: Task, b: Task, c: Task | KeyLe(f, names, a, b) && KeyLe(f, names, b, c)
      ensures KeyLe(f, names, a, c)
    {
      if f == Title {
        StrLeTransitive(a.title, b.title, c.title);
      } else if f == OwnerName {
        StrLeTransitive(UsernameOf(names, a), UsernameOf(names, b), UsernameOf(names, c));
      }
    }
  }

  lemma OrderByTotalPreorder(f: SortField, names: map<UserId, string>, ascending: bool)
    ensures TotalPreorder(OrderBy(f, names, ascending))
  {
    KeyLeTotalPreorder(f, names);
    if !ascending {
      FlipTotalPreorder((a: Task, b: Task) => KeyLe(f, names, a, b));
    }
  }

  /** Sorting by a field with the given direction; any order among equal keys may come out. */
  function OrderTasks(ts: seq<Task>, f: SortField, names: map<UserId, string>, ascending: bool): (r: seq<Task>)
    ensures multiset(r) == multiset(ts)
    ensures forall t :: t in r <==> t in ts
    ensures DistinctIds(ts) ==> DistinctIds(r)
    ensures forall i, j :: 0 <= i < j < |r| ==>
      if ascending then KeyLe(f, names, r[i], r[j]) else KeyLe(f, names, r[j], r[i])
  {
    var le := OrderBy(f, names, ascending);
    OrderByTotalPreorder(f, names, ascending);
    var r := Sort(ts, le);
    forall t ensures t in r <==> t in ts {
      SortMembers(ts, le, t);
    }
    SortDistinctIds(ts, le);
    r
  }
}
