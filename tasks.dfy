/**
 * The task record as the server stores it and the client caches it, the
 * partial updates applied to it, and the searches by identifier that both
 * sides perform (`Task.findById` on the server, `findIndex` on the client).
 */
module Tasks {
  import opened Wrappers
  import Seqs

  type Id = string
  type UserId = string

  /** One task. `description` is "" when the task has none; `order` is the
      task's rank within its owner's list. */
  datatype Task = Task(
    id: Id,
    user: UserId,
    title: string,
    description: string,
    completed: bool,
    priority: string,
    category: string,
    dueDate: Option<string>,
    order: int)

  /** The fields an update body (server) or an offline update payload
      (client) supplies; `None` leaves the field as it is. */
  datatype Patch = Patch(
    title: Option<string>,
    description: Option<string>,
    completed: Option<bool>,
    priority: Option<string>,
    category: Option<string>,
    dueDate: Option<Option<string>>,
    order: Option<int>,
    user: Option<UserId>)

  const EmptyPatch := Patch(None, None, None, None, None, None, None, None)

  function Override<T>(current: T, update: Option<T>): T
  {
    if update.Some? then update.value else current
  }

  /** `{ ...task, ...patch }`: the supplied fields win, the identifier is
      never touched. */
  function ApplyPatch(t: Task, p: Patch): (r: Task)
    ensures r.id == t.id
    ensures p.order.None? ==> r.order == t.order
    ensures p.user.None? ==> r.user == t.user
    ensures p.order.Some? ==> r.order == p.order.value
    ensures p.user.Some? ==> r.user == p.user.value
    ensures r.title == (if p.title.Some? then p.title.value else t.title)
    ensures r.description == (if p.description.Some? then p.description.value else t.description)
    ensures r.completed == (if p.completed.Some? then p.completed.value else t.completed)
    ensures r.priority == (if p.priority.Some? then p.priority.value else t.priority)
    ensures r.category == (if p.category.Some? then p.category.value else t.category)
    ensures r.dueDate == (if p.dueDate.Some? then p.dueDate.value else t.dueDate)
  {
    Task(t.id, Override(t.user, p.user), Override(t.title, p.title),
         Override(t.description, p.description), Override(t.completed, p.completed),
         Override(t.priority, p.priority), Override(t.category, p.category),
         Override(t.dueDate, p.dueDate), Override(t.order, p.order))
  }

  /** An update that supplies nothing leaves the task as it is. */
  lemma EmptyPatchIsIdentity(t: Task)
    ensures ApplyPatch(t, EmptyPatch) == t
  {
  }

  /** Applying the same update twice is the same as applying it once. */
  lemma ApplyPatchIdempotent(t: Task, p: Patch)
    ensures ApplyPatch(ApplyPatch(t, p), p) == ApplyPatch(t, p)
  {
  }

  /** Position of the first task with identifier `id`, or -1. */
  function FindIndex(s: seq<Task>, id: Id): (r: int)
    ensures -1 <= r < |s|
    ensures r >= 0 ==> s[r].id == id && forall j :: 0 <= j < r ==> s[j].id != id
    ensures r == -1 <==> forall j :: 0 <= j < |s| ==> s[j].id != id
  {
    if s == [] then -1
    else if s[0].id == id then 0
    else
      var r := FindIndex(s[1..], id);
      if r == -1 then -1 else r + 1
  }

  /** Position of the last task with identifier `id`, or -1. */
  function FindLast(s: seq<Task>, id: Id): (r: int)
    ensures -1 <= r < |s|
    ensures r >= 0 ==> s[r].id == id && forall j :: r < j < |s| ==> s[j].id != id
    ensures r == -1 <==> forall j :: 0 <= j < |s| ==> s[j].id != id
  {
    if s == [] then -1
    else if s[|s| - 1].id == id then |s| - 1
    else FindLast(s[..|s| - 1], id)
  }

  /** Identifiers are unique, as in the document store. */
  ghost predicate UniqueIds(s: seq<Task>)
  {
    forall i, j :: 0 <= i < j < |s| ==> s[i].id != s[j].id
  }

  /** With unique identifiers the first and the last match coincide. */
  lemma FirstIsLast(s: seq<Task>, id: Id)
    requires UniqueIds(s)
    ensures FindIndex(s, id) == FindLast(s, id)
  {
  }

  /** The linear search behind `findIndex` and `findById`. */
  method IndexOf(s: seq<Task>, id: Id) returns (i: int)
    ensures i == FindIndex(s, id)
  {
    i := 0;
    while i < |s| && s[i].id != id
      invariant 0 <= i <= |s|
      invariant forall j :: 0 <= j < i ==> s[j].id != id
    {
      i := i + 1;
    }
    if i == |s| {
      i := -1;
    }
  }

  /** Every task's `order` set to its position, keeping everything else. */
  function Renumber(s: seq<Task>): (r: seq<Task>)
    ensures |r| == |s|
    ensures forall i :: 0 <= i < |s| ==> r[i].order == i
    ensures Ids(r) == Ids(s)
    ensures forall i :: 0 <= i < |s| ==> r[i] == s[i].(order := i)
  {
    seq(|s|, i requires 0 <= i < |s| => s[i].(order := i))
  }

  /** The identifiers of a list of tasks, in list order. */
  function Ids(s: seq<Task>): (r: seq<Id>)
    ensures |r| == |s| && forall i :: 0 <= i < |s| ==> r[i] == s[i].id
  {
    seq(|s|, i requires 0 <= i < |s| => s[i].id)
  }

  /** Moving a task moves its identifier: the identifiers of a moved list
      are the moved identifiers, so a move permutes them. */
  lemma MoveIds(s: seq<Task>, from: nat, to: int)
    requires from < |s|
    ensures Ids(Seqs.Move(s, from, to)) == Seqs.Move(Ids(s), from, to)
    ensures multiset(Ids(Seqs.Move(s, from, to))) == multiset(Ids(s))
  {
    Seqs.MovePermutes(Ids(s), from, to);
  }

  /** `filter(task => task._id !== id)`. */
  function RemoveId(s: seq<Task>, id: Id): (r: seq<Task>)
    ensures forall t :: t in r <==> t in s && t.id != id
    ensures |r| <= |s|
  {
    if s == [] then []
    else if s[0].id == id then RemoveId(s[1..], id)
    else [s[0]] + RemoveId(s[1..], id)
  }

  /** Removing by identifier keeps the other tasks in their order. */
  lemma {:induction false} RemoveIdKeepsOrder(s: seq<Task>, id: Id)
    ensures Seqs.IsSubsequence(RemoveId(s, id), s)
  {
    if s != [] {
      RemoveIdKeepsOrder(s[1..], id);
      if s[0].id != id {
        assert ([s[0]] + RemoveId(s[1..], id))[1..] == RemoveId(s[1..], id);
      } else {
        Seqs.SubsequenceOfTail(RemoveId(s[1..], id), s);
      }
    }
  }

  /** Removing an identifier that no task carries changes nothing. */
  lemma {:induction false} RemoveAbsentId(s: seq<Task>, id: Id)
    requires forall j :: 0 <= j < |s| ==> s[j].id != id
    ensures RemoveId(s, id) == s
  {
    if s != [] {
      RemoveAbsentId(s[1..], id);
    }
  }
}
