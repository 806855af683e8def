/**
 * The server's task handlers: create, read, update, delete and reorder,
 * over an in-memory store of task records. Each owner's tasks carry ranks
 * that are kept dense (exactly 0 .. N-1, no gaps, no duplicates) by
 * create, delete and reorder.
 */
module TaskController {
  import opened Wrappers
  import opened Seqs
  import opened Tasks

  /** What a handler answers: success with a value, 404 or 401. */
  datatype Response<T> = Ok(value: T) | NotFound | NotAuthorized

  /** The body of a create request; the handler overwrites `user` and
      `order` whatever the body says, so they are not part of it. */
  datatype Draft = Draft(
    title: string,
    description: string,
    completed: bool,
    priority: string,
    category: string,
    dueDate: Option<string>)

  // ---------------------------------------------------------------------
  // Per-owner ranks
  // ---------------------------------------------------------------------

  /** Number of tasks owned by `u` (`countDocuments({ user: u })`). */
  function CountOwned(s: seq<Task>, u: UserId): (n: nat)
    ensures n <= |s|
  {
    if s == [] then 0
    else CountOwned(s[..|s| - 1], u) + (if s[|s| - 1].user == u then 1 else 0)
  }

  /** Position of the first task of `u` whose rank is `k`, or -1. */
  function FindRank(s: seq<Task>, u: UserId, k: int): (r: int)
    ensures -1 <= r < |s|
    ensures r >= 0 ==> s[r].user == u && s[r].order == k
    ensures r == -1 <==> forall j :: 0 <= j < |s| ==> !(s[j].user == u && s[j].order == k)
  {
    if s == [] then -1
    else if s[0].user == u && s[0].order == k then 0
    else
      var r := FindRank(s[1..], u, k);
      if r == -1 then -1 else r + 1
  }

  /** Every rank of `u` lies in 0 .. n-1. */
  ghost predicate RanksInRange(s: seq<Task>, u: UserId, n: int)
  {
    forall i :: 0 <= i < |s| && s[i].user == u ==> 0 <= s[i].order < n
  }

  /** No two tasks of `u` share a rank. */
  ghost predicate RanksDistinct(s: seq<Task>, u: UserId)
  {
    forall i, j :: 0 <= i < |s| && 0 <= j < |s| && i != j && s[i].user == u && s[j].user == u
      ==> s[i].order != s[j].order
  }

  /** Every rank 0 .. n-1 is taken by a task of `u`. */
  ghost predicate RanksCovered(s: seq<Task>, u: UserId, n: int)
  {
    forall k :: 0 <= k < n ==> FindRank(s, u, k) >= 0
  }

  /** The ranks of `u`'s tasks are exactly 0 .. N-1 where N is the number
      of tasks `u` owns: every rank is in range, no rank is taken twice and
      no rank is missing. */
  ghost predicate Dense(s: seq<Task>, u: UserId)
  {
    var n := CountOwned(s, u);
    RanksInRange(s, u, n) && RanksDistinct(s, u) && RanksCovered(s, u, n)
  }

  /** The set of ranks of `u`'s tasks. */
  ghost function Ranks(s: seq<Task>, u: UserId): set<int>
  {
    set i | 0 <= i < |s| && s[i].user == u :: s[i].order
  }

  /** Density is the statement "the ranks of `u` form the set {0, ..., N-1}
      and no two tasks share one". */
  lemma DenseRanks(s: seq<Task>, u: UserId)
    requires Dense(s, u)
    ensures forall k :: k in Ranks(s, u) <==> 0 <= k < CountOwned(s, u)
  {
    forall k | 0 <= k < CountOwned(s, u) ensures k in Ranks(s, u) {
      var i := FindRank(s, u, k);
      assert s[i].order in Ranks(s, u);
    }
  }

  lemma {:induction false} CountOwnedAppend(a: seq<Task>, b: seq<Task>, u: UserId)
    ensures CountOwned(a + b, u) == CountOwned(a, u) + CountOwned(b, u)
    decreases |b|
  {
    if b == [] {
      assert a + b == a;
    } else {
      CountOwnedAppend(a, b[..|b| - 1], u);
      assert (a + b)[..|a + b| - 1] == a + b[..|b| - 1];
    }
  }

  lemma CountOwnedRemoveAt(s: seq<Task>, i: nat, u: UserId)
    requires i < |s|
    ensures CountOwned(RemoveAt(s, i), u) == CountOwned(s, u) - (if s[i].user == u then 1 else 0)
  {
    var a, b := s[..i], s[i + 1..];
    assert s == a + [s[i]] + b;
    assert RemoveAt(s, i) == a + b;
    CountOwnedAppend(a + [s[i]], b, u);
    CountOwnedAppend(a, [s[i]], u);
    CountOwnedAppend(a, b, u);
    assert [s[i]][..0] == [];
  }

  lemma {:induction false} CountOwnedSameUsers(s: seq<Task>, r: seq<Task>, u: UserId)
    requires |s| == |r|
    requires forall i :: 0 <= i < |s| ==> s[i].user == r[i].user
    ensures CountOwned(s, u) == CountOwned(r, u)
    decreases |s|
  {
    if s != [] {
      CountOwnedSameUsers(s[..|s| - 1], r[..|r| - 1], u);
    }
  }

  /** The counting loop of `countDocuments({ user: u })`. */
  method CountTasksOf(s: seq<Task>, u: UserId) returns (n: nat)
    ensures n == CountOwned(s, u)
  {
    n := 0;
    var i := 0;
    while i < |s|
      invariant 0 <= i <= |s|
      invariant n == CountOwned(s[..i], u)
    {
      assert s[..i + 1][..i] == s[..i];
      if s[i].user == u {
        n := n + 1;
      }
      i := i + 1;
    }
    assert s[..|s|] == s;
  }

  /** The first `n` entries of `u`'s list sorted by rank. */
  function RankedPrefix(s: seq<Task>, u: UserId, n: nat): (r: seq<Task>)
    ensures |r| <= n
    ensures Dense(s, u) && n <= CountOwned(s, u) ==>
      |r| == n && forall k :: 0 <= k < n ==> FindRank(s, u, k) >= 0 && r[k] == s[FindRank(s, u, k)]
  {
    if n == 0 then []
    else
      var i := FindRank(s, u, n - 1);
      RankedPrefix(s, u, n - 1) + (if i >= 0 then [s[i]] else [])
  }

  /** `Task.find({ user: u }).sort('order')`: `u`'s tasks by ascending rank
      (on a dense store, the task of rank k at position k). */
  function RankedList(s: seq<Task>, u: UserId): (r: seq<Task>)
    ensures Dense(s, u) ==> |r| == CountOwned(s, u)
    ensures Dense(s, u) ==> forall k :: 0 <= k < |r| ==> r[k].user == u && r[k].order == k && r[k] in s
  {
    RankedPrefix(s, u, CountOwned(s, u))
  }

  /** On a dense store every task of `u` sits in the ranked list at the
      position given by its rank. */
  lemma RankedListHolds(s: seq<Task>, u: UserId, i: nat)
    requires Dense(s, u) && i < |s| && s[i].user == u
    ensures 0 <= s[i].order < |RankedList(s, u)| && RankedList(s, u)[s[i].order] == s[i]
  {
    var k := s[i].order;
    var j := FindRank(s, u, k);
    assert RankedList(s, u)[k] == s[j];
    assert j == i;
  }

  // ---------------------------------------------------------------------
  // The state changes the handlers make
  // ---------------------------------------------------------------------

  /** `updateMany({ user: u, order: { $gt: k } }, { $inc: { order: -1 } })`
      applied to one record. */
  function ShiftedDown(t: Task, u: UserId, k: int): Task
  {
    if t.user == u && t.order > k then t.(order := t.order - 1) else t
  }

  function ShiftDown(s: seq<Task>, u: UserId, k: int): (r: seq<Task>)
    ensures |r| == |s|
  {
    seq(|s|, i requires 0 <= i < |s| => ShiftedDown(s[i], u, k))
  }

  /** The store after every task of `m` has been given its position in `m`
      as rank (`findByIdAndUpdate(t._id, { order: index })` for each; when
      an identifier occurs twice, the later write wins). Identifiers and
      owners are kept. */
  function Reassign(s: seq<Task>, m: seq<Task>): (r: seq<Task>)
    ensures |r| == |s|
    ensures forall i :: 0 <= i < |s| ==> r[i].id == s[i].id && r[i].user == s[i].user
  {
    seq(|s|, i requires 0 <= i < |s| =>
      var k := FindLast(m, s[i].id);
      if k >= 0 then s[i].(order := k) else s[i])
  }

  /** The store a reorder of `u`'s task of rank `from` to `newIndex` leaves:
      the ranked list, with that task moved, renumbered. */
  ghost function Reordered(s: seq<Task>, u: UserId, from: nat, newIndex: int): seq<Task>
    requires Dense(s, u) && from < CountOwned(s, u)
  {
    Reassign(s, Move(RankedList(s, u), from, newIndex))
  }

  /** Appending a task of `u` with rank N keeps every owner's ranks dense. */
  lemma CreateKeepsDense(s: seq<Task>, t: Task, v: UserId)
    requires Dense(s, v)
    requires t.order == CountOwned(s, t.user)
    ensures Dense(s + [t], v)
  {
    var s' := s + [t];
    assert s'[..|s'| - 1] == s;
    var n := CountOwned(s, v);
    assert CountOwned(s', v) == n + (if t.user == v then 1 else 0);
    forall k | 0 <= k < CountOwned(s', v) ensures FindRank(s', v, k) >= 0 {
      if k < n {
        var i := FindRank(s, v, k);
        assert s'[i] == s[i];
      } else {
        assert s'[|s|] == t;
      }
    }
  }

  /** The store after `deleteTask` removed the task at position `ti`. */
  function Deleted(s: seq<Task>, ti: nat): (r: seq<Task>)
    requires ti < |s|
    ensures |r| == |s| - 1
  {
    ShiftDown(RemoveAt(s, ti), s[ti].user, s[ti].order)
  }

  /** Position `i` of the shortened store holds the original at
      `i` (before `ti`) or `i + 1` (after it), shifted if it ranked above. */
  lemma DeletedAt(s: seq<Task>, ti: nat, i: nat)
    requires ti < |s| && i < |s| - 1
    ensures Deleted(s, ti)[i] == ShiftedDown(s[if i < ti then i else i + 1], s[ti].user, s[ti].order)
  {
  }

  /** An update never changes an identifier, so they stay unique. */
  lemma PatchKeepsUnique(s: seq<Task>, i: nat, patch: Patch)
    requires i < |s| && UniqueIds(s)
    ensures UniqueIds(s[i := ApplyPatch(s[i], patch)])
  {
  }

  /** An update that touches neither rank nor owner keeps every user's
      ranks dense. */
  lemma PatchKeepsDense(s: seq<Task>, i: nat, patch: Patch, u: UserId)
    requires i < |s| && patch.order.None? && patch.user.None? && Dense(s, u)
    ensures Dense(s[i := ApplyPatch(s[i], patch)], u)
  {
    var t := s[i := ApplyPatch(s[i], patch)];
    CountOwnedSameUsers(s, t, u);
    forall k | 0 <= k < CountOwned(t, u) ensures FindRank(t, u, k) >= 0 {
      var j := FindRank(s, u, k);
      assert t[j].user == u && t[j].order == k;
    }
  }

  /** Deleting a task keeps the identifiers unique. */
  lemma DeletedUnique(s: seq<Task>, ti: nat)
    requires ti < |s| && UniqueIds(s)
    ensures UniqueIds(Deleted(s, ti))
  {
    var d := Deleted(s, ti);
    forall i, j | 0 <= i < j < |d| ensures d[i].id != d[j].id {
      DeletedAt(s, ti, i);
      DeletedAt(s, ti, j);
    }
  }

  lemma DeletedCount(s: seq<Task>, ti: nat, v: UserId)
    requires ti < |s|
    ensures CountOwned(Deleted(s, ti), v) == CountOwned(s, v) - (if s[ti].user == v then 1 else 0)
  {
    CountOwnedRemoveAt(s, ti, v);
    CountOwnedSameUsers(RemoveAt(s, ti), Deleted(s, ti), v);
  }

  lemma DeleteInRange(s: seq<Task>, ti: nat, v: UserId, n: int)
    requires ti < |s| && RanksInRange(s, v, n)
    requires s[ti].user == v ==> RanksDistinct(s, v)
    ensures RanksInRange(Deleted(s, ti), v, if s[ti].user == v then n - 1 else n)
  {
    var s' := Deleted(s, ti);
    forall i | 0 <= i < |s'| && s'[i].user == v
      ensures 0 <= s'[i].order < if s[ti].user == v then n - 1 else n
    {
      var oi := if i < ti then i else i + 1;
      DeletedAt(s, ti, i);
      assert s[ti].user == v ==> s[oi].order != s[ti].order;
    }
  }

  lemma DeleteDistinct(s: seq<Task>, ti: nat, v: UserId)
    requires ti < |s| && RanksDistinct(s, v)
    ensures RanksDistinct(Deleted(s, ti), v)
  {
    var s' := Deleted(s, ti);
    forall i, j | 0 <= i < |s'| && 0 <= j < |s'| && i != j && s'[i].user == v && s'[j].user == v
      ensures s'[i].order != s'[j].order
    {
      var oi := if i < ti then i else i + 1;
      var oj := if j < ti then j else j + 1;
      DeletedAt(s, ti, i);
      DeletedAt(s, ti, j);
      assert s[ti].user == v ==> s[oi].order != s[ti].order && s[oj].order != s[ti].order;
    }
  }

  lemma DeleteCovered(s: seq<Task>, ti: nat, v: UserId, n: int)
    requires ti < |s| && RanksCovered(s, v, n)
    requires s[ti].user == v ==> RanksDistinct(s, v) && 0 <= s[ti].order < n
    ensures RanksCovered(Deleted(s, ti), v, if s[ti].user == v then n - 1 else n)
  {
    var s' := Deleted(s, ti);
    var u, k := s[ti].user, s[ti].order;
    forall r | 0 <= r < (if u == v then n - 1 else n) ensures FindRank(s', v, r) >= 0 {
      var want := if u == v && r >= k then r + 1 else r;
      var oi := FindRank(s, v, want);
      assert oi != ti;
      var i := if oi < ti then oi else oi - 1;
      DeletedAt(s, ti, i);
      assert s'[i].user == v && s'[i].order == r;
    }
  }

  /** Removing the task at position `ti` (of rank k) and decrementing the
      ranks above k of its owner keeps every owner's ranks dense. */
  lemma DeleteKeepsDense(s: seq<Task>, ti: nat, v: UserId)
    requires ti < |s| && Dense(s, s[ti].user) && Dense(s, v)
    ensures Dense(Deleted(s, ti), v)
  {
    DeletedCount(s, ti, v);
    var n := CountOwned(s, v);
    DeleteInRange(s, ti, v, n);
    DeleteDistinct(s, ti, v);
    DeleteCovered(s, ti, v, n);
  }

  /** `m` lists every task of `u` in `s` once, and nothing else. */
  ghost predicate ListsOwned(s: seq<Task>, u: UserId, m: seq<Task>)
  {
    && (forall p :: 0 <= p < |m| ==> m[p].user == u && m[p] in s)
    && (forall p, q :: 0 <= p < q < |m| ==> m[p].id != m[q].id)
    && (forall i :: 0 <= i < |s| && s[i].user == u ==> s[i] in m)
  }

  /** The tasks of the moved ranked list have distinct identifiers. */
  lemma MovedListDistinct(s: seq<Task>, u: UserId, from: nat, newIndex: int, p: nat, q: nat)
    requires UniqueIds(s) && Dense(s, u) && from < CountOwned(s, u)
    requires p < q < CountOwned(s, u)
    ensures Move(RankedList(s, u), from, newIndex)[p].id != Move(RankedList(s, u), from, newIndex)[q].id
  {
    var ranked := RankedList(s, u);
    var m := Move(ranked, from, newIndex);
    var target := MoveTarget(|ranked|, newIndex);
    MoveSourceInjective(|m|, from, target, p, q);
    var a, b := MoveSource(from, target, p), MoveSource(from, target, q);
    var ia, ib := FindRank(s, u, a), FindRank(s, u, b);
    assert m[p] == s[ia] && m[q] == s[ib];
    assert ia != ib;
  }

  /** The moved ranked list lists every task of `u` once. */
  lemma MovedListFacts(s: seq<Task>, u: UserId, from: nat, newIndex: int)
    requires UniqueIds(s) && Dense(s, u) && from < CountOwned(s, u)
    ensures |Move(RankedList(s, u), from, newIndex)| == CountOwned(s, u)
    ensures ListsOwned(s, u, Move(RankedList(s, u), from, newIndex))
  {
    var ranked := RankedList(s, u);
    var m := Move(ranked, from, newIndex);
    forall p, q | 0 <= p < q < |m| ensures m[p].id != m[q].id {
      MovedListDistinct(s, u, from, newIndex, p, q);
    }
    MovePermutes(ranked, from, newIndex);
    forall i | 0 <= i < |s| && s[i].user == u ensures s[i] in m {
      RankedListHolds(s, u, i);
      assert s[i] in multiset(ranked);
    }
    forall p | 0 <= p < |m| ensures m[p].user == u && m[p] in s {
      assert m[p] in multiset(ranked);
    }
  }

  /** The task listed at `p` gets rank `p`. */
  lemma ReassignListed(s: seq<Task>, u: UserId, m: seq<Task>, a: nat, p: nat)
    requires UniqueIds(s) && ListsOwned(s, u, m)
    requires a < |s| && p < |m| && s[a] == m[p]
    ensures Reassign(s, m)[a] == m[p].(order := p)
  {
    assert FindLast(m, s[a].id) == p;
  }

  /** A task of `u` gets the position where `m` lists it. */
  lemma ReassignOwned(s: seq<Task>, u: UserId, m: seq<Task>, i: nat)
    requires UniqueIds(s) && ListsOwned(s, u, m)
    requires i < |s| && s[i].user == u
    ensures 0 <= FindLast(m, s[i].id) < |m|
    ensures Reassign(s, m)[i] == s[i].(order := FindLast(m, s[i].id))
  {
    assert s[i] in m;
  }

  /** Tasks of other owners are left alone. */
  lemma ReassignOthers(s: seq<Task>, u: UserId, m: seq<Task>, i: nat)
    requires UniqueIds(s) && ListsOwned(s, u, m)
    requires i < |s| && s[i].user != u
    ensures Reassign(s, m)[i] == s[i]
  {
  }

  lemma ReassignDense(s: seq<Task>, u: UserId, m: seq<Task>)
    requires UniqueIds(s) && ListsOwned(s, u, m) && |m| == CountOwned(s, u)
    ensures Dense(Reassign(s, m), u)
  {
    var s' := Reassign(s, m);
    var n := |m|;
    CountOwnedSameUsers(s, s', u);
    forall i | 0 <= i < |s'| && s'[i].user == u ensures 0 <= s'[i].order < n {
      ReassignOwned(s, u, m, i);
    }
    forall i, j | 0 <= i < |s'| && 0 <= j < |s'| && i != j && s'[i].user == u && s'[j].user == u
      ensures s'[i].order != s'[j].order
    {
      ReassignOwned(s, u, m, i);
      ReassignOwned(s, u, m, j);
      assert s[i].id != s[j].id;
    }
    forall p | 0 <= p < n ensures FindRank(s', u, p) >= 0 {
      var a :| 0 <= a < |s| && s[a] == m[p];
      ReassignListed(s, u, m, a, p);
      assert s'[a].user == u && s'[a].order == p;
    }
  }

  /** After the reassignment the ranked list of `u` is `m` renumbered. */
  lemma ReassignRanked(s: seq<Task>, u: UserId, m: seq<Task>)
    requires UniqueIds(s) && ListsOwned(s, u, m) && |m| == CountOwned(s, u)
    ensures RankedList(Reassign(s, m), u) == Renumber(m)
  {
    var s' := Reassign(s, m);
    ReassignDense(s, u, m);
    CountOwnedSameUsers(s, s', u);
    var ranked := RankedList(s', u);
    var renumbered := Renumber(m);
    forall p | 0 <= p < |m| ensures ranked[p] == renumbered[p] {
      var a :| 0 <= a < |s| && s[a] == m[p];
      ReassignListed(s, u, m, a, p);
      assert FindRank(s', u, p) == a;
    }
    assert |ranked| == |renumbered|;
  }

  /** Reordering keeps `u`'s ranks dense, leaves every other owner's tasks
      as they are, and gives `u` exactly the moved list renumbered. */
  lemma ReorderKeepsDense(s: seq<Task>, u: UserId, from: nat, newIndex: int)
    requires UniqueIds(s) && Dense(s, u) && from < CountOwned(s, u)
    ensures UniqueIds(Reordered(s, u, from, newIndex))
    ensures Dense(Reordered(s, u, from, newIndex), u)
    ensures forall i :: 0 <= i < |s| && s[i].user != u ==> Reordered(s, u, from, newIndex)[i] == s[i]
    ensures RankedList(Reordered(s, u, from, newIndex), u) == Renumber(Move(RankedList(s, u), from, newIndex))
  {
    var m := Move(RankedList(s, u), from, newIndex);
    MovedListFacts(s, u, from, newIndex);
    ReassignDense(s, u, m);
    ReassignRanked(s, u, m);
    forall i | 0 <= i < |s| && s[i].user != u ensures Reassign(s, m)[i] == s[i] {
      ReassignOthers(s, u, m, i);
    }
  }

  // ---------------------------------------------------------------------
  // The handlers
  // ---------------------------------------------------------------------

  /** The checks every single-task handler makes, in the order it makes
      them: no task with that identifier is 404, a task of another owner is
      401, otherwise the position of the task. */
  method Authorize(s: seq<Task>, caller: UserId, id: Id) returns (r: Response<nat>)
    requires UniqueIds(s)
    ensures r.NotFound? <==> forall j :: 0 <= j < |s| ==> s[j].id != id
    ensures r.NotAuthorized? <==> exists j :: 0 <= j < |s| && s[j].id == id && s[j].user != caller
    ensures r.Ok? ==> r.value == FindIndex(s, id) && s[r.value].id == id && s[r.value].user == caller
  {
    var i := IndexOf(s, id);
    if i < 0 {
      return NotFound;
    }
    if s[i].user != caller {
      return NotAuthorized;
    }
    return Ok(i);
  }

  class TaskStore {
    var tasks: seq<Task>

    ghost predicate Valid()
      reads this
    {
      UniqueIds(tasks)
    }

    constructor ()
      ensures Valid() && tasks == []
    {
      tasks := [];
    }

    /** The per-task updates of a reorder, one after the other: every task
        listed in `m` is given its position in `m` as rank. */
    method SetRanks(m: seq<Task>)
      requires Valid()
      modifies this
      ensures Valid()
      ensures tasks == Reassign(old(tasks), m)
    {
      ghost var before := tasks;
      var j := 0;
      while j < |m|
        invariant 0 <= j <= |m|
        invariant tasks == Reassign(before, m[..j])
      {
        var k := IndexOf(tasks, m[j].id);
        assert m[..j + 1][..j] == m[..j];
        if k >= 0 {
          tasks := tasks[k := tasks[k].(order := j)];
        }
        j := j + 1;
      }
      assert m[..j] == m;
    }

    /** `getTask`: the task, when it exists and belongs to the caller. */
    method GetTask(caller: UserId, id: Id) returns (r: Response<Task>)
      requires Valid()
      ensures r.NotFound? <==> forall j :: 0 <= j < |tasks| ==> tasks[j].id != id
      ensures r.NotAuthorized? <==> exists j :: 0 <= j < |tasks| && tasks[j].id == id && tasks[j].user != caller
      ensures r.Ok? ==> r.value in tasks && r.value.id == id && r.value.user == caller
    {
      var a := Authorize(tasks, caller, id);
      match a
      case NotFound => r := NotFound;
      case NotAuthorized => r := NotAuthorized;
      case Ok(i) => r := Ok(tasks[i]);
    }

    /** `createTask`: the new task belongs to the caller and is appended
        with rank equal to the caller's task count. `newId` is the
        identifier the store assigns. */
    method CreateTask(caller: UserId, draft: Draft, newId: Id) returns (t: Task)
      requires Valid()
      requires forall j :: 0 <= j < |tasks| ==> tasks[j].id != newId
      modifies this
      ensures Valid()
      ensures t == Task(newId, caller, draft.title, draft.description, draft.completed,
                        draft.priority, draft.category, draft.dueDate, CountOwned(old(tasks), caller))
      ensures tasks == old(tasks) + [t]
      ensures forall u :: Dense(old(tasks), u) ==> Dense(tasks, u)
    {
      var count := CountTasksOf(tasks, caller);
      t := Task(newId, caller, draft.title, draft.description, draft.completed,
                draft.priority, draft.category, draft.dueDate, count);
      ghost var before := tasks;
      tasks := tasks + [t];
      forall u | Dense(before, u) ensures Dense(tasks, u) {
        CreateKeepsDense(before, t, u);
      }
    }

    /** `updateTask`: the update body is applied to the caller's task as it
        is; it keeps ranks dense only when it sets neither `order` nor
        `user`. */
    method UpdateTask(caller: UserId, id: Id, patch: Patch) returns (r: Response<Task>)
      requires Valid()
      modifies this
      ensures Valid()
      ensures r.NotFound? <==> forall j :: 0 <= j < |old(tasks)| ==> old(tasks)[j].id != id
      ensures r.NotAuthorized? <==>
        exists j :: 0 <= j < |old(tasks)| && old(tasks)[j].id == id && old(tasks)[j].user != caller
      ensures !r.Ok? ==> tasks == old(tasks)
      ensures r.Ok? ==>
        var i := FindIndex(old(tasks), id);
        r.value == ApplyPatch(old(tasks)[i], patch) && tasks == old(tasks)[i := r.value]
      ensures patch.order.None? && patch.user.None? ==>
        forall u :: Dense(old(tasks), u) ==> Dense(tasks, u)
    {
      var a := Authorize(tasks, caller, id);
      match a
      case NotFound => r := NotFound;
      case NotAuthorized => r := NotAuthorized;
      case Ok(i) =>
        ghost var before := tasks;
        var updated := ApplyPatch(tasks[i], patch);
        tasks := tasks[i := updated];
        r := Ok(updated);
        PatchKeepsUnique(before, i, patch);
        if patch.order.None? && patch.user.None? {
          forall u | Dense(before, u) ensures Dense(tasks, u) {
            PatchKeepsDense(before, i, patch, u);
          }
        }
    }

    /** `deleteTask`: the caller's task is removed and every later rank of
        the caller moves down by one; nobody else's tasks change. */
    method DeleteTask(caller: UserId, id: Id) returns (r: Response<()>)
      requires Valid()
      modifies this
      ensures Valid()
      ensures r.NotFound? <==> forall j :: 0 <= j < |old(tasks)| ==> old(tasks)[j].id != id
      ensures r.NotAuthorized? <==>
        exists j :: 0 <= j < |old(tasks)| && old(tasks)[j].id == id && old(tasks)[j].user != caller
      ensures !r.Ok? ==> tasks == old(tasks)
      ensures r.Ok? ==>
        var i := FindIndex(old(tasks), id);
        tasks == Deleted(old(tasks), i)
      ensures r.Ok? ==> Dense(old(tasks), caller) ==> forall u :: Dense(old(tasks), u) ==> Dense(tasks, u)
    {
      var a := Authorize(tasks, caller, id);
      match a
      case NotFound => r := NotFound;
      case NotAuthorized => r := NotAuthorized;
      case Ok(i) =>
        ghost var before := tasks;
        var rank := tasks[i].order;
        // task.remove()
        tasks := RemoveAt(tasks, i);
        ShiftRanksDown(caller, rank);
        assert tasks == Deleted(before, i);
        DeletedUnique(before, i);
        r := Ok(());
        if Dense(before, caller) {
          forall u | Dense(before, u) ensures Dense(tasks, u) {
            DeleteKeepsDense(before, i, u);
          }
        }
    }

    /** `Task.updateMany({ user, order: { $gt: rank } }, { $inc: { order: -1 } })`:
        every task of `u` ranked above `rank` moves one rank down. */
    method ShiftRanksDown(u: UserId, rank: int)
      modifies this
      ensures tasks == ShiftDown(old(tasks), u, rank)
    {
      ghost var rest := tasks;
      var j := 0;
      while j < |tasks|
        invariant 0 <= j <= |tasks| == |rest|
        invariant forall k :: 0 <= k < j ==> tasks[k] == ShiftedDown(rest[k], u, rank)
        invariant forall k :: j <= k < |tasks| ==> tasks[k] == rest[k]
      {
        if tasks[j].user == u && tasks[j].order > rank {
          tasks := tasks[j := tasks[j].(order := tasks[j].order - 1)];
        }
        j := j + 1;
      }
    }

    /** `reorderTasks`: the caller's task moves from its rank to `newIndex`
        (with the position rules of `splice`) and every task of the caller
        is given its new position as rank. A request naming the task's
        current rank writes nothing. */
    method ReorderTasks(caller: UserId, id: Id, newIndex: int) returns (r: Response<()>)
      requires Valid()
      requires Dense(tasks, caller)
      modifies this
      ensures Valid()
      ensures r.NotFound? <==> forall j :: 0 <= j < |old(tasks)| ==> old(tasks)[j].id != id
      ensures r.NotAuthorized? <==>
        exists j :: 0 <= j < |old(tasks)| && old(tasks)[j].id == id && old(tasks)[j].user != caller
      ensures !r.Ok? ==> tasks == old(tasks)
      ensures r.Ok? ==>
        var from := old(tasks)[FindIndex(old(tasks), id)].order;
        0 <= from < CountOwned(old(tasks), caller) &&
        tasks == if from == newIndex then old(tasks) else Reordered(old(tasks), caller, from, newIndex)
      ensures Dense(tasks, caller)
      ensures forall i :: 0 <= i < |old(tasks)| && old(tasks)[i].user != caller ==> tasks[i] == old(tasks)[i]
    {
      var a := Authorize(tasks, caller, id);
      match a
      case NotFound => r := NotFound;
      case NotAuthorized => r := NotAuthorized;
      case Ok(i) =>
        var task := tasks[i];
        var oldIndex := task.order;
        RankedListHolds(tasks, caller, i);
        if oldIndex != newIndex {
          ghost var before := tasks;
          var ranked := RankedList(tasks, caller);
          ranked := RemoveAt(ranked, oldIndex);
          ranked := InsertAt(ranked, SpliceStart(|ranked|, newIndex), task);
          MoveBySplices(RankedList(before, caller), oldIndex, newIndex);
          SetRanks(ranked);
          ReorderKeepsDense(before, caller, oldIndex, newIndex);
        }
        r := Ok(());
    }
  }
}
