/**
 * The client's task cache: the reducers of the task slice, which update
 * the cached list of tasks and the `loading` and `error` flags in place.
 */
module TaskSlice {
  import opened Wrappers
  import opened Tasks
  import Seqs

  /** The asynchronous requests whose pending, fulfilled and rejected
      outcomes the slice reacts to. */
  datatype Request = GetTasks | CreateTask | UpdateTask | DeleteTask | ReorderTasks

  class TaskCache {
    var tasks: seq<Task>
    var loading: bool
    var error: Option<string>

    /** The initial state: no tasks, not loading, no error. */
    constructor()
      ensures tasks == [] && !loading && error == None
    {
      tasks := [];
      loading := false;
      error := None;
    }

    method ClearTaskError()
      modifies this
      ensures error == None
      ensures tasks == old(tasks) && loading == old(loading)
    {
      error := None;
    }

    /** `push`: the task goes last, the others stay as they are. */
    method AddTaskOffline(t: Task)
      modifies this
      ensures tasks == old(tasks) + [t]
      ensures loading == old(loading) && error == old(error)
    {
      tasks := tasks + [t];
    }

    /** The fields of the payload are merged into the first task with the
        identifier; without such a task nothing changes. */
    method UpdateTaskOffline(id: Id, patch: Patch)
      modifies this
      ensures FindIndex(old(tasks), id) == -1 ==> tasks == old(tasks)
      ensures FindIndex(old(tasks), id) >= 0 ==>
        tasks == old(tasks)[FindIndex(old(tasks), id) := ApplyPatch(old(tasks)[FindIndex(old(tasks), id)], patch)]
      ensures loading == old(loading) && error == old(error)
    {
      var index := IndexOf(tasks, id);
      if index != -1 {
        tasks := tasks[index := ApplyPatch(tasks[index], patch)];
      }
    }

    /** Every task with the identifier is dropped. */
    method DeleteTaskOffline(id: Id)
      modifies this
      ensures tasks == RemoveId(old(tasks), id)
      ensures loading == old(loading) && error == old(error)
    {
      tasks := RemoveId(tasks, id);
    }

    /** The loop writing every task's position into its `order`. */
    method RenumberInPlace()
      modifies this
      ensures tasks == Renumber(old(tasks))
      ensures loading == old(loading) && error == old(error)
    {
      ghost var before := tasks;
      var index := 0;
      while index < |tasks|
        invariant |tasks| == |before| && 0 <= index <= |tasks|
        invariant forall k :: 0 <= k < |tasks| ==>
          tasks[k] == if k < index then before[k].(order := k) else before[k]
        invariant loading == old(loading) && error == old(error)
      {
        tasks := tasks[index := tasks[index].(order := index)];
        index := index + 1;
      }
      assert tasks == Renumber(before);
    }

    /** The task is taken out and put back in at `newIndex` with the
        position rules of `splice`, and then every task is renumbered to its
        position; an unknown identifier changes nothing. */
    method ReorderTasksOffline(taskId: Id, newIndex: int)
      modifies this
      ensures FindIndex(old(tasks), taskId) == -1 ==> tasks == old(tasks)
      ensures FindIndex(old(tasks), taskId) >= 0 ==>
        tasks == Renumber(Seqs.Move(old(tasks), FindIndex(old(tasks), taskId), newIndex))
      ensures loading == old(loading) && error == old(error)
    {
      var taskIndex := IndexOf(tasks, taskId);
      if taskIndex != -1 {
        ghost var original := tasks;
        var movedTask := tasks[taskIndex];
        tasks := Seqs.RemoveAt(tasks, taskIndex);
        tasks := Seqs.InsertAt(tasks, Seqs.SpliceStart(|tasks|, newIndex), movedTask);
        assert tasks == Seqs.Move(original, taskIndex, newIndex);
        RenumberInPlace();
      }
    }

    /** Any request starting sets `loading`; only the listing clears the
        error as well. */
    method Pending(request: Request)
      modifies this
      ensures loading
      ensures error == if request == GetTasks then None else old(error)
      ensures tasks == old(tasks)
    {
      loading := true;
      if request == GetTasks {
        error := None;
      }
    }

    /** Any request failing stops loading and records the message. */
    method Rejected(request: Request, message: string)
      modifies this
      ensures !loading && error == Some(message)
      ensures tasks == old(tasks)
    {
      loading := false;
      error := Some(message);
    }

    /** The fetched list replaces the cache. */
    method GetTasksFulfilled(fetched: seq<Task>)
      modifies this
      ensures !loading && tasks == fetched && error == old(error)
    {
      loading := false;
      tasks := fetched;
    }

    /** The created task goes last. */
    method CreateTaskFulfilled(created: Task)
      modifies this
      ensures !loading && tasks == old(tasks) + [created] && error == old(error)
    {
      loading := false;
      tasks := tasks + [created];
    }

    /** The returned task replaces, as a whole, the first cached task with
        its identifier; without such a task nothing changes. */
    method UpdateTaskFulfilled(updated: Task)
      modifies this
      ensures !loading && error == old(error)
      ensures FindIndex(old(tasks), updated.id) == -1 ==> tasks == old(tasks)
      ensures FindIndex(old(tasks), updated.id) >= 0 ==>
        tasks == old(tasks)[FindIndex(old(tasks), updated.id) := updated]
    {
      loading := false;
      var index := IndexOf(tasks, updated.id);
      if index != -1 {
        tasks := tasks[index := updated];
      }
    }

    /** Every task with the deleted identifier is dropped. */
    method DeleteTaskFulfilled(id: Id)
      modifies this
      ensures !loading && tasks == RemoveId(old(tasks), id) && error == old(error)
    {
      loading := false;
      tasks := RemoveId(tasks, id);
    }

    /** A confirmed reorder only stops loading: the cached list keeps the
        order it has until the next fetch. */
    method ReorderTasksFulfilled()
      modifies this
      ensures !loading && tasks == old(tasks) && error == old(error)
    {
      loading := false;
    }
  }

  /** What the offline reorder leaves: as many tasks as before, every
      `order` equal to its position, the moved task at the clamped target,
      the same identifiers, and the other tasks in their old relative order. */
  lemma ReorderOfflineShape(s: seq<Task>, from: nat, newIndex: int)
    requires from < |s|
    ensures var r := Renumber(Seqs.Move(s, from, newIndex));
      |r| == |s| &&
      (forall k :: 0 <= k < |r| ==> r[k].order == k) &&
      r[Seqs.MoveTarget(|s|, newIndex)].id == s[from].id &&
      multiset(Ids(r)) == multiset(Ids(s)) &&
      Seqs.RemoveAt(Ids(r), Seqs.MoveTarget(|s|, newIndex)) == Seqs.RemoveAt(Ids(s), from)
  {
    MoveIds(s, from, newIndex);
    Seqs.MoveKeepsOthers(Ids(s), from, newIndex);
  }

  /** Updating by identifier touches one task: every other position keeps
      its task, and the length is kept. */
  lemma UpdateTouchesOne(s: seq<Task>, t: Task)
    requires FindIndex(s, t.id) >= 0
    ensures var r := s[FindIndex(s, t.id) := t];
      |r| == |s| && FindIndex(r, t.id) == FindIndex(s, t.id) &&
      forall k :: 0 <= k < |s| && k != FindIndex(s, t.id) ==> r[k] == s[k]
  {
    var i := FindIndex(s, t.id);
    var r := s[i := t];
    assert r[i].id == t.id;
    var j := FindIndex(r, t.id);
    assert j != -1;
  }

  /** Deleting removes every task with the identifier and keeps the rest
      in order; deleting an unknown identifier changes nothing. */
  lemma DeleteShape(s: seq<Task>, id: Id)
    ensures forall k :: 0 <= k < |RemoveId(s, id)| ==> RemoveId(s, id)[k].id != id
    ensures Seqs.IsSubsequence(RemoveId(s, id), s)
    ensures FindIndex(s, id) == -1 ==> RemoveId(s, id) == s
  {
    RemoveIdKeepsOrder(s, id);
    if FindIndex(s, id) == -1 {
      RemoveAbsentId(s, id);
    }
    forall k | 0 <= k < |RemoveId(s, id)| ensures RemoveId(s, id)[k].id != id {
      assert RemoveId(s, id)[k] in RemoveId(s, id);
    }
  }
}
