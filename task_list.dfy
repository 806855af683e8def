/**
 * The drag-and-drop list: which drops ask for a reorder, which tasks can
 * be dragged, and how the drop position, taken in the visible (filtered)
 * list, relates to the rank the server moves the task to.
 */
module TaskList {
  import opened Wrappers
  import opened Tasks
  import opened UseTasks
  import FilterBar
  import Text

  /** The outcome of one drag: the dragged task, where it started, and
      where it was dropped (`None` outside the list). */
  datatype DragResult = DragResult(draggableId: Id, source: nat, destination: Option<nat>)

  /** The reorder request a drop sends: the task and its new index. */
  datatype ReorderRequest = ReorderRequest(taskId: Id, newIndex: nat)

  function HandleDragEnd(d: DragResult): (r: Option<ReorderRequest>)
    ensures d.destination.None? ==> r.None?
    ensures d.destination.Some? && d.destination.value == d.source ==> r.None?
    ensures d.destination.Some? && d.destination.value != d.source ==>
      r == Some(ReorderRequest(d.draggableId, d.destination.value))
  {
    if d.destination.None? then None
    else if d.destination.value == d.source then None
    else Some(ReorderRequest(d.draggableId, d.destination.value))
  }

  /** Exactly the drops that land somewhere new send a request. */
  lemma DragEndSendsIffMoved(d: DragResult)
    ensures HandleDragEnd(d).Some? <==> d.destination.Some? && d.destination.value != d.source
  {
  }

  /** Completed tasks cannot be dragged. */
  function IsDragDisabled(t: Task): (disabled: bool)
    ensures disabled <==> t.completed
  {
    t.completed
  }

  /** The cached list in server order: every task's position is its rank. */
  predicate RankOrdered(s: seq<Task>)
  {
    forall k :: 0 <= k < |s| ==> s[k].order == k
  }

  /** Without an active filter, the index of a drop is the rank the server
      gives the task: the visible list is the ranked list itself. */
  lemma DropIndexIsRankWithoutFilters(s: seq<Task>, f: Filters)
    requires RankOrdered(s) && !FilterBar.HasActiveFilters(f)
    ensures RankOrdered(FilteredTasks(s, f))
  {
    FilterBar.InactiveShowsAll(s, f);
  }

  /** With a filter active the two part: one completed task ahead of two
      active ones, "active" selected, and the first visible task dropped one
      place down. The request asks for index 1, which is already the task's
      rank `b.order`. That the server then writes nothing is not stated
      here: it is the `from == newIndex` case of the postcondition of
      `TaskController.TaskStore.ReorderTasks`, which leaves `tasks` as it
      was. */
  lemma FilteredDropIsLost()
    ensures
      var a := Task("a", "u", "A", "", true, "medium", "other", None, 0);
      var b := Task("b", "u", "B", "", false, "medium", "other", None, 1);
      var c := Task("c", "u", "C", "", false, "medium", "other", None, 2);
      var f := InitialFilters.(status := "active");
      RankOrdered([a, b, c]) &&
      FilteredTasks([a, b, c], f) == [b, c] &&
      HandleDragEnd(DragResult("b", 0, Some(1))) == Some(ReorderRequest("b", 1)) &&
      b.order == 1 &&
      !RankOrdered(FilteredTasks([a, b, c], f))
  {
    var a := Task("a", "u", "A", "", true, "medium", "other", None, 0);
    var b := Task("b", "u", "B", "", false, "medium", "other", None, 1);
    var c := Task("c", "u", "C", "", false, "medium", "other", None, 2);
    var f := InitialFilters.(status := "active");
    Text.ContainsEmpty(Text.Lower("B"));
    Text.ContainsEmpty(Text.Lower("C"));
    assert Matches(f, b) && Matches(f, c) && !Matches(f, a);
    var p := Visible(f);
    assert [a, b, c][1..] == [b, c] && [b, c][1..] == [c] && [c][1..] == [];
    assert Keep([c], p) == [c];
    assert Keep([b, c], p) == [b] + Keep([c], p);
    assert Keep([a, b, c], p) == Keep([b, c], p);
  }
}
