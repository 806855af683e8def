/**
 * The filter bar: whether any filter is active (which shows the "Active"
 * badge and the Clear button), the count label, and the single-key update
 * each control sends.
 */
module FilterBar {
  import opened Wrappers
  import opened UseTasks

  /** Some filter differs from its default; a non-empty search is truthy. */
  predicate HasActiveFilters(f: Filters)
  {
    f.status != "all" || f.category != "all" || f.priority != "all" || f.search != ""
  }

  /** No filter is active exactly when the record is the initial one. */
  lemma InactiveIsInitial(f: Filters)
    ensures !HasActiveFilters(f) <==> f == InitialFilters
  {
  }

  /** Without an active filter every task is shown, in list order. */
  lemma InactiveShowsAll(s: seq<Tasks.Task>, f: Filters)
    requires !HasActiveFilters(f)
    ensures FilteredTasks(s, f) == s
  {
    InitialFiltersKeepAll(s);
  }

  /** Whether the "Active" badge and the Clear button are rendered: both
      are guarded by the same condition. */
  function ShowsActiveControls(f: Filters): (shown: bool)
    ensures shown <==> f != InitialFilters
  {
    HasActiveFilters(f)
  }

  /** After a Clear no filter is active. */
  lemma ClearDeactivates()
    ensures !HasActiveFilters(ResetFilters())
  {
  }

  /** "task" for exactly one, "tasks" for every other count. */
  function CountNoun(taskCount: int): (noun: string)
    ensures noun == "task" <==> taskCount == 1
    ensures noun == "task" || noun == "tasks"
  {
    if taskCount == 1 then "task" else "tasks"
  }

  /** The controls: each sends its own key only. */
  datatype Control = Search | Status | Category | Priority

  function ControlUpdate(c: Control, value: string): (u: FilterUpdate)
    ensures (u.search.Some? <==> c == Search) && (u.status.Some? <==> c == Status)
    ensures (u.category.Some? <==> c == Category) && (u.priority.Some? <==> c == Priority)
  {
    match c
    case Search => FilterUpdate(None, None, None, Some(value))
    case Status => FilterUpdate(Some(value), None, None, None)
    case Category => FilterUpdate(None, Some(value), None, None)
    case Priority => FilterUpdate(None, None, Some(value), None)
  }

  /** A control changes its own field to the chosen value and no other. */
  lemma ControlChangesOwnField(f: Filters, c: Control, value: string)
    ensures UpdateFilters(f, ControlUpdate(c, value)) ==
      match c
      case Search => f.(search := value)
      case Status => f.(status := value)
      case Category => f.(category := value)
      case Priority => f.(priority := value)
  {
  }
}
