/**
 * The client's view of the task list: the filter record and the
 * predicate that keeps a task, the replace-some-keys and reset updates
 * of the filter record, and the statistics over the whole list.
 */
module UseTasks {
  import opened Wrappers
  import opened Tasks
  import Seqs
  import Text

  /** The filter record. */
  datatype Filters = Filters(status: string, category: string, priority: string, search: string)

  const InitialFilters := Filters("all", "all", "all", "")

  /** The keys a call of `updateFilters` supplies. */
  datatype FilterUpdate = FilterUpdate(status: Option<string>, category: Option<string>,
                                       priority: Option<string>, search: Option<string>)

  /** `{ ...filters, ...update }`. */
  function UpdateFilters(f: Filters, u: FilterUpdate): (r: Filters)
    ensures r.status == (if u.status.Some? then u.status.value else f.status)
    ensures r.category == (if u.category.Some? then u.category.value else f.category)
    ensures r.priority == (if u.priority.Some? then u.priority.value else f.priority)
    ensures r.search == (if u.search.Some? then u.search.value else f.search)
  {
    Filters(Override(f.status, u.status), Override(f.category, u.category),
            Override(f.priority, u.priority), Override(f.search, u.search))
  }

  function ResetFilters(): (r: Filters)
    ensures r == InitialFilters
  {
    Filters("all", "all", "all", "")
  }

  /** An update supplying no key changes nothing, and supplying the same
      keys again changes nothing more. */
  lemma UpdateFiltersLaws(f: Filters, u: FilterUpdate)
    ensures UpdateFilters(f, FilterUpdate(None, None, None, None)) == f
    ensures UpdateFilters(UpdateFilters(f, u), u) == UpdateFilters(f, u)
  {
  }

  // ---------------------------------------------------------------------
  // The predicate of the filtered list
  // ---------------------------------------------------------------------

  predicate MatchesStatus(status: string, t: Task)
  {
    status == "all" || (status == "completed" && t.completed) || (status == "active" && !t.completed)
  }

  predicate MatchesCategory(category: string, t: Task)
  {
    category == "all" || t.category == category
  }

  predicate MatchesPriority(priority: string, t: Task)
  {
    priority == "all" || t.priority == priority
  }

  /** Case-insensitive search in the title, or in a non-empty description. */
  predicate MatchesSearch(search: string, t: Task)
  {
    Text.Contains(Text.Lower(t.title), Text.Lower(search)) ||
    (t.description != "" && Text.Contains(Text.Lower(t.description), Text.Lower(search)))
  }

  predicate Matches(f: Filters, t: Task)
  {
    MatchesStatus(f.status, t) && MatchesCategory(f.category, t) &&
    MatchesPriority(f.priority, t) && MatchesSearch(f.search, t)
  }

  /** `Array.prototype.filter` over tasks. */
  function Keep(s: seq<Task>, p: Task -> bool): (r: seq<Task>)
    ensures |r| <= |s|
    ensures forall t :: t in r <==> t in s && p(t)
  {
    if s == [] then []
    else if p(s[0]) then [s[0]] + Keep(s[1..], p)
    else Keep(s[1..], p)
  }

  /** Keeping is order-preserving. */
  lemma {:induction false} KeepIsSubsequence(s: seq<Task>, p: Task -> bool)
    ensures Seqs.IsSubsequence(Keep(s, p), s)
  {
    if s != [] {
      KeepIsSubsequence(s[1..], p);
      if p(s[0]) {
        assert ([s[0]] + Keep(s[1..], p))[1..] == Keep(s[1..], p);
      } else {
        Seqs.SubsequenceOfTail(Keep(s[1..], p), s);
      }
    }
  }

  /** A predicate that holds of every task keeps the whole list. */
  lemma {:induction false} KeepAll(s: seq<Task>, p: Task -> bool)
    requires forall k :: 0 <= k < |s| ==> p(s[k])
    ensures Keep(s, p) == s
  {
    if s != [] {
      KeepAll(s[1..], p);
    }
  }

  /** Keeping distributes over concatenation. */
  lemma {:induction false} KeepAppend(a: seq<Task>, b: seq<Task>, p: Task -> bool)
    ensures Keep(a + b, p) == Keep(a, p) + Keep(b, p)
  {
    if a != [] {
      assert (a + b)[1..] == a[1..] + b;
      KeepAppend(a[1..], b, p);
    } else {
      assert a + b == b;
    }
  }

  function Visible(f: Filters): Task -> bool
  {
    (t: Task) => Matches(f, t)
  }

  /** The visible tasks. */
  function FilteredTasks(s: seq<Task>, f: Filters): seq<Task>
  {
    Keep(s, Visible(f))
  }

  /** A task is visible exactly when it is in the list and passes all four
      tests, and the visible tasks are in list order. */
  lemma FilteredTasksMeaning(s: seq<Task>, f: Filters)
    ensures forall t :: t in FilteredTasks(s, f) <==>
      t in s && MatchesStatus(f.status, t) && MatchesCategory(f.category, t) &&
      MatchesPriority(f.priority, t) && MatchesSearch(f.search, t)
    ensures Seqs.IsSubsequence(FilteredTasks(s, f), s)
  {
    KeepIsSubsequence(s, Visible(f));
  }

  /** The status test: "all" keeps every task, "completed" the completed
      ones, "active" the others, and any other value none. */
  lemma StatusMeaning(status: string, t: Task)
    ensures status == "all" ==> MatchesStatus(status, t)
    ensures status == "completed" ==> (MatchesStatus(status, t) <==> t.completed)
    ensures status == "active" ==> (MatchesStatus(status, t) <==> !t.completed)
    ensures status !in {"all", "completed", "active"} ==> !MatchesStatus(status, t)
  {
  }

  /** An empty search matches every task. */
  lemma EmptySearchMatches(t: Task)
    ensures MatchesSearch("", t)
  {
    Text.ContainsEmpty(Text.Lower(t.title));
  }

  /** The initial filters keep every task, in place. */
  lemma InitialFiltersKeepAll(s: seq<Task>)
    ensures FilteredTasks(s, InitialFilters) == s
  {
    forall k | 0 <= k < |s| ensures Matches(InitialFilters, s[k]) {
      EmptySearchMatches(s[k]);
    }
    KeepAll(s, Visible(InitialFilters));
  }

  // ---------------------------------------------------------------------
  // Statistics
  // ---------------------------------------------------------------------

  datatype PriorityCounts = PriorityCounts(high: nat, medium: nat, low: nat)
  datatype CategoryCounts = CategoryCounts(work: nat, personal: nat, shopping: nat, health: nat, other: nat)
  datatype Stats = Stats(total: nat, completed: nat, active: int, completionRate: int,
                         priorityCounts: PriorityCounts, categoryCounts: CategoryCounts)

  function Count(s: seq<Task>, p: Task -> bool): nat
  {
    |Keep(s, p)|
  }

  function Not(p: Task -> bool): Task -> bool
  {
    (t: Task) => !p(t)
  }

  function IsCompleted(t: Task): bool
  {
    t.completed
  }

  function WithPriority(priority: string): Task -> bool
  {
    (t: Task) => t.priority == priority
  }

  function InCategory(category: string): Task -> bool
  {
    (t: Task) => t.category == category
  }

  /** The tasks with and without a property together make up the list. */
  lemma {:induction false} CountSplit(s: seq<Task>, p: Task -> bool)
    ensures Count(s, p) + Count(s, Not(p)) == |s|
  {
    if s != [] {
      CountSplit(s[1..], p);
    }
  }

  /** Counting is additive over concatenation. */
  lemma CountAppend(a: seq<Task>, b: seq<Task>, p: Task -> bool)
    ensures Count(a + b, p) == Count(a, p) + Count(b, p)
  {
    KeepAppend(a, b, p);
  }

  /**
   * The statistics of the whole (unfiltered) list. `roundedPercent` is the
   * floating-point `Math.round((completed / total) * 100)`, computed
   * outside the model; it is used only when there is a task.
   */
  function TaskStats(s: seq<Task>, roundedPercent: int): (r: Stats)
    ensures r.total == |s|
    ensures r.active == r.total - r.completed && r.active == Count(s, Not(IsCompleted))
    ensures r.total == 0 ==> r.completionRate == 0 && r.completed == 0
    ensures r.total > 0 ==> r.completionRate == roundedPercent
    ensures s == [] ==> r.priorityCounts == PriorityCounts(0, 0, 0)
    ensures s == [] ==> r.categoryCounts == CategoryCounts(0, 0, 0, 0, 0)
  {
    CountSplit(s, IsCompleted);
    var completed := Count(s, IsCompleted);
    Stats(|s|, completed, |s| - completed,
          if |s| > 0 then roundedPercent else 0,
          PriorityCounts(Count(s, WithPriority("high")), Count(s, WithPriority("medium")),
                         Count(s, WithPriority("low"))),
          CategoryCounts(Count(s, InCategory("work")), Count(s, InCategory("personal")),
                         Count(s, InCategory("shopping")), Count(s, InCategory("health")),
                         Count(s, InCategory("other"))))
  }

  /** Every count is the number of tasks with exactly that value: the
      count grows by one with a task carrying it and not at all otherwise. */
  lemma CountsByValue(s: seq<Task>, t: Task, roundedPercent: int)
    ensures var before, after := TaskStats(s, roundedPercent), TaskStats(s + [t], roundedPercent);
      after.priorityCounts.high == before.priorityCounts.high + (if t.priority == "high" then 1 else 0) &&
      after.priorityCounts.medium == before.priorityCounts.medium + (if t.priority == "medium" then 1 else 0) &&
      after.priorityCounts.low == before.priorityCounts.low + (if t.priority == "low" then 1 else 0)
    ensures var before, after := TaskStats(s, roundedPercent), TaskStats(s + [t], roundedPercent);
      after.categoryCounts.work == before.categoryCounts.work + (if t.category == "work" then 1 else 0) &&
      after.categoryCounts.personal == before.categoryCounts.personal + (if t.category == "personal" then 1 else 0) &&
      after.categoryCounts.shopping == before.categoryCounts.shopping + (if t.category == "shopping" then 1 else 0) &&
      after.categoryCounts.health == before.categoryCounts.health + (if t.category == "health" then 1 else 0) &&
      after.categoryCounts.other == before.categoryCounts.other + (if t.category == "other" then 1 else 0)
    ensures TaskStats(s + [t], roundedPercent).completed ==
            TaskStats(s, roundedPercent).completed + (if t.completed then 1 else 0)
  {
    CountAppend(s, [t], WithPriority("high"));
    CountAppend(s, [t], WithPriority("medium"));
    CountAppend(s, [t], WithPriority("low"));
    CountAppend(s, [t], InCategory("work"));
    CountAppend(s, [t], InCategory("personal"));
    CountAppend(s, [t], InCategory("shopping"));
    CountAppend(s, [t], InCategory("health"));
    CountAppend(s, [t], InCategory("other"));
    CountAppend(s, [t], IsCompleted);
  }

  /** When every priority is one of the three, the three counts add up to
      the total; likewise for the five categories. */
  lemma CountsPartition(s: seq<Task>)
    requires forall k :: 0 <= k < |s| ==> s[k].priority in {"high", "medium", "low"}
    requires forall k :: 0 <= k < |s| ==>
      s[k].category in {"work", "personal", "shopping", "health", "other"}
    ensures var c := TaskStats(s, 0).priorityCounts; c.high + c.medium + c.low == |s|
    ensures var c := TaskStats(s, 0).categoryCounts;
      c.work + c.personal + c.shopping + c.health + c.other == |s|
  {
    PriorityPartition(s);
    CategoryPartition(s);
  }

  lemma {:induction false} PriorityPartition(s: seq<Task>)
    requires forall k :: 0 <= k < |s| ==> s[k].priority in {"high", "medium", "low"}
    ensures Count(s, WithPriority("high")) + Count(s, WithPriority("medium")) +
            Count(s, WithPriority("low")) == |s|
  {
    if s != [] {
      PriorityPartition(s[1..]);
    }
  }

  lemma {:induction false} CategoryPartition(s: seq<Task>)
    requires forall k :: 0 <= k < |s| ==>
      s[k].category in {"work", "personal", "shopping", "health", "other"}
    ensures Count(s, InCategory("work")) + Count(s, InCategory("personal")) +
            Count(s, InCategory("shopping")) + Count(s, InCategory("health")) +
            Count(s, InCategory("other")) == |s|
  {
    if s != [] {
      CategoryPartition(s[1..]);
    }
  }
}
