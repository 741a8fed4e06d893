/**
 The task collection view: the status filter, the per-tab counts, what the
 view shows, and the state the component keeps across fetches.
 */
module TaskList {
  import opened Tasks

  /** The tab selected: every task, or one status. */
  datatype Filter = All | Only(status: Status)

  /** The filter's test for one task: "all" keeps every task, a status tab keeps that status only. */
  function Matches(f: Filter, t: Task): (r: bool)
    ensures f.All? ==> r
    ensures f.Only? ==> (r <==> t.status == f.status)
  {
    if f.All? then true else t.status == f.status
  }

  /** The tasks shown under filter `f`: the matching ones, in list order. */
  function FilteredTasks(tasks: seq<Task>, f: Filter): (r: seq<Task>)
    ensures |r| <= |tasks|
    ensures forall i :: 0 <= i < |r| ==> Matches(f, r[i])
  {
    if tasks == [] then []
    else if Matches(f, tasks[0]) then [tasks[0]] + FilteredTasks(tasks[1..], f)
    else FilteredTasks(tasks[1..], f)
  }

  /** `xs` is obtained from `ys` by deleting elements, keeping the order of the rest. */
  predicate IsSubsequence<T(==)>(xs: seq<T>, ys: seq<T>)
    decreases |ys|
  {
    xs == [] ||
    (ys != [] &&
     ((xs[0] == ys[0] && IsSubsequence(xs[1..], ys[1..])) || IsSubsequence(xs, ys[1..])))
  }

  lemma {:induction false} SubsequenceMultiset<T>(xs: seq<T>, ys: seq<T>)
    requires IsSubsequence(xs, ys)
    ensures multiset(xs) <= multiset(ys)
    decreases |ys|
  {
    if xs == [] {
    } else if xs[0] == ys[0] && IsSubsequence(xs[1..], ys[1..]) {
      SubsequenceMultiset(xs[1..], ys[1..]);
      assert xs == [xs[0]] + xs[1..];
      assert ys == [ys[0]] + ys[1..];
    } else {
      SubsequenceMultiset(xs, ys[1..]);
      assert ys == [ys[0]] + ys[1..];
    }
  }

  /** With the "all" tab selected, every task is shown. */
  lemma {:induction false} FilterAllIsIdentity(tasks: seq<Task>)
    ensures FilteredTasks(tasks, All) == tasks
  {
    if tasks != [] {
      FilterAllIsIdentity(tasks[1..]);
      assert tasks == [tasks[0]] + tasks[1..];
    }
  }

  /** The shown tasks keep the list's order: they are a subsequence of it. */
  lemma {:induction false} FilterIsSubsequence(tasks: seq<Task>, f: Filter)
    ensures IsSubsequence(FilteredTasks(tasks, f), tasks)
  {
    if tasks != [] {
      FilterIsSubsequence(tasks[1..], f);
      var r := FilteredTasks(tasks, f);
      if Matches(f, tasks[0]) {
        assert r[0] == tasks[0] && r[1..] == FilteredTasks(tasks[1..], f);
      }
    }
  }

  /** Every matching task is shown as often as it occurs in the list; no other task is shown. */
  lemma {:induction false} FilterKeepsMatching(tasks: seq<Task>, f: Filter, t: Task)
    ensures multiset(FilteredTasks(tasks, f))[t] == if Matches(f, t) then multiset(tasks)[t] else 0
  {
    if tasks != [] {
      FilterKeepsMatching(tasks[1..], f, t);
      assert tasks == [tasks[0]] + tasks[1..];
    }
  }

  /**
   The three facts above determine the shown list: any subsequence of the
   list that holds only matching tasks, and every matching task as often as
   the list does, is the list `FilteredTasks` returns.
   */
  lemma {:induction false} FilterIsUnique(tasks: seq<Task>, f: Filter, r: seq<Task>)
    requires IsSubsequence(r, tasks)
    requires forall i :: 0 <= i < |r| ==> Matches(f, r[i])
    requires forall t :: Matches(f, t) ==> multiset(r)[t] == multiset(tasks)[t]
    ensures r == FilteredTasks(tasks, f)
  {
    if tasks == [] {
    } else {
      var head, rest := tasks[0], tasks[1..];
      assert tasks == [head] + rest;
      if r != [] && r[0] == head && IsSubsequence(r[1..], rest) {
        assert r == [r[0]] + r[1..];
        assert Matches(f, r[0]);
        forall t | Matches(f, t) ensures multiset(r[1..])[t] == multiset(rest)[t] {
          assert multiset(r)[t] == multiset(r[1..])[t] + (if t == head then 1 else 0);
        }
        FilterIsUnique(rest, f, r[1..]);
      } else {
        assert IsSubsequence(r, rest);
        SubsequenceMultiset(r, rest);
        // the head occurs in `r` fewer times than in `tasks`, so it cannot match
        assert multiset(r)[head] <= multiset(rest)[head] < multiset(tasks)[head];
        assert !Matches(f, head);
        forall t | Matches(f, t) ensures multiset(r)[t] == multiset(rest)[t] {
          assert t != head;
        }
        FilterIsUnique(rest, f, r);
      }
    }
  }

  /** The filter shows nothing exactly when no task of the full list matches it. */
  lemma FilterEmptyIffNoneMatch(tasks: seq<Task>, f: Filter)
    ensures FilteredTasks(tasks, f) == [] <==> forall i :: 0 <= i < |tasks| ==> !Matches(f, tasks[i])
  {
    if exists i :: 0 <= i < |tasks| && Matches(f, tasks[i]) {
      var i :| 0 <= i < |tasks| && Matches(f, tasks[i]);
      FilterKeepsMatching(tasks, f, tasks[i]);
      assert tasks[i] in multiset(tasks);
    }
  }

  /** The number on each of the four tabs, always taken from the full list. */
  datatype TabCounts = TabCounts(all: nat, todo: nat, inProgress: nat, done: nat)

  function CountsOf(tasks: seq<Task>): (c: TabCounts)
    ensures c.all == |tasks|
    ensures c.todo + c.inProgress + c.done == c.all
  {
    StatusCountsSumToAll(tasks);
    TabCounts(
      |tasks|,
      |FilteredTasks(tasks, Only(Todo))|,
      |FilteredTasks(tasks, Only(InProgress))|,
      |FilteredTasks(tasks, Only(Done))|)
  }

  /** The number printed on the tab of filter `f`. */
  function TabCount(c: TabCounts, f: Filter): nat {
    match f
    case All => c.all
    case Only(Todo) => c.todo
    case Only(InProgress) => c.inProgress
    case Only(Done) => c.done
  }

  /** The three status counts add up to the "all" count, because every task has exactly one status. */
  lemma {:induction false} StatusCountsSumToAll(tasks: seq<Task>)
    ensures |FilteredTasks(tasks, Only(Todo))| + |FilteredTasks(tasks, Only(InProgress))|
            + |FilteredTasks(tasks, Only(Done))| == |tasks|
  {
    if tasks != [] {
      StatusCountsSumToAll(tasks[1..]);
    }
  }

  /** Each tab's number is the number of cards shown when that tab is selected. */
  lemma TabCountIsShownCount(tasks: seq<Task>, f: Filter)
    ensures TabCount(CountsOf(tasks), f) == |FilteredTasks(tasks, f)|
  {
    if f.All? {
      FilterAllIsIdentity(tasks);
    }
  }

  /** What the collection view renders. */
  datatype TabContent = NoTasksFound | Grid(cards: seq<Task>)
  datatype Screen = LoadingPlaceholder | Tabs(counts: TabCounts, selected: Filter, content: TabContent)

  /**
   The loading placeholder until the first read completes; then the four
   tabs with their counts, the selected tab, and its content.
   */
  function View(tasks: seq<Task>, loading: bool, filter: Filter): (s: Screen)
    ensures s.LoadingPlaceholder? <==> loading
    ensures !loading ==> s.counts == CountsOf(tasks) && s.selected == filter
  {
    if loading then LoadingPlaceholder
    else
      var shown := FilteredTasks(tasks, filter);
      Tabs(CountsOf(tasks), filter, if |shown| == 0 then NoTasksFound else Grid(shown))
  }

  /**
   Once loaded, the view shows "No tasks found" exactly when no task of the
   full list matches the filter, and otherwise a grid of the matching tasks
   in list order.
   */
  lemma ViewContent(tasks: seq<Task>, filter: Filter)
    ensures View(tasks, false, filter).content == NoTasksFound
            <==> forall i :: 0 <= i < |tasks| ==> !Matches(filter, tasks[i])
    ensures View(tasks, false, filter).content.Grid? ==>
              View(tasks, false, filter).content.cards == FilteredTasks(tasks, filter)
    ensures View(tasks, false, filter).content.Grid? ==>
              IsSubsequence(View(tasks, false, filter).content.cards, tasks)
  {
    FilterEmptyIffNoneMatch(tasks, filter);
    FilterIsSubsequence(tasks, filter);
  }

  /** The counts depend on the list alone: two views of one list under any two filters agree on them. */
  lemma CountsIgnoreFilter(tasks: seq<Task>, f: Filter, g: Filter)
    ensures View(tasks, false, f).counts == View(tasks, false, g).counts
  {
  }

  /** The store's reply to the read of all tasks; `data` may be null. */
  datatype FetchResult = Fetched(data: Option<seq<Task>>) | FetchFailed

  /** The state of one task collection view. */
  class TaskListState {
    const userId: Id
    const isAdmin: bool
    var tasks: seq<Task>
    var loading: bool
    var filter: Filter

    /** Mounting: no tasks yet, the loading placeholder, the "all" tab. */
    constructor (userId: Id, isAdmin: bool)
      ensures this.userId == userId && this.isAdmin == isAdmin
      ensures tasks == [] && loading && filter == All
    {
      this.userId := userId;
      this.isAdmin := isAdmin;
      tasks := [];
      loading := true;
      filter := All;
    }

    function Counts(): TabCounts
      reads this
    {
      CountsOf(tasks)
    }

    function CurrentScreen(): Screen
      reads this
    {
      View(tasks, loading, filter)
    }

    /**
     Completing a read of all tasks, on mount, on a change of viewer, or
     after a child reports a mutation: a reply replaces the list (null as
     the empty list), a failure keeps it, and loading ends either way.
     */
    method FetchTasks(response: FetchResult)
      modifies this
      ensures response.Fetched? && response.data.Some? ==> tasks == response.data.value
      ensures response.Fetched? && response.data.None? ==> tasks == []
      ensures response.FetchFailed? ==> tasks == old(tasks)
      ensures !loading && filter == old(filter)
    {
      match response {
        case Fetched(data) =>
          tasks := if data.Some? then data.value else [];
        case FetchFailed =>
      }
      loading := false;
    }

    /** Selecting a tab: a local change of `filter` only; the list and the counts stay as they are. */
    method SetFilter(f: Filter)
      modifies this
      ensures filter == f
      ensures tasks == old(tasks) && loading == old(loading)
      ensures Counts() == old(Counts())
    {
      filter := f;
    }
  }
}
