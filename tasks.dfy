/** The task records of the task list and the pure transformations the
    controller applies to the whole list: the `filter` and `map` calls of
    App.jsx, written as functions on sequences, with their properties. */
module Tasks {

  datatype Option<+T> = None | Some(value: T)

  /** One to-do item. `id` is the creation time in milliseconds. */
  datatype Task = Task(id: int, text: string, completed: bool)

  /** The three view selectors of the filter buttons. */
  datatype Filter = All | Completed | Pending

  predicate IsDone(t: Task) { t.completed }

  predicate IsPending(t: Task) { !t.completed }

  /** No two tasks of the list share an id. The source does not enforce this:
      it holds only as long as the clock never hands out the same id twice. */
  ghost predicate UniqueIds(tasks: seq<Task>) {
    forall i, j :: 0 <= i < j < |tasks| ==> tasks[i].id != tasks[j].id
  }

  // ---------------------------------------------------------------------
  // Filtering a list, as JavaScript's Array.prototype.filter does
  // ---------------------------------------------------------------------

  /** `s.filter(keep)`: the elements of `s` that satisfy `keep`, visited from
      left to right. */
  function Where(s: seq<Task>, keep: Task -> bool): (r: seq<Task>)
    ensures |r| <= |s|
    ensures forall x :: x in r <==> x in s && keep(x)
  {
    if s == [] then [] else (if keep(s[0]) then [s[0]] else []) + Where(s[1..], keep)
  }

  /** Filtering drops no occurrence of a kept value and every occurrence of
      the others. */
  lemma {:induction false} WhereCounts(s: seq<Task>, keep: Task -> bool)
    ensures forall x :: multiset(Where(s, keep))[x] == if keep(x) then multiset(s)[x] else 0
  {
    if s != [] {
      WhereCounts(s[1..], keep);
      assert s == [s[0]] + s[1..];
    }
  }

  /** Filtering keeps relative order: it distributes over concatenation. */
  lemma {:induction false} WhereAppend(a: seq<Task>, b: seq<Task>, keep: Task -> bool)
    ensures Where(a + b, keep) == Where(a, keep) + Where(b, keep)
  {
    if a == [] {
      assert a + b == b;
    } else {
      assert (a + b)[1..] == a[1..] + b;
      WhereAppend(a[1..], b, keep);
    }
  }

  /** A filter that every element passes gives back the list itself. */
  lemma {:induction false} WhereKeepsAll(s: seq<Task>, keep: Task -> bool)
    requires forall x :: x in s ==> keep(x)
    ensures Where(s, keep) == s
  {
    if s != [] {
      WhereKeepsAll(s[1..], keep);
    }
  }

  /** Two complementary filters split a list: their lengths add up to its
      length and together they hold each value exactly as often as the list. */
  lemma WhereSplits(s: seq<Task>, keep: Task -> bool, drop: Task -> bool)
    requires forall x :: drop(x) == !keep(x)
    ensures |Where(s, keep)| + |Where(s, drop)| == |s|
    ensures multiset(Where(s, keep)) + multiset(Where(s, drop)) == multiset(s)
  {
    var kept, dropped := Where(s, keep), Where(s, drop);
    WhereCounts(s, keep);
    WhereCounts(s, drop);
    forall x
      ensures (multiset(kept) + multiset(dropped))[x] == multiset(s)[x]
    {
      assert drop(x) == !keep(x);
    }
    assert multiset(kept) + multiset(dropped) == multiset(s);
    assert |multiset(kept) + multiset(dropped)| == |kept| + |dropped|;
  }

  /** A filtered list of tasks with distinct ids still has distinct ids. */
  lemma {:induction false} WhereKeepsIdsUnique(s: seq<Task>, keep: Task -> bool)
    requires UniqueIds(s)
    ensures UniqueIds(Where(s, keep))
  {
    if s != [] {
      WhereKeepsIdsUnique(s[1..], keep);
      var rest := Where(s[1..], keep);
      forall t | t in rest
        ensures t.id != s[0].id
      {
        var j :| 0 <= j < |s[1..]| && s[1..][j] == t;
        assert s[j + 1] == t;
      }
    }
  }

  // ---------------------------------------------------------------------
  // Deleting: keep the tasks whose id differs from the given one
  // ---------------------------------------------------------------------

  /** The list without any task carrying `id`. */
  function RemoveId(tasks: seq<Task>, id: int): (r: seq<Task>)
    ensures |r| <= |tasks|
    ensures forall t :: t in r <==> t in tasks && t.id != id
  {
    Where(tasks, (t: Task) => t.id != id)
  }

  /** Deleting keeps every occurrence of every task with another id. */
  lemma RemoveIdCounts(tasks: seq<Task>, id: int)
    ensures forall t: Task :: t.id != id ==> multiset(RemoveId(tasks, id))[t] == multiset(tasks)[t]
    ensures forall t: Task :: t.id == id ==> multiset(RemoveId(tasks, id))[t] == 0
  {
    WhereCounts(tasks, (t: Task) => t.id != id);
  }

  /** Deleting keeps the other tasks in their original relative order. */
  lemma RemoveIdAppend(a: seq<Task>, b: seq<Task>, id: int)
    ensures RemoveId(a + b, id) == RemoveId(a, id) + RemoveId(b, id)
  {
    WhereAppend(a, b, (t: Task) => t.id != id);
  }

  /** Deleting an id that no task carries leaves the list as it was. */
  lemma RemoveAbsentId(tasks: seq<Task>, id: int)
    requires forall t :: t in tasks ==> t.id != id
    ensures RemoveId(tasks, id) == tasks
  {
    WhereKeepsAll(tasks, (t: Task) => t.id != id);
  }

  /** Deleting the same id a second time changes nothing. */
  lemma RemoveIdTwice(tasks: seq<Task>, id: int)
    ensures RemoveId(RemoveId(tasks, id), id) == RemoveId(tasks, id)
  {
    RemoveAbsentId(RemoveId(tasks, id), id);
  }

  /** Deleting a task just appended under an id no other task carries
      undoes the append. */
  lemma DeleteUndoesAdd(tasks: seq<Task>, id: int, text: string)
    requires forall t :: t in tasks ==> t.id != id
    ensures RemoveId(tasks + [Task(id, text, false)], id) == tasks
  {
    RemoveIdAppend(tasks, [Task(id, text, false)], id);
    RemoveAbsentId(tasks, id);
  }

  // ---------------------------------------------------------------------
  // Submitting in edit mode: new text for the tasks carrying the edit target
  // ---------------------------------------------------------------------

  /** The list in which every task carrying `id` has its text replaced. */
  function Retitled(tasks: seq<Task>, id: int, text: string): (r: seq<Task>)
    ensures |r| == |tasks|
    ensures forall i :: 0 <= i < |r| ==> r[i].id == tasks[i].id && r[i].completed == tasks[i].completed
    ensures forall i :: 0 <= i < |r| ==> r[i].text == if tasks[i].id == id then text else tasks[i].text
    ensures forall i :: 0 <= i < |r| && tasks[i].id != id ==> r[i] == tasks[i]
  {
    if tasks == [] then []
    else
      var t := tasks[0];
      [if t.id == id then t.(text := text) else t] + Retitled(tasks[1..], id, text)
  }

  /** Editing a task twice leaves only the second text. */
  lemma RetitledLastWins(tasks: seq<Task>, id: int, first: string, second: string)
    ensures Retitled(Retitled(tasks, id, first), id, second) == Retitled(tasks, id, second)
  {
    var a := Retitled(Retitled(tasks, id, first), id, second);
    var b := Retitled(tasks, id, second);
    assert forall i :: 0 <= i < |a| ==> a[i] == b[i];
  }

  /** Submitting an edit whose target no longer exists changes no task. */
  lemma RetitledAbsent(tasks: seq<Task>, id: int, text: string)
    requires forall t :: t in tasks ==> t.id != id
    ensures Retitled(tasks, id, text) == tasks
  {
    var r := Retitled(tasks, id, text);
    assert forall i :: 0 <= i < |r| ==> r[i] == tasks[i];
  }

  // ---------------------------------------------------------------------
  // Toggling: flip the completion of the tasks carrying the given id
  // ---------------------------------------------------------------------

  /** The list in which every task carrying `id` has its completion flipped. */
  function Toggled(tasks: seq<Task>, id: int): (r: seq<Task>)
    ensures |r| == |tasks|
    ensures forall i :: 0 <= i < |r| ==> r[i].id == tasks[i].id && r[i].text == tasks[i].text
    ensures forall i :: 0 <= i < |r| ==> (r[i].completed != tasks[i].completed <==> tasks[i].id == id)
  {
    if tasks == [] then []
    else
      var t := tasks[0];
      [if t.id == id then t.(completed := !t.completed) else t] + Toggled(tasks[1..], id)
  }

  /** Toggling the same id twice gives back the original list. */
  lemma ToggledTwice(tasks: seq<Task>, id: int)
    ensures Toggled(Toggled(tasks, id), id) == tasks
  {
    var r := Toggled(Toggled(tasks, id), id);
    assert forall i :: 0 <= i < |r| ==> r[i] == tasks[i];
  }

  /** Toggling an id that no task carries leaves the list as it was. */
  lemma ToggledAbsent(tasks: seq<Task>, id: int)
    requires forall t :: t in tasks ==> t.id != id
    ensures Toggled(tasks, id) == tasks
  {
    var r := Toggled(tasks, id);
    assert forall i :: 0 <= i < |r| ==> r[i] == tasks[i];
  }

  /** Every transformation of the controller keeps ids distinct, provided the
      id given to a new task is not already in use. */
  lemma TransformationsKeepIdsUnique(tasks: seq<Task>, id: int, text: string)
    requires UniqueIds(tasks)
    ensures UniqueIds(Retitled(tasks, id, text))
    ensures UniqueIds(Toggled(tasks, id))
    ensures UniqueIds(RemoveId(tasks, id))
    ensures (forall t :: t in tasks ==> t.id != id) ==> UniqueIds(tasks + [Task(id, text, false)])
  {
    WhereKeepsIdsUnique(tasks, (t: Task) => t.id != id);
  }

  // ---------------------------------------------------------------------
  // The visible rows under the current filter
  // ---------------------------------------------------------------------

  /** The tasks shown under `filter`, in list order. */
  function FilteredTasks(tasks: seq<Task>, filter: Filter): (r: seq<Task>)
    ensures filter == All ==> r == tasks
    ensures filter == Completed ==> forall t :: t in r <==> t in tasks && t.completed
    ensures filter == Pending ==> forall t :: t in r <==> t in tasks && !t.completed
  {
    match filter
    case All => tasks
    case Completed => Where(tasks, IsDone)
    case Pending => Where(tasks, IsPending)
  }

  /** The Completed and Pending views split the list: their lengths add up
      to its length and together they hold every task exactly once per
      occurrence. */
  lemma FilteredSplit(tasks: seq<Task>)
    ensures |FilteredTasks(tasks, Completed)| + |FilteredTasks(tasks, Pending)| == |tasks|
    ensures multiset(FilteredTasks(tasks, Completed)) + multiset(FilteredTasks(tasks, Pending)) == multiset(tasks)
  {
    WhereSplits(tasks, IsDone, IsPending);
  }

  /** Every view keeps list order: the view of a concatenation is the
      concatenation of the views. */
  lemma FilteredAppend(a: seq<Task>, b: seq<Task>, filter: Filter)
    ensures FilteredTasks(a + b, filter) == FilteredTasks(a, filter) + FilteredTasks(b, filter)
  {
    match filter
    case All =>
    case Completed => WhereAppend(a, b, IsDone);
    case Pending => WhereAppend(a, b, IsPending);
  }

  /** Toggling a task whose id no other task shares moves exactly that one
      task between the Completed and the Pending view. */
  lemma {:induction false} ToggleMovesOneTask(tasks: seq<Task>, k: nat)
    requires k < |tasks|
    requires forall j :: 0 <= j < |tasks| && j != k ==> tasks[j].id != tasks[k].id
    ensures var after := Toggled(tasks, tasks[k].id);
      var delta := if tasks[k].completed then -1 else 1;
      |FilteredTasks(after, Completed)| == |FilteredTasks(tasks, Completed)| + delta &&
      |FilteredTasks(after, Pending)| == |FilteredTasks(tasks, Pending)| - delta
  {
    var id, t, rest := tasks[k].id, tasks[0], tasks[1..];
    assert Toggled(tasks, id) == [Toggled(tasks, id)[0]] + Toggled(rest, id);
    if k == 0 {
      forall u | u in rest ensures u.id != id {
        var j :| 0 <= j < |rest| && rest[j] == u;
        assert tasks[j + 1] == u;
      }
      ToggledAbsent(rest, id);
    } else {
      forall j | 0 <= j < |rest| && j != k - 1
        ensures rest[j].id != rest[k - 1].id
      {
        assert rest[j] == tasks[j + 1];
      }
      ToggleMovesOneTask(rest, k - 1);
      assert rest[k - 1] == tasks[k];
    }
    FilteredSplit(tasks);
    FilteredSplit(Toggled(tasks, id));
  }
}
