/** The `App` component's state and its event handlers. The component holds
    four pieces of state: the task list, the text of the input field, the
    id of the task being edited and the view filter. Each handler replaces
    some of them. */
module App {
  import opened JsText
  import opened Tasks

  /** JavaScript truthiness of the edit target: `null` and the number 0 are
      falsy, every other id is truthy. */
  predicate IsTruthy(editId: Option<int>) {
    editId.Some? && editId.value != 0
  }

  class TaskApp {
    var tasks: seq<Task>
    /** The draft: the text of the input field. */
    var newTask: string
    var editId: Option<int>
    var filter: Filter

    /** The initial state; `saved` is the list read back from storage. */
    constructor (saved: seq<Task>)
      ensures tasks == saved && newTask == [] && editId == None && filter == All
    {
      tasks, newTask, editId, filter := saved, [], None, All;
    }

    /** Typing into the input field. */
    method SetNewTask(text: string)
      modifies this
      ensures newTask == text
      ensures tasks == old(tasks) && editId == old(editId) && filter == old(filter)
    {
      newTask := text;
    }

    /** Pressing one of the filter buttons. */
    method SetFilter(f: Filter)
      modifies this
      ensures filter == f
      ensures tasks == old(tasks) && newTask == old(newTask) && editId == old(editId)
    {
      filter := f;
    }

    /** Pressing Add or Update. `now` is the clock reading that becomes the
        id of a new task. A blank draft changes nothing. Otherwise, with a
        truthy edit target the matching tasks take the draft as their text
        and the target is cleared; without one the draft is appended as a
        new incomplete task and the target is left as it was. Either way the
        draft is emptied. */
    method HandleAddTask(now: int)
      modifies this
      ensures IsBlank(old(newTask)) ==>
        tasks == old(tasks) && newTask == old(newTask) && editId == old(editId)
      ensures !IsBlank(old(newTask)) && IsTruthy(old(editId)) ==>
        tasks == Retitled(old(tasks), old(editId).value, old(newTask)) && editId == None
      ensures !IsBlank(old(newTask)) && !IsTruthy(old(editId)) ==>
        tasks == old(tasks) + [Task(now, old(newTask), false)] && editId == old(editId)
      ensures !IsBlank(old(newTask)) ==> newTask == []
      ensures filter == old(filter)
    {
      var draft := newTask;
      if Trim(draft) == [] {
        return;
      }
      if IsTruthy(editId) {
        tasks := Retitled(tasks, editId.value, draft);
        editId := None;
      } else {
        tasks := tasks + [Task(now, draft, false)];
      }
      newTask := [];
    }

    /** Pressing Delete on a row. */
    method HandleDelete(id: int)
      modifies this
      ensures tasks == RemoveId(old(tasks), id)
      ensures newTask == old(newTask) && editId == old(editId) && filter == old(filter)
    {
      tasks := RemoveId(tasks, id);
    }

    /** Pressing Edit on a row: the row's id becomes the edit target and its
        text the draft; the list is untouched. */
    method HandleEdit(id: int, text: string)
      modifies this
      ensures editId == Some(id) && newTask == text
      ensures tasks == old(tasks) && filter == old(filter)
    {
      editId := Some(id);
      newTask := text;
    }

    /** Clicking a row's checkbox. */
    method HandleToggle(id: int)
      modifies this
      ensures tasks == Toggled(old(tasks), id)
      ensures newTask == old(newTask) && editId == old(editId) && filter == old(filter)
    {
      tasks := Toggled(tasks, id);
    }

    /** The rows on screen. */
    function Visible(): (r: seq<Task>)
      reads this
      ensures forall t :: t in r <==> t in tasks && (filter == All || (filter == Completed) == t.completed)
    {
      FilteredTasks(tasks, filter)
    }
  }

  // Example sessions, replayed against the handlers' contracts. Each session
  // chooses distinct positive clock readings for the new tasks' ids.

  method SessionAddToEmptyList(t1: int)
    requires 0 < t1
  {
    var app := new TaskApp([]);
    app.SetNewTask("Buy milk");
    assert !IsWhitespace(app.newTask[0]);
    app.HandleAddTask(t1);
    assert app.tasks == [Task(t1, "Buy milk", false)];
  }

  method SessionBlankDraftIgnored(t1: int)
    requires 0 < t1
  {
    var app := new TaskApp([]);
    app.SetNewTask("   ");
    app.HandleAddTask(t1);
    assert app.tasks == [] && app.newTask == "   ";
  }

  method SessionToggleThenViewCompleted(t1: int, t2: int)
    requires 0 < t1 < t2
  {
    var app := new TaskApp([]);
    app.SetNewTask("A");
    assert !IsWhitespace(app.newTask[0]);
    app.HandleAddTask(t1);
    app.SetNewTask("B");
    assert !IsWhitespace(app.newTask[0]);
    app.HandleAddTask(t2);
    assert app.tasks == [Task(t1, "A", false), Task(t2, "B", false)];
    app.HandleToggle(t1);
    app.SetFilter(Completed);
    var shown := app.Visible();
    assert app.tasks[0].completed && !app.tasks[1].completed;
    assert app.tasks == [Task(t1, "A", true), Task(t2, "B", false)];
    assert Task(t1, "A", true) in shown && Task(t2, "B", false) !in shown;
  }

  method SessionEditInPlace(t1: int, t2: int)
    requires 0 < t1 < t2
  {
    var app := new TaskApp([]);
    app.SetNewTask("X");
    assert !IsWhitespace(app.newTask[0]);
    app.HandleAddTask(t1);
    app.HandleEdit(t1, "X");
    app.SetNewTask("Y");
    assert !IsWhitespace(app.newTask[0]);
    app.HandleAddTask(t2);
    assert app.tasks == [Task(t1, "Y", false)];
    assert app.editId == None && app.newTask == [];
  }

  method SessionDeleteMiddle(t1: int, t2: int, t3: int)
    requires 0 < t1 < t2 < t3
  {
    var a, b, c := Task(t1, "A", false), Task(t2, "B", false), Task(t3, "C", false);
    var app := new TaskApp([a, b, c]);
    app.HandleDelete(t2);
    assert [a, b, c] == [a] + [b] + [c];
    RemoveIdAppend([a] + [b], [c], t2);
    RemoveIdAppend([a], [b], t2);
    RemoveAbsentId([a], t2);
    RemoveAbsentId([c], t2);
    assert RemoveId([b], t2) == [];
    assert app.tasks == [a, c];
  }
}
