/** The tasks page (src/pages/Tarefas.tsx): the current user's tasks shown as a kanban board
    of three status columns, a dialog form that adds a task or edits the chosen one, and
    drag-and-drop between the columns. A 'yyyy-MM-dd' date in the form is modelled by the
    number of the calendar day it names. */
module Tarefas {
  import opened Common
  import opened Types
  import opened DataStore

  /** The dialog's form fields. */
  datatype TaskForm = TaskForm(title: string, description: string, priority: TaskPriority, dueDay: int)

  /** The empty form: no title or description, medium priority, due today. */
  function BlankForm(today: int): (f: TaskForm)
    ensures f.title == "" && f.description == "" && f.priority == Media && f.dueDay == today
  {
    TaskForm("", "", Media, today)
  }

  // ---------------------------------------------------------------------------
  // The due date typed in the form
  // ---------------------------------------------------------------------------

  /** `new Date('yyyy-MM-dd')` as the page calls it: the string is read as midnight UTC,
      which in local time is `utcOffset` milliseconds away (negative west of Greenwich). */
  function DueDateAsWritten(day: int, utcOffset: int): (d: Date)
    ensures 0 <= utcOffset < MsPerDay ==> DayOf(d) == day
    ensures -MsPerDay <= utcOffset < 0 ==> DayOf(d) == day - 1
  {
    var d := day * MsPerDay + utcOffset;
    assert utcOffset < 0 ==> d == (day - 1) * MsPerDay + (MsPerDay + utcOffset);
    d
  }

  /** West of Greenwich the saved due date falls on the day before the one picked, and every
      save of the edit dialog, which shows the saved day back, moves it one more day. */
  lemma DueDateAsWrittenShiftsDay(day: int, utcOffset: int, saved: Date)
    requires -MsPerDay < utcOffset < 0
    ensures DayOf(DueDateAsWritten(day, utcOffset)) == day - 1
    ensures DayOf(DueDateAsWritten(DayOf(saved), utcOffset)) == DayOf(saved) - 1
  {
    assert DueDateAsWritten(day, utcOffset) == (day - 1) * MsPerDay + (MsPerDay + utcOffset);
    assert DueDateAsWritten(DayOf(saved), utcOffset) == (DayOf(saved) - 1) * MsPerDay + (MsPerDay + utcOffset);
  }

  /** In Brasília time (three hours west), a task due on day 20000 is saved on day 19999. */
  lemma DueDateAsWrittenExample()
    ensures DayOf(DueDateAsWritten(20000, -3 * 3_600_000)) == 19999
  {
    DueDateAsWrittenShiftsDay(20000, -3 * 3_600_000, 0);
  }

  /** The due date meant: local midnight of the picked day, which the page would get from
      `parse(formData.dueDate, 'yyyy-MM-dd', new Date())` or a local-time constructor. */
  function DueDate(day: int): (d: Date)
    ensures DayOf(d) == day
  {
    day * MsPerDay
  }

  /** Opening a saved task for editing and saving it unchanged keeps its due day. */
  lemma DueDateRoundTrip(saved: Date)
    ensures DayOf(DueDate(DayOf(saved))) == DayOf(saved)
  {
  }

  // ---------------------------------------------------------------------------
  // Columns
  // ---------------------------------------------------------------------------

  function HasStatus(status: TaskStatus): Task -> bool {
    (t: Task) => t.status == status
  }

  /** `getTasksByStatus` (lines 124-126). */
  function TasksByStatus(tasks: seq<Task>, status: TaskStatus): (r: seq<Task>)
    ensures forall t :: t in r <==> t in tasks && t.status == status
  {
    Filter(tasks, HasStatus(status))
  }

  /** The three kanban columns (lines 356-373) hold every task exactly once between them. */
  lemma KanbanPartition(tasks: seq<Task>)
    ensures multiset(TasksByStatus(tasks, Pendente)) + multiset(TasksByStatus(tasks, EmAndamento))
            + multiset(TasksByStatus(tasks, Concluida)) == multiset(tasks)
  {
    forall t
      ensures (multiset(TasksByStatus(tasks, Pendente)) + multiset(TasksByStatus(tasks, EmAndamento))
               + multiset(TasksByStatus(tasks, Concluida)))[t] == multiset(tasks)[t]
    {
      FilterMultiset(tasks, HasStatus(Pendente), t);
      FilterMultiset(tasks, HasStatus(EmAndamento), t);
      FilterMultiset(tasks, HasStatus(Concluida), t);
    }
  }

  // ---------------------------------------------------------------------------
  // Patches the page sends to the store
  // ---------------------------------------------------------------------------

  /** What an edit submits (lines 69-74): title, description, priority and due date. */
  function EditPatch(form: TaskForm, utcOffset: int): (p: TaskPatch)
    ensures p.status.None? && p.id.None? && p.user.None? && p.createdAt.None?
    ensures p.title == Some(form.title) && p.description == Some(form.description)
    ensures p.priority == Some(form.priority) && p.dueDate.Some?
    ensures 0 <= utcOffset < MsPerDay ==> DayOf(p.dueDate.value) == form.dueDay
    ensures -MsPerDay <= utcOffset < 0 ==> DayOf(p.dueDate.value) == form.dueDay - 1
  {
    TaskPatch(None, Some(form.title), Some(form.description), None, Some(form.priority),
              Some(DueDateAsWritten(form.dueDay, utcOffset)), None, None)
  }

  /** The record an add submits (lines 78-85): pending, owned by the current user, with
      the form's fields and the due date as the page parses it. */
  function NewTask(form: TaskForm, user: User, utcOffset: int): (t: Task)
    ensures t.status == Pendente && t.user == user
    ensures t.title == form.title && t.description == Some(form.description) && t.priority == form.priority
    ensures 0 <= utcOffset < MsPerDay ==> DayOf(t.dueDate) == form.dueDay
    ensures -MsPerDay <= utcOffset < 0 ==> DayOf(t.dueDate) == form.dueDay - 1
  {
    Task("", form.title, Some(form.description), Pendente, form.priority,
         DueDateAsWritten(form.dueDay, utcOffset), 0, user)
  }

  /** What a drop submits (line 119): the status alone. */
  function StatusPatch(status: TaskStatus): (p: TaskPatch)
    ensures p.status == Some(status)
  {
    TaskPatch(None, None, None, Some(status), None, None, None, None)
  }

  /** Editing never moves a task to another column, nor to another user, and touches no
      task but the edited one. */
  lemma EditKeepsColumns(tasks: seq<Task>, id: string, form: TaskForm, utcOffset: int, user: User, status: TaskStatus)
    ensures var r := UpdateId(tasks, TaskId, id, MergeTask, EditPatch(form, utcOffset));
            |r| == |tasks| &&
            (forall i :: 0 <= i < |r| ==> r[i].status == tasks[i].status && r[i].user == tasks[i].user && r[i].id == tasks[i].id) &&
            TasksByStatus(ByUser(r, TaskUser, user), status) ==
              UpdateId(TasksByStatus(ByUser(tasks, TaskUser, user), status), TaskId, id, MergeTask, EditPatch(form, utcOffset))
  {
    var p := EditPatch(form, utcOffset);
    UpdateThenByUser(tasks, TaskId, id, MergeTask, p, TaskUser, user);
    var mine := ByUser(tasks, TaskUser, user);
    forall t: Task
      ensures TaskUser(MergeTask(t, p)) == TaskUser(t)
      ensures MergeTask(t, p).status == t.status
    {
    }
    UpdateThenStatus(mine, id, p, status);
  }

  /** A patch that keeps statuses commutes with reading a column. */
  lemma {:induction false} UpdateThenStatus(tasks: seq<Task>, id: string, p: TaskPatch, status: TaskStatus)
    requires p.status.None?
    ensures TasksByStatus(UpdateId(tasks, TaskId, id, MergeTask, p), status)
         == UpdateId(TasksByStatus(tasks, status), TaskId, id, MergeTask, p)
  {
    if tasks != [] {
      var x, rest := tasks[0], tasks[1..];
      assert tasks == [x] + rest;
      UpdateIdCons(x, rest, TaskId, id, MergeTask, p);
      var u := UpdateId(tasks, TaskId, id, MergeTask, p);
      assert u[1..] == UpdateId(rest, TaskId, id, MergeTask, p);
      UpdateThenStatus(rest, id, p, status);
      if x.status == status {
        assert TasksByStatus(tasks, status) == [x] + TasksByStatus(rest, status);
        UpdateIdCons(x, TasksByStatus(rest, status), TaskId, id, MergeTask, p);
      }
    }
  }

  /** A drop onto column `s` moves the tasks with the dropped id into it and leaves every
      other task where it was. */
  lemma DropMovesTask(tasks: seq<Task>, id: string, s: TaskStatus)
    ensures var r := UpdateId(tasks, TaskId, id, MergeTask, StatusPatch(s));
            |r| == |tasks| &&
            (forall i :: 0 <= i < |r| && tasks[i].id == id ==> r[i] == tasks[i].(status := s)) &&
            (forall i :: 0 <= i < |r| && tasks[i].id != id ==> r[i] == tasks[i])
  {
  }

  /** A new task lands at the end of its owner's pending column. */
  lemma AddedTaskIsLastPending(tasks: seq<Task>, form: TaskForm, user: User, utcOffset: int, id: string, now: Date)
    ensures var t := NewTask(form, user, utcOffset).(id := id, createdAt := now);
            TasksByStatus(ByUser(tasks + [t], TaskUser, user), Pendente)
              == TasksByStatus(ByUser(tasks, TaskUser, user), Pendente) + [t]
  {
    var t := NewTask(form, user, utcOffset).(id := id, createdAt := now);
    AddThenByUser(tasks, t, TaskUser, user);
    FilterAppend(ByUser(tasks, TaskUser, user), [t], HasStatus(Pendente));
    assert Filter([t], HasStatus(Pendente)) == [t] + Filter([], HasStatus(Pendente));
  }

  // ---------------------------------------------------------------------------
  // The page
  // ---------------------------------------------------------------------------

  class TarefasPage {
    const store: Store
    const currentUser: User
    /** The browser's offset of local time from UTC, in milliseconds. */
    const utcOffset: int
    var dialogOpen: bool
    var editingTask: Option<Task>
    var draggedTask: Option<Task>
    var form: TaskForm

    /** The page's first render (lines 52-64): dialog closed, nothing edited or dragged,
        a blank form due today. */
    constructor (store: Store, currentUser: User, utcOffset: int, today: int)
      ensures this.store == store && this.currentUser == currentUser && this.utcOffset == utcOffset
      ensures !dialogOpen && editingTask == None && draggedTask == None
      ensures form == BlankForm(today)
    {
      this.store := store;
      this.currentUser := currentUser;
      this.utcOffset := utcOffset;
      dialogOpen := false;
      editingTask := None;
      draggedTask := None;
      form := BlankForm(today);
    }

    /** `tasks`: the current user's tasks. */
    function Tasks(): (r: seq<Task>)
      reads store
      ensures forall t :: t in r <==> t in store.tasks && t.user == currentUser
    {
      store.TasksByUser(currentUser)
    }

    /** `handleSubmit` (lines 66-95): an edit patches the record being edited, an add appends a
        pending task of the current user; either way the form is cleared and the dialog
        closes. `id` and `now` are the fresh id and the time the store gives the new task. */
    method HandleSubmit(id: string, now: Date, today: int)
      modifies this`editingTask, this`form, this`dialogOpen, store`tasks
      ensures old(editingTask).Some? ==>
                store.tasks == UpdateId(old(store.tasks), TaskId, old(editingTask).value.id, MergeTask, EditPatch(old(form), utcOffset))
      ensures old(editingTask).None? ==>
                store.tasks == old(store.tasks) + [NewTask(old(form), currentUser, utcOffset).(id := id, createdAt := now)]
      ensures editingTask == None && form == BlankForm(today) && !dialogOpen
    {
      if editingTask.Some? {
        store.UpdateTask(editingTask.value.id, EditPatch(form, utcOffset));
        editingTask := None;
      } else {
        store.AddTask(NewTask(form, currentUser, utcOffset), id, now);
      }
      form := BlankForm(today);
      dialogOpen := false;
    }

    /** `handleEdit` (lines 97-106): the chosen record's fields go into the form, a missing
        description as ''. */
    method HandleEdit(task: Task)
      modifies this`editingTask, this`form, this`dialogOpen
      ensures editingTask == Some(task) && dialogOpen
      ensures form == TaskForm(task.title, Or(task.description, ""), task.priority, DayOf(task.dueDate))
    {
      editingTask := Some(task);
      form := TaskForm(task.title, if task.description.Some? then task.description.value else "",
                       task.priority, DayOf(task.dueDate));
      dialogOpen := true;
    }

    method HandleDragStart(task: Task)
      modifies this`draggedTask
      ensures draggedTask == Some(task)
    {
      draggedTask := Some(task);
    }

    /** `handleDrop` (lines 116-122): a dragged task whose status differs from the column's
        gets the column's status; the drag ends in every case. */
    method HandleDrop(status: TaskStatus)
      modifies this`draggedTask, store`tasks
      ensures old(draggedTask).Some? && old(draggedTask).value.status != status ==>
                store.tasks == UpdateId(old(store.tasks), TaskId, old(draggedTask).value.id, MergeTask, StatusPatch(status))
      ensures !(old(draggedTask).Some? && old(draggedTask).value.status != status) ==> store.tasks == old(store.tasks)
      ensures draggedTask == None
    {
      if draggedTask.Some? && draggedTask.value.status != status {
        store.UpdateTask(draggedTask.value.id, StatusPatch(status));
      }
      draggedTask := None;
    }

    /** The dialog's `onOpenChange` (lines 240-251): closing it forgets the edited task and
        clears the form. */
    method OnOpenChange(open: bool, today: int)
      modifies this`dialogOpen, this`editingTask, this`form
      ensures dialogOpen == open
      ensures !open ==> editingTask == None && form == BlankForm(today)
      ensures open ==> editingTask == old(editingTask) && form == old(form)
    {
      dialogOpen := open;
      if !open {
        editingTask := None;
        form := BlankForm(today);
      }
    }
  }
}
