/** The daily schedule page: a list of tasks with a completed flag, an input for a new task
    and an inline editor for one task at a time. */
module TimeSchedule {
  import opened Common
  import opened Text
  import opened Lists

  datatype ScheduleItem = ScheduleItem(id: Id, task: string, completed: bool)

  /** The local-storage key the list is saved under. */
  const StorageKey := "timeScheduleTasks"

  /** The predefined day, shown when nothing is stored yet. */
  const InitialDailyTasks: seq<ScheduleItem> := [
    ScheduleItem("task-1", "Wake up: 5:30 am", false),
    ScheduleItem("task-2", "Study time: 5:45 am - 6:50 am", false),
    ScheduleItem("task-7", "Shower: 6:50 am - 7:00 am", false),
    ScheduleItem("task-3", "Class start: 8:30 am", false),
    ScheduleItem("task-4", "Gym: 5:30 pm - 7:00 pm", false),
    ScheduleItem("task-5", "Cook and Study: 8:30 pm", false),
    ScheduleItem("task-6", "Light walking: 8:45 pm - 9:00 pm", false)
  ]

  function TaskId(t: ScheduleItem): Id {
    t.id
  }

  /** The predefined day has seven open tasks with distinct ids. */
  lemma InitialDailyTasksShape()
    ensures |InitialDailyTasks| == 7
    ensures forall i :: 0 <= i < 7 ==> !InitialDailyTasks[i].completed
    ensures UniqueIds(InitialDailyTasks, TaskId)
  {
  }

  /** The toggle handler's list: `completed` flips on the entries with id `id`; nothing else
      changes. */
  function Toggled(tasks: seq<ScheduleItem>, id: Id): (r: seq<ScheduleItem>)
    ensures |r| == |tasks|
    ensures forall i :: 0 <= i < |r| ==>
      && r[i].id == tasks[i].id && r[i].task == tasks[i].task
      && r[i].completed == (if tasks[i].id == id then !tasks[i].completed else tasks[i].completed)
  {
    UpdateWhere(tasks, TaskId, id, (t: ScheduleItem) => t.(completed := !t.completed))
  }

  /** The save-edit handler's list: the entries with id `id` get the text `text`; their id
      and flag, and every other entry, stay as they were. */
  function Renamed(tasks: seq<ScheduleItem>, id: Id, text: string): (r: seq<ScheduleItem>)
    ensures |r| == |tasks|
    ensures forall i :: 0 <= i < |r| ==>
      && r[i].id == tasks[i].id && r[i].completed == tasks[i].completed
      && r[i].task == (if tasks[i].id == id then text else tasks[i].task)
  {
    UpdateWhere(tasks, TaskId, id, (t: ScheduleItem) => t.(task := text))
  }

  /** Toggling the same id twice gives back the list it started from. */
  lemma ToggleTwice(tasks: seq<ScheduleItem>, id: Id)
    ensures Toggled(Toggled(tasks, id), id) == tasks
  {
    var r := Toggled(Toggled(tasks, id), id);
    assert forall i :: 0 <= i < |r| ==> r[i] == tasks[i];
  }

  /** Each handler keeps the ids unique, adding provided the new id is unused, which is what
      `crypto.randomUUID` is relied on for. */
  lemma HandlersKeepIdsUnique(tasks: seq<ScheduleItem>, id: Id, text: string, freshId: Id)
    requires UniqueIds(tasks, TaskId)
    ensures UniqueIds(Toggled(tasks, id), TaskId)
    ensures UniqueIds(Renamed(tasks, id, text), TaskId)
    ensures UniqueIds(Without(tasks, TaskId, id), TaskId)
    ensures FreshId(tasks, TaskId, freshId) ==> UniqueIds(tasks + [ScheduleItem(freshId, text, false)], TaskId)
  {
    UpdateKeepsUniqueIds(tasks, TaskId, id, (t: ScheduleItem) => t.(completed := !t.completed));
    UpdateKeepsUniqueIds(tasks, TaskId, id, (t: ScheduleItem) => t.(task := text));
    FilterKeepsUniqueIds(tasks, TaskId, OtherId(TaskId, id));
    if FreshId(tasks, TaskId, freshId) {
      AppendKeepsUniqueIds(tasks, TaskId, ScheduleItem(freshId, text, false));
    }
  }

  /** The component's state and its event handlers. */
  class Page {
    var tasks: seq<ScheduleItem>
    var newTask: string
    var editingTaskId: Option<Id>
    var editingTaskText: string

    /** The page as first rendered. `stored` is the list saved under `StorageKey`, or `None`
        when the key is missing or does not hold valid JSON. */
    constructor (stored: Option<seq<ScheduleItem>>)
      ensures tasks == stored.GetOr(InitialDailyTasks)
      ensures newTask == "" && editingTaskId == None && editingTaskText == ""
    {
      tasks := stored.GetOr(InitialDailyTasks);
      newTask := "";
      editingTaskId := None;
      editingTaskText := "";
    }

    /** `handleAddTask`; `freshId` is the value `crypto.randomUUID()` returns. */
    method AddTask(freshId: Id) returns (toast: Toast)
      modifies this
      ensures IsBlank(old(newTask)) ==>
        toast == Error("Task cannot be empty.") && tasks == old(tasks) && newTask == old(newTask)
      ensures !IsBlank(old(newTask)) ==>
        && toast == Success("Task added successfully!")
        && tasks == old(tasks) + [ScheduleItem(freshId, old(newTask), false)]
        && newTask == ""
      ensures editingTaskId == old(editingTaskId) && editingTaskText == old(editingTaskText)
    {
      if IsBlank(newTask) {
        toast := Error("Task cannot be empty.");
        return;
      }
      tasks := tasks + [ScheduleItem(freshId, newTask, false)];
      newTask := "";
      toast := Success("Task added successfully!");
    }

    /** `handleToggleComplete`. */
    method ToggleComplete(id: Id) returns (toast: Toast)
      modifies this
      ensures tasks == Toggled(old(tasks), id)
      ensures toast == Info("Task status updated.")
      ensures newTask == old(newTask) && editingTaskId == old(editingTaskId) && editingTaskText == old(editingTaskText)
    {
      tasks := Toggled(tasks, id);
      toast := Info("Task status updated.");
    }

    /** `handleDeleteTask`. */
    method DeleteTask(id: Id) returns (toast: Toast)
      modifies this
      ensures tasks == Without(old(tasks), TaskId, id)
      ensures toast == Success("Task deleted.")
      ensures newTask == old(newTask) && editingTaskId == old(editingTaskId) && editingTaskText == old(editingTaskText)
    {
      tasks := Without(tasks, TaskId, id);
      toast := Success("Task deleted.");
    }

    /** `handleEditTask`: opens the inline editor on one task. */
    method EditTask(id: Id, currentText: string)
      modifies this
      ensures editingTaskId == Some(id) && editingTaskText == currentText
      ensures tasks == old(tasks) && newTask == old(newTask)
    {
      editingTaskId := Some(id);
      editingTaskText := currentText;
    }

    /** `handleSaveEdit`. A blank text is refused and the editor stays open. */
    method SaveEdit(id: Id) returns (toast: Toast)
      modifies this
      ensures IsBlank(old(editingTaskText)) ==>
        && toast == Error("Task cannot be empty.")
        && tasks == old(tasks) && editingTaskId == old(editingTaskId) && editingTaskText == old(editingTaskText)
      ensures !IsBlank(old(editingTaskText)) ==>
        && toast == Success("Task updated successfully!")
        && tasks == Renamed(old(tasks), id, old(editingTaskText))
        && editingTaskId == None && editingTaskText == ""
      ensures newTask == old(newTask)
    {
      if IsBlank(editingTaskText) {
        toast := Error("Task cannot be empty.");
        return;
      }
      tasks := Renamed(tasks, id, editingTaskText);
      editingTaskId := None;
      editingTaskText := "";
      toast := Success("Task updated successfully!");
    }
  }
}
