/**
 * The `App` component's state and its transitions. `addTask`, `deleteTask` and `updateTask`
 * replace the task list with a new list computed from the old one, as React's `setTasks`
 * does; the three setters each change one field.
 */
module TaskApp {
  import opened Wrappers
  import opened Tasks
  import opened Views

  class App {
    /** The canonical task list. */
    var tasks: seq<Task>
    /** The task the form is editing; None when the form creates. */
    var editingTask: Option<Task>
    var searchTerm: string
    var priorityFilter: string

    /** The state on mount: the list read from storage (empty when nothing was stored), no
        edit target, an empty search term and the selector on "All". */
    constructor (saved: seq<Task>)
      ensures tasks == saved && editingTask == None
      ensures searchTerm == "" && priorityFilter == AllPriorities
    {
      tasks := saved;
      editingTask := None;
      searchTerm := "";
      priorityFilter := AllPriorities;
    }

    /** `filteredTasks`, as it stands once the effects have run for the current state: the
        tasks that pass the current selector and term, in list order. */
    function FilteredTasks(): (r: seq<Task>)
      reads this
      ensures IsSubseq(r, tasks)
      ensures forall t :: t in r <==> t in tasks && Visible(t, priorityFilter, searchTerm)
    {
      ApplyFilters(tasks, priorityFilter, searchTerm)
    }

    /** `addTask`. With an edit target, every task carrying its id becomes the submitted record
        with that id (nothing else of the old task is kept) and the target is cleared. Without
        one, the created record is appended. `now` stands for `Date.now()`. */
    method AddTask(task: Task, now: int)
      modifies this`tasks, this`editingTask
      ensures editingTask == None
      ensures old(editingTask).Some? ==>
        var id := old(editingTask).value.id;
        tasks == ReplaceId(old(tasks), id, task.(id := id))
      ensures old(editingTask).None? ==> tasks == old(tasks) + [Created(task, now)]
      ensures old(editingTask).None? ==>
        var created := Created(task, now);
        ApplyFilters(tasks, priorityFilter, searchTerm) == ApplyFilters(old(tasks), priorityFilter, searchTerm)
          + if Visible(created, priorityFilter, searchTerm) then [created] else []
      ensures old(editingTask).Some? && UniqueIds(old(tasks)) ==>
        UniqueIds(tasks) && Ids(tasks) == Ids(old(tasks))
      ensures old(editingTask).None? && UniqueIds(old(tasks)) && now !in Ids(old(tasks)) ==>
        UniqueIds(tasks) && Ids(tasks) == Ids(old(tasks)) + {now}
    {
      if editingTask.Some? {
        var id := editingTask.value.id;
        if UniqueIds(tasks) {
          ReplaceIdUniqueIds(tasks, id, task.(id := id));
        }
        tasks := ReplaceId(tasks, id, task.(id := id));
        editingTask := None;
      } else {
        var created := Created(task, now);
        if UniqueIds(tasks) && now !in Ids(tasks) {
          AppendUniqueIds(tasks, created);
        }
        ghost var before := tasks;
        ApplyFiltersAppend(before, created, priorityFilter, searchTerm);
        tasks := tasks + [created];
      }
    }

    /** `deleteTask`. */
    method DeleteTask(id: int)
      modifies this`tasks
      ensures tasks == RemoveId(old(tasks), id)
      ensures forall t :: t in FilteredTasks() ==> t.id != id
      ensures UniqueIds(old(tasks)) ==> UniqueIds(tasks) && Ids(tasks) == Ids(old(tasks)) - {id}
    {
      if UniqueIds(tasks) {
        RemoveIdUniqueIds(tasks, id);
      }
      tasks := RemoveId(tasks, id);
    }

    /** `updateTask`. */
    method UpdateTask(updatedTask: Task)
      modifies this`tasks
      ensures tasks == ReplaceId(old(tasks), updatedTask.id, updatedTask)
      ensures UniqueIds(old(tasks)) ==> UniqueIds(tasks) && Ids(tasks) == Ids(old(tasks))
    {
      if UniqueIds(tasks) {
        ReplaceIdUniqueIds(tasks, updatedTask.id, updatedTask);
      }
      tasks := ReplaceId(tasks, updatedTask.id, updatedTask);
    }

    /** `setEditingTask`, handed to the form and the lists. */
    method SetEditingTask(task: Option<Task>)
      modifies this`editingTask
      ensures editingTask == task
    {
      editingTask := task;
    }

    /** `setSearchTerm`, handed to the filter controls. */
    method SetSearchTerm(term: string)
      modifies this`searchTerm
      ensures searchTerm == term
    {
      searchTerm := term;
    }

    /** `setPriorityFilter`, handed to the filter controls. */
    method SetPriorityFilter(sel: string)
      modifies this`priorityFilter
      ensures priorityFilter == sel
    {
      priorityFilter := sel;
    }
  }
}
