/**
 * Task_4 handlers over the package-level slice of tasks. The slice is the
 * `TaskCollection` passed as `store`; the request body, once bound, is passed
 * as an `Option` (`None` when `c.BindJSON` fails).
 */
module TaskController {
  import opened Common
  import opened Gin
  import opened TaskData

  /** What the handlers answer with besides messages. */
  datatype TaskPayload = OneTask(task: Task) | NilTask | TaskList(tasks: seq<Task>)

  const MsgTaskUpdated: string := "task updated successfully"
  const MsgTaskDeleted: string := "task deleted successfully"

  /** The fields an update writes: each non-empty field of the patch, and never the id. */
  function Merge(t: Task, patch: Task): Task
  {
    Task(t.id,
         if patch.title != "" then patch.title else t.title,
         if patch.description != "" then patch.description else t.description,
         if patch.dueDate != "" then patch.dueDate else t.dueDate,
         if patch.status != "" then patch.status else t.status)
  }

  /** The slice after `UpdateTask`: the first task with this id merged with the patch. */
  function Updated(tasks: seq<Task>, id: string, patch: Task): seq<Task>
  {
    match FindTask(tasks, id)
    case None => tasks
    case Some(i) => tasks[i := Merge(tasks[i], patch)]
  }

  /** The slice after `DeleteTask`: the first task with this id taken out. */
  function Deleted(tasks: seq<Task>, id: string): seq<Task>
  {
    match FindTask(tasks, id)
    case None => tasks
    case Some(i) => tasks[..i] + tasks[i + 1..]
  }

  /** A merge keeps the id, keeps every field the patch leaves empty, and takes every other field from the patch. */
  lemma MergeFields(t: Task, patch: Task)
    ensures Merge(t, patch).id == t.id
    ensures patch.title == "" ==> Merge(t, patch).title == t.title
    ensures patch.title != "" ==> Merge(t, patch).title == patch.title
    ensures patch.description == "" ==> Merge(t, patch).description == t.description
    ensures patch.description != "" ==> Merge(t, patch).description == patch.description
    ensures patch.dueDate == "" ==> Merge(t, patch).dueDate == t.dueDate
    ensures patch.dueDate != "" ==> Merge(t, patch).dueDate == patch.dueDate
    ensures patch.status == "" ==> Merge(t, patch).status == t.status
    ensures patch.status != "" ==> Merge(t, patch).status == patch.status
    ensures patch.(id := t.id) == Task(t.id, "", "", "", "") ==> Merge(t, patch) == t
  {
  }

  /** An update changes only the element it finds, keeps the length and every id. */
  lemma UpdatedOnlyTarget(tasks: seq<Task>, id: string, patch: Task)
    ensures |Updated(tasks, id, patch)| == |tasks|
    ensures forall j :: 0 <= j < |tasks| ==> Updated(tasks, id, patch)[j].id == tasks[j].id
    ensures forall j :: 0 <= j < |tasks| && Some(j) != FindTask(tasks, id) ==> Updated(tasks, id, patch)[j] == tasks[j]
    ensures FindTask(tasks, id) == None ==> Updated(tasks, id, patch) == tasks
  {
  }

  /** Applying the same update twice leaves the same slice as applying it once. */
  lemma {:induction false} UpdatedIdempotent(tasks: seq<Task>, id: string, patch: Task)
    ensures Updated(Updated(tasks, id, patch), id, patch) == Updated(tasks, id, patch)
  {
    match FindTask(tasks, id)
    case None =>
    case Some(i) =>
      var once := tasks[i := Merge(tasks[i], patch)];
      FindTaskSameIds(tasks, i, Merge(tasks[i], patch), id);
      assert FindTask(once, id) == Some(i);
      assert Merge(once[i], patch) == once[i];
  }

  /** Taking out position `i` removes exactly that one element. */
  lemma RemovedAt(tasks: seq<Task>, i: nat)
    requires i < |tasks|
    ensures |tasks[..i] + tasks[i + 1..]| == |tasks| - 1
    ensures multiset(tasks[..i] + tasks[i + 1..]) + multiset{tasks[i]} == multiset(tasks)
  {
    assert tasks == tasks[..i] + [tasks[i]] + tasks[i + 1..];
  }

  /**
   * A delete takes out exactly the first match: the length drops by one, the
   * others keep their order, and the multiset loses that one task.
   */
  lemma DeletedSpec(tasks: seq<Task>, id: string)
    ensures FindTask(tasks, id).Some? ==>
      var i := FindTask(tasks, id).value;
      && Deleted(tasks, id) == tasks[..i] + tasks[i + 1..]
      && |Deleted(tasks, id)| == |tasks| - 1
      && multiset(Deleted(tasks, id)) + multiset{tasks[i]} == multiset(tasks)
    ensures FindTask(tasks, id).None? ==> Deleted(tasks, id) == tasks
  {
    match FindTask(tasks, id)
    case None =>
    case Some(i) =>
      RemovedAt(tasks, i);
  }

  /** Deleting the id of a newly created task with a fresh id undoes the creation. */
  lemma DeleteUndoesCreate(tasks: seq<Task>, t: Task)
    requires FindTask(tasks, t.id) == None
    ensures Deleted(tasks + [t], t.id) == tasks
  {
    FindTaskAppended(tasks, t);
    assert (tasks + [t])[..|tasks|] == tasks;
  }

  /** Creation does not check ids: a task created with an id already present is never found by the lookup. */
  lemma {:induction false} DuplicateCreateShadowed(tasks: seq<Task>, t: Task)
    requires FindTask(tasks, t.id).Some?
    ensures FindTask(tasks + [t], t.id) == FindTask(tasks, t.id)
  {
    if tasks[0].id != t.id {
      assert (tasks + [t])[1..] == tasks[1..] + [t];
      DuplicateCreateShadowed(tasks[1..], t);
    }
  }

  /** `GetAllTasks`: 200 with the whole slice. */
  method GetAllTasks(c: Context<TaskPayload>, store: TaskCollection)
    modifies c
    ensures c.written == old(c.written) + [Response(200, Payload(TaskList(store.tasks)))]
    ensures c.keys == old(c.keys) && c.aborted == old(c.aborted) && c.nextCalled == old(c.nextCalled)
  {
    c.Json(200, Payload(TaskList(store.tasks)));
  }

  /**
   * `GetTask`: the 404 answer does not return, so a missing task is answered
   * with 404 and then a second write of 200 with a nil task; the client sees 404.
   */
  method GetTask(c: Context<TaskPayload>, store: TaskCollection, id: string)
    modifies c
    ensures FindTask(store.tasks, id).Some? ==>
      c.written == old(c.written) + [Response(200, Payload(OneTask(store.tasks[FindTask(store.tasks, id).value])))]
    ensures FindTask(store.tasks, id).None? ==>
      c.written == old(c.written) + [Response(404, Message(MsgTaskNotFound)), Response(200, Payload(NilTask))]
    ensures old(c.written) == [] ==> c.Status() == if FindTask(store.tasks, id).Some? then 200 else 404
    ensures c.keys == old(c.keys) && c.aborted == old(c.aborted) && c.nextCalled == old(c.nextCalled)
  {
    var r := store.GetTaskById(id);
    if r.Err? {
      c.Json(404, Message(MsgTaskNotFound));
    }
    var task := if r.Ok? then OneTask(store.tasks[r.value]) else NilTask;
    c.Json(200, Payload(task));
  }

  /**
   * `UpdateTask`: the lookup comes first (404, slice unchanged), then the
   * body is bound (a failure aborts with 400, slice unchanged), then each
   * non-empty field is written through the pointer and 200 is answered.
   */
  method UpdateTask(c: Context<TaskPayload>, store: TaskCollection, id: string, bound: Option<Task>)
    modifies c, store
    ensures FindTask(old(store.tasks), id).None? ==>
      store.tasks == old(store.tasks) && c.written == old(c.written) + [Response(404, Message(MsgTaskNotFound))]
      && c.aborted == old(c.aborted)
    ensures FindTask(old(store.tasks), id).Some? && bound.None? ==>
      store.tasks == old(store.tasks) && c.written == old(c.written) + [Response(400, NoBody)] && c.aborted
    ensures FindTask(old(store.tasks), id).Some? && bound.Some? ==>
      store.tasks == Updated(old(store.tasks), id, bound.value)
      && c.written == old(c.written) + [Response(200, Message(MsgTaskUpdated))] && c.aborted == old(c.aborted)
    ensures c.keys == old(c.keys) && c.nextCalled == old(c.nextCalled)
  {
    var r := store.GetTaskById(id);
    if r.Err? {
      c.Json(404, Message(MsgTaskNotFound));
      return;
    }
    if bound.None? {
      c.BindFailed();
      return;
    }
    var i := r.value;
    var patch := bound.value;
    if patch.title != "" {
      store.WriteAt(i, store.tasks[i].(title := patch.title));
    }
    if patch.description != "" {
      store.WriteAt(i, store.tasks[i].(description := patch.description));
    }
    if patch.dueDate != "" {
      store.WriteAt(i, store.tasks[i].(dueDate := patch.dueDate));
    }
    if patch.status != "" {
      store.WriteAt(i, store.tasks[i].(status := patch.status));
    }
    assert store.tasks == old(store.tasks)[i := Merge(old(store.tasks)[i], patch)];
    c.Json(200, Message(MsgTaskUpdated));
  }

  /** `DeleteTask`: removes the first match and answers 200, or answers 404 with the slice unchanged. */
  method DeleteTask(c: Context<TaskPayload>, store: TaskCollection, id: string)
    modifies c, store
    ensures store.tasks == Deleted(old(store.tasks), id)
    ensures FindTask(old(store.tasks), id).Some? ==> c.written == old(c.written) + [Response(200, Message(MsgTaskDeleted))]
    ensures FindTask(old(store.tasks), id).None? ==> c.written == old(c.written) + [Response(404, Message(MsgTaskNotFound))]
    ensures c.keys == old(c.keys) && c.aborted == old(c.aborted) && c.nextCalled == old(c.nextCalled)
  {
    var i := 0;
    while i < |store.tasks|
      invariant 0 <= i <= |store.tasks|
      invariant store.tasks == old(store.tasks)
      invariant forall j :: 0 <= j < i ==> store.tasks[j].id != id
      invariant c.written == old(c.written)
    {
      if id == store.tasks[i].id {
        store.tasks := store.tasks[..i] + store.tasks[i + 1..];
        c.Json(200, Message(MsgTaskDeleted));
        return;
      }
      i := i + 1;
    }
    c.Json(404, Message(MsgTaskNotFound));
  }

  /** `CreateTask`: a bound task is appended, duplicates included, and the whole slice is answered; a bind failure changes nothing. */
  method CreateTask(c: Context<TaskPayload>, store: TaskCollection, bound: Option<Task>)
    modifies c, store
    ensures bound.None? ==> store.tasks == old(store.tasks) && c.written == old(c.written) + [Response(400, NoBody)] && c.aborted
    ensures bound.Some? ==>
      store.tasks == old(store.tasks) + [bound.value]
      && c.written == old(c.written) + [Response(200, Payload(TaskList(store.tasks)))] && c.aborted == old(c.aborted)
    ensures c.keys == old(c.keys) && c.nextCalled == old(c.nextCalled)
  {
    if bound.None? {
      c.BindFailed();
      return;
    }
    store.tasks := store.tasks + [bound.value];
    c.Json(200, Payload(TaskList(store.tasks)));
  }
}
