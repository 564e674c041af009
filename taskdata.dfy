/**
 * The in-memory task store of Task_4: a slice of tasks, three seeded at start,
 * searched by id with the first match winning.
 */
module TaskData {
  import opened Common

  datatype Task = Task(id: string, title: string, description: string, dueDate: string, status: string)

  const MsgTaskNotFound: string := "task not found"

  /** Index of the first task with this id, the element `GetTaskById` points to. */
  function FindTask(tasks: seq<Task>, id: string): (r: Option<nat>)
    ensures r.Some? ==> r.value < |tasks| && tasks[r.value].id == id
    ensures r.Some? ==> forall j :: 0 <= j < r.value ==> tasks[j].id != id
    ensures r.None? <==> forall j :: 0 <= j < |tasks| ==> tasks[j].id != id
  {
    if tasks == [] then None
    else if tasks[0].id == id then Some(0)
    else match FindTask(tasks[1..], id)
      case None => None
      case Some(k) => Some(k + 1)
  }

  /** The lookup only depends on ids: replacing an element by one with the same id leaves it unchanged. */
  lemma {:induction false} FindTaskSameIds(tasks: seq<Task>, i: nat, t: Task, id: string)
    requires i < |tasks| && t.id == tasks[i].id
    ensures FindTask(tasks[i := t], id) == FindTask(tasks, id)
  {
    if i > 0 {
      assert tasks[i := t][1..] == tasks[1..][i - 1 := t];
      FindTaskSameIds(tasks[1..], i - 1, t, id);
    }
  }

  /** A task appended after tasks that all have other ids is found at the end. */
  lemma {:induction false} FindTaskAppended(tasks: seq<Task>, t: Task)
    requires FindTask(tasks, t.id) == None
    ensures FindTask(tasks + [t], t.id) == Some(|tasks|)
  {
    if tasks != [] {
      assert (tasks + [t])[1..] == tasks[1..] + [t];
      FindTaskAppended(tasks[1..], t);
    }
  }

  /**
   * The seed of `NewTaskCollection`; the three due dates are `time.Now()`
   * formatted for today, tomorrow and the day after, given as parameters.
   */
  function SeedTasks(today: string, tomorrow: string, dayAfter: string): (r: seq<Task>)
    ensures |r| == 3
    ensures r[0].id == "1" && r[1].id == "2" && r[2].id == "3"
    ensures r[0].status == "Pending" && r[1].status == "In Progress" && r[2].status == "Completed"
    ensures r[0].dueDate == today && r[1].dueDate == tomorrow && r[2].dueDate == dayAfter
  {
    [ Task("1", "Task 1", "First task", today, "Pending"),
      Task("2", "Task 2", "Second task", tomorrow, "In Progress"),
      Task("3", "Task 3", "Third task", dayAfter, "Completed") ]
  }

  /**
   * The seeded ids are distinct, so each of them is found at its own position
   * and no other id is found.
   */
  lemma SeedLookup(today: string, tomorrow: string, dayAfter: string)
    ensures FindTask(SeedTasks(today, tomorrow, dayAfter), "1") == Some(0)
    ensures FindTask(SeedTasks(today, tomorrow, dayAfter), "2") == Some(1)
    ensures FindTask(SeedTasks(today, tomorrow, dayAfter), "3") == Some(2)
    ensures forall id :: id != "1" && id != "2" && id != "3" ==> FindTask(SeedTasks(today, tomorrow, dayAfter), id) == None
  {
  }

  class TaskCollection {
    var tasks: seq<Task>

    /** `NewTaskCollection`. */
    constructor (today: string, tomorrow: string, dayAfter: string)
      ensures tasks == SeedTasks(today, tomorrow, dayAfter)
    {
      tasks := SeedTasks(today, tomorrow, dayAfter);
    }

    /**
     * `GetTaskById`: the returned pointer is the index of the first task with
     * this id; none matching is the error "task not found". Nothing changes.
     */
    method GetTaskById(id: string) returns (r: Result<nat>)
      ensures r.Ok? <==> FindTask(tasks, id).Some?
      ensures r.Ok? ==> r.value < |tasks| && tasks[r.value].id == id
      ensures r.Ok? ==> forall j :: 0 <= j < r.value ==> tasks[j].id != id
      ensures r.Err? ==> r.error == MsgTaskNotFound
    {
      var idx := 0;
      while idx < |tasks|
        invariant 0 <= idx <= |tasks|
        invariant forall j :: 0 <= j < idx ==> tasks[j].id != id
      {
        if tasks[idx].id == id {
          return Ok(idx);
        }
        idx := idx + 1;
      }
      return Err(MsgTaskNotFound);
    }

    /** A write through a pointer `GetTaskById` returned: that element changes and no other. */
    method WriteAt(idx: nat, t: Task)
      requires idx < |tasks|
      modifies this
      ensures tasks == old(tasks)[idx := t]
      ensures forall j :: 0 <= j < |tasks| && j != idx ==> tasks[j] == old(tasks[j])
    {
      tasks := tasks[idx := t];
    }
  }
}
