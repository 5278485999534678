// server/controllers/taskController.js: the two participants of an
// in-progress project keep a task list on it.
module TaskController {
  import opened Common
  import opened Tables
  import opened Models
  import opened Invariants
  import opened Store

  /** The three statuses updateTaskStatus accepts. */
  function ParseTaskStatus(s: string): (r: Option<TaskStatus>)
    ensures r.Some? <==> s == "todo" || s == "in-progress" || s == "done"
    ensures r == Some(Todo) <==> s == "todo"
    ensures r == Some(Doing) <==> s == "in-progress"
    ensures r == Some(Done) <==> s == "done"
  {
    if s == "todo" then Some(Todo)
    else if s == "in-progress" then Some(Doing)
    else if s == "done" then Some(Done)
    else None
  }

  /** createTask: missing project 404, project not in progress 400 (checked
      before participation), caller not a participant 403, a blank title 500;
      otherwise one todo task with the trimmed title. */
  method CreateTask(db: Db, caller: Caller, pid: Id, title: Option<string>) returns (r: Result<Row<Task>>)
    requires db.TasksValid()
    modifies db`tasks
    ensures db.TasksValid()
    ensures pid >= |db.projects| ==> r == Err(NotFound)
    ensures pid < |db.projects| && db.projects[pid].status != InProgress ==> r == Err(BadRequest)
    ensures (pid < |db.projects| && db.projects[pid].status == InProgress
             && !IsParticipant(db.projects[pid], caller.id)) ==> r == Err(Forbidden)
    ensures (pid < |db.projects| && db.projects[pid].status == InProgress
             && IsParticipant(db.projects[pid], caller.id) && MakeTask(pid, title).Err?) ==> r == Err(ServerError)
    ensures r.Ok? <==> pid < |db.projects| && db.projects[pid].status == InProgress
                       && IsParticipant(db.projects[pid], caller.id) && MakeTask(pid, title).Ok?
    ensures r.Err? ==> db.tasks == old(db.tasks)
    ensures r.Ok? ==> r.value == Row(|old(db.tasks)|, MakeTask(pid, title).value)
    ensures r.Ok? ==> db.tasks == old(db.tasks) + [r.value.doc]
  {
    if pid >= |db.projects| {
      return Err(NotFound);
    }
    if db.projects[pid].status != InProgress {
      return Err(BadRequest);
    }
    if !IsParticipant(db.projects[pid], caller.id) {
      return Err(Forbidden);
    }
    var made := MakeTask(pid, title);
    if made.Err? {
      return Err(made.status);
    }
    db.tasks := db.tasks + [made.value];
    r := Ok(Row(|db.tasks| - 1, made.value));
  }

  /** getTasksForProject: missing project 404, non-participant 403 (whatever
      the project's status); otherwise its tasks, oldest first. */
  function GetTasksForProject(projects: seq<Project>, tasks: seq<Task>, caller: Id, pid: Id)
    : (r: Result<seq<Row<Task>>>)
    ensures pid >= |projects| ==> r == Err(NotFound)
    ensures pid < |projects| && !IsParticipant(projects[pid], caller) ==> r == Err(Forbidden)
    ensures r.Ok? <==> pid < |projects| && IsParticipant(projects[pid], caller)
    ensures r.Ok? ==> Ascending(r.value)
    ensures r.Ok? ==> forall x :: x in r.value <==> x.id < |tasks| && tasks[x.id] == x.doc && x.doc.project == pid
  {
    if pid >= |projects| then Err(NotFound)
    else if !IsParticipant(projects[pid], caller) then Err(Forbidden)
    else Ok(Where(tasks, (t: Task) => t.project == pid))
  }

  /** updateTaskStatus: an unknown status 400, missing task 404, caller not a
      participant of the task's own project 403 (the project id in the URL
      plays no part); otherwise only the task's status changes, to any value
      from any value, whatever the project's status. */
  method UpdateTaskStatus(db: Db, caller: Caller, tid: Id, status: string) returns (r: Result<Task>)
    requires db.TasksValid()
    modifies db`tasks
    ensures db.TasksValid()
    ensures ParseTaskStatus(status).None? ==> r == Err(BadRequest)
    ensures ParseTaskStatus(status).Some? && tid >= |old(db.tasks)| ==> r == Err(NotFound)
    ensures (ParseTaskStatus(status).Some? && tid < |old(db.tasks)|
             && !IsParticipant(db.projects[old(db.tasks)[tid].project], caller.id)) ==> r == Err(Forbidden)
    ensures r.Ok? <==> ParseTaskStatus(status).Some? && tid < |old(db.tasks)|
                       && IsParticipant(db.projects[old(db.tasks)[tid].project], caller.id)
    ensures r.Err? ==> db.tasks == old(db.tasks)
    ensures r.Ok? ==> r.value == old(db.tasks)[tid].(status := ParseTaskStatus(status).value)
    ensures r.Ok? ==> db.tasks == old(db.tasks)[tid := r.value]
  {
    var s := ParseTaskStatus(status);
    if s.None? {
      return Err(BadRequest);
    }
    if tid >= |db.tasks| {
      return Err(NotFound);
    }
    var task := db.tasks[tid];
    if !IsParticipant(db.projects[task.project], caller.id) {
      return Err(Forbidden);
    }
    task := task.(status := s.value);
    db.tasks := db.tasks[tid := task];
    r := Ok(task);
  }
}
