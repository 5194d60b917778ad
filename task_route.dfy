/** Task routes (routes/task.js). Every handler runs behind the token gate
    and receives the decoded payload as `user`, which none of them reads. */
module TaskRoute {
  import opened Records
  import opened Database

  /** `c.toUpperCase()` on the ASCII letters. */
  function UpperChar(c: char): char
  {
    if 'a' <= c <= 'z' then (c as int - 'a' as int + 'A' as int) as char else c
  }

  /** `s.toUpperCase()`. */
  function ToUpper(s: string): (r: string)
    ensures |r| == |s|
    ensures forall i :: 0 <= i < |s| ==> r[i] == UpperChar(s[i])
  {
    seq(|s|, i requires 0 <= i < |s| => UpperChar(s[i]))
  }

  /** Upper-casing twice is upper-casing once. */
  lemma ToUpperIdempotent(s: string)
    ensures ToUpper(ToUpper(s)) == ToUpper(s)
  {
  }

  /** The `where` of `prisma.task.findMany`; None is `undefined`, no filter. */
  datatype TaskWhere = TaskWhere(status: Option<string>, assignedUserId: Option<Id>)

  predicate Satisfies(t: Task, where: TaskWhere)
  {
    && (where.status.None? || t.status == where.status.value)
    && (where.assignedUserId.None? || t.assignedUserId == where.assignedUserId)
  }

  /** `prisma.task.findMany({ where })`, keyed by task id. */
  function FindMany(tasks: map<Id, Task>, where: TaskWhere): map<Id, Task>
  {
    map id | id in tasks && Satisfies(tasks[id], where) :: tasks[id]
  }

  /** The `where` built from the query string: a non-empty `status` is
      upper-cased, and an absent or empty parameter becomes no filter. */
  function FilterWhere(status: Option<string>, assignedUserId: Option<string>): TaskWhere
  {
    TaskWhere(if status.Some? && status.value != "" then Some(ToUpper(status.value)) else None,
              Truthy(assignedUserId))
  }

  /** GET `/`: the tasks whose status is the upper-cased `status` and whose
      assignee is `assignedUserId`; an absent or empty parameter does not constrain. */
  function FilterTasks(tasks: map<Id, Task>, status: Option<string>, assignedUserId: Option<string>): (r: Response)
    ensures r.status == 200 && r.body.TaskList?
    ensures forall id :: id in r.body.tasks <==>
              && id in tasks
              && (status.None? || status.value == "" || tasks[id].status == ToUpper(status.value))
              && (assignedUserId.None? || assignedUserId.value == "" || tasks[id].assignedUserId == assignedUserId)
    ensures forall id :: id in r.body.tasks ==> id in tasks && r.body.tasks[id] == tasks[id]
  {
    Response(200, TaskList(FindMany(tasks, FilterWhere(status, assignedUserId))))
  }

  /** With neither parameter, or with both empty, every task is returned. */
  lemma FilterWithoutParametersListsAll(tasks: map<Id, Task>, status: Option<string>, assignedUserId: Option<string>)
    requires status.None? || status == Some("")
    requires assignedUserId.None? || assignedUserId == Some("")
    ensures FilterTasks(tasks, status, assignedUserId).body.tasks == tasks
  {
  }

  /** The status parameter is matched case-insensitively. */
  lemma FilterIgnoresStatusCase(tasks: map<Id, Task>, status: string, assignedUserId: Option<string>)
    ensures FilterTasks(tasks, Some(status), assignedUserId) == FilterTasks(tasks, Some(ToUpper(status)), assignedUserId)
  {
  }

  /** A task stored with a lower-case letter in its status is never found by
      a status filter, whatever the parameter's case. */
  lemma LowercaseStatusNeverMatches(tasks: map<Id, Task>, id: Id, status: string, assignedUserId: Option<string>,
                                    i: int)
    requires id in tasks && 0 <= i < |tasks[id].status| && 'a' <= tasks[id].status[i] <= 'z'
    requires status != ""
    ensures id !in FilterTasks(tasks, Some(status), assignedUserId).body.tasks
  {
  }

  /** GET `/project/:projectId`: the tasks of that project. */
  function ListProjectTasks(tasks: map<Id, Task>, projectId: Id): (r: Response)
    ensures r.status == 200 && r.body.TaskList?
    ensures forall id :: id in r.body.tasks <==> id in tasks && tasks[id].projectId == projectId
    ensures forall id :: id in r.body.tasks ==> id in tasks && r.body.tasks[id] == tasks[id]
  {
    Response(200, TaskList(TasksOf(tasks, projectId)))
  }

  /** A task created under a project is listed for that project, next to
      the ones it already had. */
  lemma CreatedTaskIsListed(tasks: map<Id, Task>, t: Task)
    requires t.id !in tasks
    ensures ListProjectTasks(tasks[t.id := t], t.projectId).body.tasks
            == ListProjectTasks(tasks, t.projectId).body.tasks[t.id := t]
  {
  }

  /** GET `/:taskId`. */
  function GetTask(tasks: map<Id, Task>, taskId: Id): (r: Response)
    ensures r.status in {200, 404}
    ensures r.status == 200 <==> taskId in tasks
    ensures taskId in tasks ==> r.body == TaskJson(tasks[taskId])
    ensures taskId !in tasks ==> r.body == Message("Task not found")
  {
    if taskId !in tasks then Response(404, Message("Task not found"))
    else Response(200, TaskJson(tasks[taskId]))
  }

  /** The task update: title, description, status and assignee, each kept when `undefined`. */
  function UpdatedTask(t: Task, title: Option<string>, description: Option<string>, status: Option<string>,
                       assignedUserId: Option<Id>): Task
  {
    t.(title := UpdatedOpt(t.title, title),
       description := UpdatedOpt(t.description, description),
       status := Updated(t.status, status),
       assignedUserId := UpdatedOpt(t.assignedUserId, assignedUserId))
  }

  /** An update keeps the id and the parent project, writes each supplied
      field and keeps each omitted one; applying it twice is applying it once. */
  lemma UpdatedTaskFields(t: Task, title: Option<string>, description: Option<string>, status: Option<string>,
                          assignedUserId: Option<Id>)
    ensures var u := UpdatedTask(t, title, description, status, assignedUserId);
      && u.id == t.id && u.projectId == t.projectId
      && u.title == (if title.Some? then title else t.title)
      && u.description == (if description.Some? then description else t.description)
      && u.status == (if status.Some? then status.value else t.status)
      && u.assignedUserId == (if assignedUserId.Some? then assignedUserId else t.assignedUserId)
      && UpdatedTask(u, title, description, status, assignedUserId) == u
    ensures UpdatedTask(t, None, None, None, None) == t
  {
  }

  /** POST `/`: the project named in the body must exist. An absent
      `projectId` makes the lookup throw, which the catch answers with 500. */
  method CreateTask(db: Store, user: Claims, title: Option<string>, description: Option<string>,
                    status: Option<string>, assignedUserId: Option<Id>, projectId: Option<Id>, newId: Id)
      returns (r: Response)
    requires db.Valid()
    modifies db
    ensures db.Valid()
    ensures db.users == old(db.users) && db.projects == old(db.projects)
    ensures
      if projectId.None? then
        r == Response(500, Message("Error creating task")) && db.tasks == old(db.tasks)
      else if projectId.value !in old(db.projects) then
        r == Response(404, Message("Project not found")) && db.tasks == old(db.tasks)
      else if newId in old(db.tasks) then
        r == Response(500, Message("Error creating task")) && db.tasks == old(db.tasks)
      else
        var t := NewTask(newId, title, description, status, projectId.value, assignedUserId);
        r == Response(201, TaskJson(t)) && db.tasks == old(db.tasks)[newId := t]
  {
    if projectId.None? {
      return Response(500, Message("Error creating task"));
    }
    if projectId.value !in db.projects {
      return Response(404, Message("Project not found"));
    }
    if newId in db.tasks {
      // the create violates the primary key and the catch answers 500
      return Response(500, Message("Error creating task"));
    }
    var task := NewTask(newId, title, description, status, projectId.value, assignedUserId);
    db.tasks := db.tasks[newId := task];
    r := Response(201, TaskJson(task));
  }

  /** PUT `/:taskId`. */
  method UpdateTask(db: Store, user: Claims, taskId: Id, title: Option<string>, description: Option<string>,
                    status: Option<string>, assignedUserId: Option<Id>) returns (r: Response)
    requires db.Valid()
    modifies db
    ensures db.Valid()
    ensures
      if taskId !in old(db.tasks) then
        r == Response(404, Message("Task not found")) && unchanged(db)
      else
        var u := UpdatedTask(old(db.tasks)[taskId], title, description, status, assignedUserId);
        && r == Response(200, TaskJson(u))
        && db.tasks == old(db.tasks)[taskId := u]
        && db.users == old(db.users) && db.projects == old(db.projects)
  {
    if taskId !in db.tasks {
      return Response(404, Message("Task not found"));
    }
    var updated := UpdatedTask(db.tasks[taskId], title, description, status, assignedUserId);
    db.tasks := db.tasks[taskId := updated];
    r := Response(200, TaskJson(updated));
  }

  /** DELETE `/:taskId`. */
  method DeleteTask(db: Store, user: Claims, taskId: Id) returns (r: Response)
    requires db.Valid()
    modifies db
    ensures db.Valid()
    ensures
      if taskId !in old(db.tasks) then
        r == Response(404, Message("Task not found")) && unchanged(db)
      else
        && r == Response(200, Message("Task deleted successfully"))
        && db.tasks == old(db.tasks) - {taskId}
        && db.users == old(db.users) && db.projects == old(db.projects)
  {
    if taskId !in db.tasks {
      return Response(404, Message("Task not found"));
    }
    db.tasks := db.tasks - {taskId};
    r := Response(200, Message("Task deleted successfully"));
  }

  /** After a delete the task is gone and every other task reads as before. */
  lemma GetAfterDelete(tasks: map<Id, Task>, taskId: Id, other: Id)
    requires other != taskId
    ensures GetTask(tasks - {taskId}, taskId).status == 404
    ensures GetTask(tasks - {taskId}, other) == GetTask(tasks, other)
  {
  }
}
