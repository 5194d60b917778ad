/** The three tables as one in-memory store, with the lookups the routes make. */
module Database {
  import opened Records

  /** Every row is stored under its own id. */
  ghost predicate UsersKeyed(users: map<Id, User>)
  {
    forall id :: id in users ==> users[id].id == id
  }

  /** The unique constraint on `User.email`. */
  ghost predicate EmailsUnique(users: map<Id, User>)
  {
    forall a, b :: a in users && b in users && users[a].email == users[b].email ==> a == b
  }

  ghost predicate UsersWellFormed(users: map<Id, User>)
  {
    UsersKeyed(users) && EmailsUnique(users)
  }

  /** Every task's parent project exists (the foreign key from `Task.projectId`). */
  ghost predicate TasksHaveProjects(projects: map<Id, Project>, tasks: map<Id, Task>)
  {
    forall t :: t in tasks ==> tasks[t].projectId in projects
  }

  ghost predicate Consistent(users: map<Id, User>, projects: map<Id, Project>, tasks: map<Id, Task>)
  {
    && UsersWellFormed(users)
    && (forall id :: id in projects ==> projects[id].id == id)
    && (forall id :: id in tasks ==> tasks[id].id == id)
    && TasksHaveProjects(projects, tasks)
  }

  /** Some user row has this e-mail. */
  predicate EmailTaken(users: map<Id, User>, email: string)
  {
    exists id :: id in users && users[id].email == email
  }

  /** The unique lookup of a user by e-mail. */
  function FindUserByEmail(users: map<Id, User>, email: string): (r: Option<User>)
    requires UsersWellFormed(users)
    ensures r.Some? <==> EmailTaken(users, email)
    ensures r.Some? ==> r.value.id in users && users[r.value.id] == r.value && r.value.email == email
  {
    if EmailTaken(users, email) then
      var id :| id in users && users[id].email == email;
      Some(users[id])
    else
      None
  }

  /** The row both task-creating routes insert: the status falls back to TODO. */
  function NewTask(id: Id, title: Option<string>, description: Option<string>, status: Option<string>,
                   projectId: Id, assignedUserId: Option<Id>): (t: Task)
    ensures t.id == id && t.projectId == projectId && t.assignedUserId == assignedUserId
    ensures t.title == title && t.description == description
    ensures (status.None? || status == Some("")) ==> t.status == DefaultTaskStatus
    ensures (status.Some? && status.value != "") ==> t.status == status.value
  {
    Task(id, title, description, OrElse(status, DefaultTaskStatus), projectId, assignedUserId)
  }

  /** The tasks of one project, keyed by task id. */
  function TasksOf(tasks: map<Id, Task>, projectId: Id): map<Id, Task>
  {
    map id | id in tasks && tasks[id].projectId == projectId :: tasks[id]
  }

  /** What remains of the task table after deleting one project's tasks. */
  function TasksNotOf(tasks: map<Id, Task>, projectId: Id): map<Id, Task>
  {
    map id | id in tasks && tasks[id].projectId != projectId :: tasks[id]
  }

  /** Cascading a project delete splits the task table in two: the deleted
      project keeps no task, and every other task stays as it was. */
  lemma CascadeSplitsTasks(tasks: map<Id, Task>, projectId: Id)
    ensures TasksOf(TasksNotOf(tasks, projectId), projectId) == map[]
    ensures forall t :: t in tasks && tasks[t].projectId != projectId ==>
              t in TasksNotOf(tasks, projectId) && TasksNotOf(tasks, projectId)[t] == tasks[t]
    ensures TasksNotOf(tasks, projectId).Keys + TasksOf(tasks, projectId).Keys == tasks.Keys
    ensures TasksNotOf(tasks, projectId).Keys !! TasksOf(tasks, projectId).Keys
  {
  }

  /** The store behind the Prisma client. */
  class Store {
    var users: map<Id, User>
    var projects: map<Id, Project>
    var tasks: map<Id, Task>

    ghost predicate Valid()
      reads this
    {
      Consistent(users, projects, tasks)
    }

    constructor ()
      ensures Valid()
      ensures users == map[] && projects == map[] && tasks == map[]
    {
      users, projects, tasks := map[], map[], map[];
    }
  }
}
