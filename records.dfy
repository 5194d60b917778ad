/** Rows of the three tables (users, projects, tasks), the session-token
    payload, and the JSON responses the route handlers send. */
module Records {

  datatype Option<+T> = None | Some(value: T)

  /** Row identifiers are strings: route parameters reach the database as they are. */
  type Id = string

  /** A user row; `password` holds the bcrypt digest, never the plain text. */
  datatype User = User(id: Id, name: string, email: string, password: string)

  /** A project row; `userId` is the owner. Text columns the client may omit are optional. */
  datatype Project = Project(
    id: Id,
    name: Option<string>,
    description: Option<string>,
    status: string,
    userId: Id)

  /** A task row; `projectId` is the parent project. */
  datatype Task = Task(
    id: Id,
    title: Option<string>,
    description: Option<string>,
    status: string,
    projectId: Id,
    assignedUserId: Option<Id>)

  /** The decoded token payload: the signed `{ userId }` plus the issue and
      expiry times (in seconds) that the token library adds. */
  datatype Claims = Claims(userId: Id, iat: int, exp: int)

  /** A project as listed, with its tasks included. */
  datatype ProjectWithTasks = ProjectWithTasks(project: Project, tasks: map<Id, Task>)

  /** The JSON body of a response. */
  datatype Body =
    | Message(text: string)
    | ValidationErrors(messages: seq<string>)
    | Registered(message: string, user: User)
    | LoggedIn(token: string, userId: Id)
    | ProjectJson(project: Project)
    | ProjectList(projects: map<Id, ProjectWithTasks>)
    | TaskJson(task: Task)
    | TaskList(tasks: map<Id, Task>)

  /** An HTTP status code with its JSON body. */
  datatype Response = Response(status: nat, body: Body)

  const DefaultProjectStatus: string := "PLANNED"
  const DefaultTaskStatus: string := "TODO"

  /** JavaScript `field || fallback` on a body field: an absent field and the
      empty string are both falsy. */
  function OrElse(field: Option<string>, fallback: string): string
  {
    if field.Some? && field.value != "" then field.value else fallback
  }

  /** JavaScript `field || undefined`: the empty string counts as absent. */
  function Truthy(field: Option<string>): Option<string>
  {
    if field.Some? && field.value != "" then field else None
  }

  /** A data field of a Prisma `update`: `undefined` leaves the column as it is. */
  function Updated<T>(current: T, field: Option<T>): T
  {
    if field.Some? then field.value else current
  }

  /** The same for a nullable column. */
  function UpdatedOpt<T>(current: Option<T>, field: Option<T>): Option<T>
  {
    if field.Some? then field else current
  }
}
