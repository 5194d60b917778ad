# Project-management backend: route handlers and token gate

A Dafny model of the request handling of a small Express backend for
projects and tasks. The backend keeps three tables (users, projects and
tasks) behind a Prisma client, and puts a bearer-token middleware in front of
every project and task route. The model keeps the three tables as one
in-memory store: a class `Database.Store` with a `map<Id, _>` field per
table. Its invariant `Valid()` says that:

- every row is keyed by its own id;
- e-mails are unique (the database's unique constraint);
- every task's parent project exists.

Every handler is modelled as the source writes it:

- A handler that writes to the store is a method. It takes the store and the
  request fields. The project and task handlers also take the decoded token
  payload `req.user`. The account handlers take none, because the account
  routes have no gate in front of them. It returns the status code
  with the JSON body, and its `ensures` state the whole new store.
- A read-only handler is a function over the tables.

The libraries the routes call are function values gathered in
`External.Services`: the e-mail validator, `bcrypt.hash`, `bcrypt.compare`,
`jwt.sign` and `jwt.verify`. Their internals are not modelled. The few facts
the routes rely on are predicates over them (`HashSound`, `TokensSound`), and only the lemmas that need one take it as a hypothesis.

Modules:

- `Records` (records.dfy): rows, token payload, responses. It also holds the
  JavaScript `x || d` default and the Prisma rule that an `undefined` update
  field leaves its column as it is.
- `External` (external.dfy): the library functions and the 24-hour token
  lifetime.
- `Database` (database.dfy): the store, its invariant, and the lookups the
  routes share.
- `JwtMiddleware`, `Auth`, `ProjectRoute`, `TaskRoute`: one module per route
  file.

Values the database or the environment supplies become parameters:

- `newId` is the id the column default assigns. If it collides with an
  existing row, the create breaks the primary key and the catch block answers
  500 with the store unchanged.
- `now` is the clock, in seconds.

Where the documented design and the code disagree, the model follows the code:

- Register answers 201 with the whole created row. That row includes the
  password digest, although the design says the digest is never returned.
- Updating or deleting a project that does not exist answers 403, the same
  as someone else's project, not 404.
- Nothing checks ownership when a task is created under a project, or when a
  task is updated or deleted.

## Model

| member | source | states |
|---|---|---|
| `JwtMiddleware.IndexFrom` | routes/jwtMiddleware.js:9 | the result is the first index at or after `from` where the pattern occurs, or None when it occurs nowhere after `from` |
| `JwtMiddleware.ReplaceFirst` | routes/jwtMiddleware.js:9 | `replace` with a string pattern removes only the first occurrence; a string without the pattern comes back unchanged |
| `JwtMiddleware.StripBearerOfPrefixed` | routes/jwtMiddleware.js:9 | a header `"Bearer " + t` becomes exactly `t` after the prefix is stripped |
| `JwtMiddleware.Gate` | routes/jwtMiddleware.js:4-15 | every header ends in exactly one of three outcomes: 401 iff the header is missing or empty; 400 iff the stripped token fails verification; otherwise `next` with the decoded payload |
| `JwtMiddleware.GateIgnoresBearerPrefix` | routes/jwtMiddleware.js:9 | a non-empty token without `"Bearer "` in it gets the same outcome with or without the prefix |
| `JwtMiddleware.Authenticate` | routes/jwtMiddleware.js:4-15 | on reject, the response is sent, `req.user` is not touched and `next` is not called; on success, `req.user` is the decoded payload, nothing is sent and `next` is called |
| `Auth.RegisterErrors` | routes/auth.js:13-20 | there are no validation errors iff the name is non-empty, the e-mail is valid and the password has at least 6 characters |
| `Auth.LoginErrors` | routes/auth.js:47-53 | there are no validation errors iff the e-mail is valid and the password is non-empty |
| `Auth.NewUser` | routes/auth.js:29-35 | the stored password is `hash(password)` |
| `Auth.AddingFreshEmailKeepsUnique` | routes/auth.js:26-35 | adding a user whose e-mail is not yet taken keeps e-mails unique and rows keyed by id |
| `Auth.Register` | routes/auth.js:11-42 | invalid input gives 400 with the error list; a taken e-mail gives 400 "User already exists"; in both cases the user table is unchanged. If the id the database assigns is already taken, the answer is 500 "Server error" with the table unchanged. Otherwise exactly one user is added, with the hashed password, and the answer is 201. Projects and tasks never change |
| `Auth.Login` | routes/auth.js:45-74 | the answer is 200 iff the input is valid and a user with that e-mail matches the password, and then it carries that user's id and a token signed over that id with a 24-hour expiry. Invalid input gives 400 with the validation errors, before any lookup; every other failure gives 400 "Invalid credentials". As a function of the user table, login cannot change it |
| `Auth.LoginHidesWhichCheckFailed` | routes/auth.js:59-64 | an unknown e-mail and a wrong password for a known e-mail get the identical 400 "Invalid credentials" response |
| `Auth.LoginAfterRegister` | routes/auth.js:30-69 | after a successful register, logging in with the same e-mail and password returns 200 with the new user's id and token |
| `Auth.WrongPasswordAfterRegister` | routes/auth.js:63-64 | after a register, a non-empty password that `compare` does not match against the stored digest is refused with "Invalid credentials", the same answer as an unknown e-mail |
| `Auth.LoginTokenOpensGate` | routes/auth.js:67-69 | with the `Bearer ` prefix, the token from login passes the gate as the logged-in user's payload until 24 hours after issue, and gets 400 "Invalid token" from then on |
| `External.IssueClaims` | routes/auth.js:67 | the signed payload carries the user id, is issued at `now` (the signing time) and expires `TokenLifetime` (24 h) after `now` |
| `Database.FindUserByEmail` | routes/auth.js:59 | a user is found iff one has that e-mail, and it is that user's row |
| `Database.NewTask` | routes/task.js:17-25 | a new task stores the given project and assignee; its status is TODO when none or "" is supplied, else the supplied one |
| `Database.CascadeSplitsTasks` | routes/projectRoute.js:76-77 | after the cascade, the project has no tasks left, every task of another project is untouched, and the two parts make up the old table |
| `ProjectRoute.NewProject` | routes/projectRoute.js:9-18 | the owner is the caller's `userId`; the status is PLANNED when none or "" is supplied, else the supplied one |
| `ProjectRoute.CreateProject` | routes/projectRoute.js:8-25 | if the id the database assigns is already taken, the answer is 500 with the project table unchanged; otherwise exactly that project, owned by the caller, is added and returned with 201. Users and tasks never change |
| `ProjectRoute.ListProjects` | routes/projectRoute.js:28-38 | the answer lists exactly the caller's projects, each with exactly its tasks |
| `ProjectRoute.ListShowsOnlyOwnNewProject` | routes/projectRoute.js:30-33 | a newly created project is listed for its owner, with no tasks, and for no other user |
| `ProjectRoute.UpdatedProjectFields` | routes/projectRoute.js:53-56 | an update keeps `id` and `userId`, writes each supplied field and keeps each `undefined` one; it is idempotent, and the empty update changes nothing |
| `ProjectRoute.UpdateProject` | routes/projectRoute.js:41-62 | a missing project or one owned by someone else gives 403 with the store unchanged; otherwise only that project changes, and the answer carries the updated row |
| `ProjectRoute.DeleteProject` | routes/projectRoute.js:65-83 | a missing project or one owned by someone else gives 403 with the store unchanged; otherwise the project and exactly its tasks are removed, and nothing else changes |
| `ProjectRoute.CreateTaskInProject` | routes/projectRoute.js:88-113 | a missing project gives 404 with no task created; an id the database assigns that is already taken gives 500 with the task table unchanged; otherwise exactly one task is added under that project, whoever owns it |
| `TaskRoute.CreateTask` | routes/task.js:8-32 | an absent `projectId` gives 500, a missing project gives 404, and an id the database assigns that is already taken gives 500, all with the task table unchanged; otherwise exactly one task is added |
| `TaskRoute.ListProjectTasks` | routes/task.js:35-47 | the answer lists exactly the tasks whose `projectId` matches |
| `TaskRoute.CreatedTaskIsListed` | routes/task.js:39-41 | a task created under a project joins that project's task list, next to the tasks it already had |
| `TaskRoute.GetTask` | routes/task.js:50-61 | 200 with the row iff the task exists, else 404 "Task not found" |
| `TaskRoute.UpdatedTaskFields` | routes/task.js:72-75 | an update keeps `id` and `projectId`, writes each supplied field and keeps each `undefined` one; it is idempotent |
| `TaskRoute.UpdateTask` | routes/task.js:64-81 | a missing task gives 404 with the store unchanged; otherwise only that task changes |
| `TaskRoute.DeleteTask` | routes/task.js:84-97 | a missing task gives 404 with the store unchanged; otherwise exactly that one task is removed |
| `TaskRoute.GetAfterDelete` | routes/task.js:88-91 | after a delete, that task reads as 404 and every other task reads as before |
| `TaskRoute.ToUpper` | routes/task.js:106 | upper-casing keeps the length and maps each character on its own |
| `TaskRoute.ToUpperIdempotent` | routes/task.js:106 | upper-casing twice is upper-casing once |
| `TaskRoute.FilterTasks` | routes/task.js:100-115 | a task is listed iff its status equals the upper-cased `status` parameter and its assignee equals `assignedUserId`; an absent or empty parameter constrains nothing |
| `TaskRoute.FilterWithoutParametersListsAll` | routes/task.js:104-108 | with neither parameter, or with both empty, every task is returned |
| `TaskRoute.FilterIgnoresStatusCase` | routes/task.js:106 | the filter answers the same for a status parameter and its upper-cased form |
| `TaskRoute.LowercaseStatusNeverMatches` | routes/task.js:106 | a task stored with a lower-case letter in its status is never found by a status filter |

## Left out

- server.js (bootstrap, CORS, JSON body parsing, mounting the routers, `listen`) is plumbing and is not part of this model.
- The second GET `/` registration (routes/task.js:120-135) has the same body as the first. Express runs the first matching handler, which always responds, so the second is never reached; `TaskRoute.FilterTasks` models both.
- The gate and a handler are not composed into one route: each handler takes the decoded payload `req.user` as a parameter.
- bcrypt internals and the random salt: `hash` is a deterministic function value, and `compare` is related to it only by the `HashSound` hypothesis. The model does not say which other passwords bcrypt rejects. bcrypt reads only the first 72 bytes of a password, so two passwords that agree on those bytes match the same digest.
- Auth.WrongPasswordAfterRegister: takes as a hypothesis that `compare` rejects the other password against the stored digest, instead of promising that every different password is refused. With bcrypt, a password that agrees with the registered one on its first 72 bytes is accepted.
- JSON Web Token signing, the secret and the signature check: `sign` and `verify` are function values, and `TokensSound` is the only assumption about them.
- express-validator's `isEmail` is a function value. Lengths are counted in Unicode scalar values; the validator's special treatment of variation selectors is not modelled. An absent register or login field is validated as the empty string, as the validator does.
- `toUpperCase` maps only the ASCII letters; Unicode case mapping (which can change a string's length) is not modelled.
- The database schema is not part of this model. The model stores whatever the handler passes, so these are not checked: the enum membership of `status`, required columns, the foreign keys on `assignedUserId` and on a project's `userId`, and JSON `null` or non-string body values.
- Repeated query parameters: `?status=a&status=b` makes `status` an array, so `toUpperCase` throws and GET `/` answers 500 "Error filtering tasks". The model's `Option<string>` parameters cannot express an array.
- 500 answers from failing database calls, `console.error` logging and the `error` field of 500 bodies are not modelled. The 500 answers that are modelled are an id collision on create and a task create without `projectId`; both leave the store unchanged.
- Concurrency and the register check-then-create race: the store is sequential.
- The order of `findMany` results: lists are maps keyed by id.
- `req.header` name matching, and a throw from `next` that the middleware's catch would turn into a 400, are not modelled.
- `Auth.Login` requires the user table to be keyed by id with unique e-mails, which the store's invariant and the database's unique constraint guarantee; it is not defined on other tables.
