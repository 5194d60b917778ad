/** Project routes (routes/projectRoute.js). Every handler runs behind the
    token gate and receives the decoded payload as `user`. */
module ProjectRoute {
  import opened Records
  import opened Database

  /** The row POST `/` creates: the owner is the authenticated caller, never
      a body field, and the status falls back to PLANNED. */
  function NewProject(id: Id, name: Option<string>, description: Option<string>, status: Option<string>,
                      owner: Id): (p: Project)
    ensures p.id == id && p.userId == owner && p.name == name && p.description == description
    ensures (status.None? || status == Some("")) ==> p.status == DefaultProjectStatus
    ensures (status.Some? && status.value != "") ==> p.status == status.value
  {
    Project(id, name, description, OrElse(status, DefaultProjectStatus), owner)
  }

  /** The project update: name, description and status, each kept when `undefined`. */
  function UpdatedProject(p: Project, name: Option<string>, description: Option<string>, status: Option<string>)
      : Project
  {
    p.(name := UpdatedOpt(p.name, name),
       description := UpdatedOpt(p.description, description),
       status := Updated(p.status, status))
  }

  /** An update keeps the id and the owner, writes each supplied field and
      keeps each omitted one; applying it a second time changes nothing more. */
  lemma UpdatedProjectFields(p: Project, name: Option<string>, description: Option<string>, status: Option<string>)
    ensures var q := UpdatedProject(p, name, description, status);
      && q.id == p.id && q.userId == p.userId
      && q.name == (if name.Some? then name else p.name)
      && q.description == (if description.Some? then description else p.description)
      && q.status == (if status.Some? then status.value else p.status)
      && UpdatedProject(q, name, description, status) == q
    ensures UpdatedProject(p, None, None, None) == p
  {
  }

  /** Project `id` exists and belongs to `caller`. */
  predicate OwnedBy(projects: map<Id, Project>, id: Id, caller: Id)
  {
    id in projects && projects[id].userId == caller
  }

  /** GET `/`: the caller's projects, each with its tasks. */
  function ListProjects(projects: map<Id, Project>, tasks: map<Id, Task>, caller: Id): (r: Response)
    ensures r.status == 200 && r.body.ProjectList?
    ensures forall id :: id in r.body.projects <==> OwnedBy(projects, id, caller)
    ensures forall id :: id in r.body.projects ==>
              id in projects && r.body.projects[id] == ProjectWithTasks(projects[id], TasksOf(tasks, id))
  {
    Response(200, ProjectList(
      map id | id in projects && projects[id].userId == caller :: ProjectWithTasks(projects[id], TasksOf(tasks, id))))
  }

  /** A project created by one user is listed for that user, with no tasks
      yet, and for nobody else. */
  lemma ListShowsOnlyOwnNewProject(projects: map<Id, Project>, tasks: map<Id, Task>, p: Project, other: Id)
    requires TasksHaveProjects(projects, tasks) && p.id !in projects
    requires other != p.userId
    ensures var listed := ListProjects(projects[p.id := p], tasks, p.userId).body.projects;
      p.id in listed && listed[p.id] == ProjectWithTasks(p, map[])
    ensures p.id !in ListProjects(projects[p.id := p], tasks, other).body.projects
  {
  }

  /** POST `/`. `newId` is the identifier the database's default assigns. */
  method CreateProject(db: Store, user: Claims, name: Option<string>, description: Option<string>,
                       status: Option<string>, newId: Id) returns (r: Response)
    requires db.Valid()
    modifies db
    ensures db.Valid()
    ensures db.users == old(db.users) && db.tasks == old(db.tasks)
    ensures
      if newId in old(db.projects) then
        r == Response(500, Message("Error creating project")) && db.projects == old(db.projects)
      else
        var p := NewProject(newId, name, description, status, user.userId);
        r == Response(201, ProjectJson(p)) && db.projects == old(db.projects)[newId := p]
  {
    if newId in db.projects {
      // the create violates the primary key and the catch answers 500
      return Response(500, Message("Error creating project"));
    }
    var project := NewProject(newId, name, description, status, user.userId);
    db.projects := db.projects[newId := project];
    r := Response(201, ProjectJson(project));
  }

  /** PUT `/:id`: only the owner may update; a missing project is refused
      the same way as someone else's. */
  method UpdateProject(db: Store, user: Claims, id: Id, name: Option<string>, description: Option<string>,
                       status: Option<string>) returns (r: Response)
    requires db.Valid()
    modifies db
    ensures db.Valid()
    ensures
      if !OwnedBy(old(db.projects), id, user.userId) then
        r == Response(403, Message("Unauthorized to update this project"))
        && unchanged(db)
      else
        var q := UpdatedProject(old(db.projects)[id], name, description, status);
        && r == Response(200, ProjectJson(q))
        && db.projects == old(db.projects)[id := q]
        && db.users == old(db.users) && db.tasks == old(db.tasks)
  {
    if id !in db.projects || db.projects[id].userId != user.userId {
      return Response(403, Message("Unauthorized to update this project"));
    }
    var updated := UpdatedProject(db.projects[id], name, description, status);
    db.projects := db.projects[id := updated];
    r := Response(200, ProjectJson(updated));
  }

  /** DELETE `/:id`: only the owner may delete; the project's tasks are
      deleted first, then the project. */
  method DeleteProject(db: Store, user: Claims, id: Id) returns (r: Response)
    requires db.Valid()
    modifies db
    ensures db.Valid()
    ensures
      if !OwnedBy(old(db.projects), id, user.userId) then
        r == Response(403, Message("Unauthorized to delete this project"))
        && unchanged(db)
      else
        && r == Response(200, Message("Project deleted successfully"))
        && db.tasks == TasksNotOf(old(db.tasks), id)
        && db.projects == old(db.projects) - {id}
        && db.users == old(db.users)
  {
    if id !in db.projects || db.projects[id].userId != user.userId {
      return Response(403, Message("Unauthorized to delete this project"));
    }
    db.tasks := TasksNotOf(db.tasks, id);
    db.projects := db.projects - {id};
    r := Response(200, Message("Project deleted successfully"));
  }

  /** POST `/:projectId/tasks`: the project must exist; whose it is is not checked. */
  method CreateTaskInProject(db: Store, user: Claims, projectId: Id, title: Option<string>,
                             description: Option<string>, status: Option<string>, assignedUserId: Option<Id>,
                             newId: Id) returns (r: Response)
    requires db.Valid()
    modifies db
    ensures db.Valid()
    ensures db.users == old(db.users) && db.projects == old(db.projects)
    ensures
      if projectId !in old(db.projects) then
        r == Response(404, Message("Project not found")) && db.tasks == old(db.tasks)
      else if newId in old(db.tasks) then
        r == Response(500, Message("Error creating task")) && db.tasks == old(db.tasks)
      else
        var t := NewTask(newId, title, description, status, projectId, assignedUserId);
        r == Response(201, TaskJson(t)) && db.tasks == old(db.tasks)[newId := t]
  {
    if projectId !in db.projects {
      return Response(404, Message("Project not found"));
    }
    if newId in db.tasks {
      // the create violates the primary key and the catch answers 500
      return Response(500, Message("Error creating task"));
    }
    var task := NewTask(newId, title, description, status, projectId, assignedUserId);
    db.tasks := db.tasks[newId := task];
    r := Response(201, TaskJson(task));
  }
}
