/**
 * The project handlers. A project is owned by the user owning its department's budget;
 * the route id is taken as a number (a non-numeric id is not modelled) and the
 * body's `departmentId` as an optional number. No project handler sends an event.
 */
module ProjectController {
  import opened Wrappers
  import Http
  import opened Hierarchy
  import opened Persistence
  import opened NodeHandlers

  /** `GET /projects`: the projects whose chain reaches a budget of the caller. */
  function GetAllProjects(db: Db, user: UserId): (r: map<Id, Project>)
    ensures forall p :: p in r <==> Authorize(db, user, ProjectKind, p) == Allow
    ensures forall p :: p in r ==> p in db.projects && r[p] == db.projects[p]
  {
    map p | p in db.projects && (var d := db.projects[p].departmentId; d in db.departments && db.departments[d].budgetId in db.budgets && db.budgets[db.departments[d].budgetId].userId == user) :: db.projects[p]
  }

  /** `GET /projects/:id`: 404 for a missing project, then 403 for someone else's. */
  function GetProjectById(db: Db, user: UserId, id: Id): (r: (int, Option<Project>))
    requires Linked(db)
    ensures r.0 == Http.NotFound <==> Authorize(db, user, ProjectKind, id) == Access.NotFound
    ensures r.0 == Http.Forbidden <==> Authorize(db, user, ProjectKind, id) == Access.Forbidden
    ensures r.0 == Http.OK <==> Authorize(db, user, ProjectKind, id) == Allow
    ensures r.1.Some? <==> r.0 == Http.OK
    ensures r.1.Some? ==> r.1.value == db.projects[id]
  {
    if id !in db.projects then (Http.NotFound, None)
    else if db.budgets[db.departments[db.projects[id].departmentId].budgetId].userId != user then (Http.Forbidden, None)
    else (Http.OK, Some(db.projects[id]))
  }

  method CreateProject(s: Store, user: UserId, name: Option<string>, departmentId: Option<Id>) returns (status: int)
    requires s.Valid()
    modifies s
    ensures s.Valid() && s.events == old(s.events)
    ensures var r := CreateChildReply(old(s.Snapshot()), user, ProjectKind, name, departmentId, old(s.nextProjectId));
      status == r.status && s.Snapshot() == r.db
  {
    if !Http.Given(name) || !Http.GivenId(departmentId) {
      return Http.BadRequest;
    }
    if departmentId.value !in s.departments || s.budgets[s.departments[departmentId.value].budgetId].userId != user {
      return Http.Forbidden;
    }
    var id := s.InsertProject(Project(name.value, departmentId.value));
    return Http.Created;
  }

  method UpdateProject(s: Store, user: UserId, id: Id, name: Option<string>) returns (status: int)
    requires s.Valid()
    modifies s
    ensures s.Valid() && s.events == old(s.events)
    ensures var r := UpdateNameReply(old(s.Snapshot()), user, ProjectKind, id, name);
      status == r.status && s.Snapshot() == r.db
  {
    if !Http.Given(name) {
      return Http.BadRequest;
    }
    if id !in s.projects {
      return Http.NotFound;
    }
    if s.budgets[s.departments[s.projects[id].departmentId].budgetId].userId != user {
      return Http.Forbidden;
    }
    s.SetName(ProjectKind, id, name.value);
    return Http.OK;
  }

  method DeleteProject(s: Store, user: UserId, id: Id) returns (status: int)
    requires s.Valid()
    modifies s
    ensures s.Valid() && s.events == old(s.events)
    ensures var r := DeleteNodeReply(old(s.Snapshot()), user, ProjectKind, id);
      status == r.status && s.Snapshot() == r.db
  {
    if id !in s.projects {
      return Http.NotFound;
    }
    if s.budgets[s.departments[s.projects[id].departmentId].budgetId].userId != user {
      return Http.Forbidden;
    }
    if HasChildren(s.Snapshot(), ProjectKind, id) {
      return Http.ServerError;
    }
    s.Remove(ProjectKind, id);
    return Http.NoContent;
  }
}
