/**
 * The department handlers. A department is owned by the user owning its budget;
 * the route id is taken as a number (a non-numeric id is not modelled) and the
 * body's `budgetId` as an optional number. No department handler sends an event.
 */
module DepartmentController {
  import opened Wrappers
  import Http
  import opened Hierarchy
  import opened Persistence
  import opened NodeHandlers

  /** `GET /departments`: the departments whose chain reaches a budget of the caller. */
  function GetAllDepartments(db: Db, user: UserId): (r: map<Id, Department>)
    ensures forall d :: d in r <==> Authorize(db, user, DepartmentKind, d) == Allow
    ensures forall d :: d in r ==> d in db.departments && r[d] == db.departments[d]
  {
    map d | d in db.departments && (db.departments[d].budgetId in db.budgets && db.budgets[db.departments[d].budgetId].userId == user) :: db.departments[d]
  }

  /** `GET /departments/:id`: 404 for a missing department, then 403 for someone else's. */
  function GetDepartmentById(db: Db, user: UserId, id: Id): (r: (int, Option<Department>))
    requires Linked(db)
    ensures r.0 == Http.NotFound <==> Authorize(db, user, DepartmentKind, id) == Access.NotFound
    ensures r.0 == Http.Forbidden <==> Authorize(db, user, DepartmentKind, id) == Access.Forbidden
    ensures r.0 == Http.OK <==> Authorize(db, user, DepartmentKind, id) == Allow
    ensures r.1.Some? <==> r.0 == Http.OK
    ensures r.1.Some? ==> r.1.value == db.departments[id]
  {
    if id !in db.departments then (Http.NotFound, None)
    else if db.budgets[db.departments[id].budgetId].userId != user then (Http.Forbidden, None)
    else (Http.OK, Some(db.departments[id]))
  }

  method CreateDepartment(s: Store, user: UserId, name: Option<string>, budgetId: Option<Id>) returns (status: int)
    requires s.Valid()
    modifies s
    ensures s.Valid() && s.events == old(s.events)
    ensures var r := CreateChildReply(old(s.Snapshot()), user, DepartmentKind, name, budgetId, old(s.nextDepartmentId));
      status == r.status && s.Snapshot() == r.db
  {
    if !Http.Given(name) || !Http.GivenId(budgetId) {
      return Http.BadRequest;
    }
    if budgetId.value !in s.budgets || s.budgets[budgetId.value].userId != user {
      return Http.Forbidden;
    }
    var id := s.InsertDepartment(Department(name.value, budgetId.value));
    return Http.Created;
  }

  method UpdateDepartment(s: Store, user: UserId, id: Id, name: Option<string>) returns (status: int)
    requires s.Valid()
    modifies s
    ensures s.Valid() && s.events == old(s.events)
    ensures var r := UpdateNameReply(old(s.Snapshot()), user, DepartmentKind, id, name);
      status == r.status && s.Snapshot() == r.db
  {
    if !Http.Given(name) {
      return Http.BadRequest;
    }
    if id !in s.departments {
      return Http.NotFound;
    }
    if s.budgets[s.departments[id].budgetId].userId != user {
      return Http.Forbidden;
    }
    s.SetName(DepartmentKind, id, name.value);
    return Http.OK;
  }

  method DeleteDepartment(s: Store, user: UserId, id: Id) returns (status: int)
    requires s.Valid()
    modifies s
    ensures s.Valid() && s.events == old(s.events)
    ensures var r := DeleteNodeReply(old(s.Snapshot()), user, DepartmentKind, id);
      status == r.status && s.Snapshot() == r.db
  {
    if id !in s.departments {
      return Http.NotFound;
    }
    if s.budgets[s.departments[id].budgetId].userId != user {
      return Http.Forbidden;
    }
    if HasChildren(s.Snapshot(), DepartmentKind, id) {
      return Http.ServerError;
    }
    s.Remove(DepartmentKind, id);
    return Http.NoContent;
  }
}
