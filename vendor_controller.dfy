/**
 * The vendor handlers. A vendor is owned by the user owning its project's department's budget;
 * the route id is taken as a number (a non-numeric id is not modelled) and the
 * body's `projectId` as an optional number. No vendor handler sends an event.
 */
module VendorController {
  import opened Wrappers
  import Http
  import opened Hierarchy
  import opened Persistence
  import opened NodeHandlers

  /** `GET /vendors`: the vendors whose chain reaches a budget of the caller. */
  function GetAllVendors(db: Db, user: UserId): (r: map<Id, Vendor>)
    ensures forall v :: v in r <==> Authorize(db, user, VendorKind, v) == Allow
    ensures forall v :: v in r ==> v in db.vendors && r[v] == db.vendors[v]
  {
    map v | v in db.vendors && (var p := db.vendors[v].projectId; p in db.projects && var d := db.projects[p].departmentId; d in db.departments && db.departments[d].budgetId in db.budgets && db.budgets[db.departments[d].budgetId].userId == user) :: db.vendors[v]
  }

  /** `GET /vendors/:id`: 404 for a missing vendor, then 403 for someone else's. */
  function GetVendorById(db: Db, user: UserId, id: Id): (r: (int, Option<Vendor>))
    requires Linked(db)
    ensures r.0 == Http.NotFound <==> Authorize(db, user, VendorKind, id) == Access.NotFound
    ensures r.0 == Http.Forbidden <==> Authorize(db, user, VendorKind, id) == Access.Forbidden
    ensures r.0 == Http.OK <==> Authorize(db, user, VendorKind, id) == Allow
    ensures r.1.Some? <==> r.0 == Http.OK
    ensures r.1.Some? ==> r.1.value == db.vendors[id]
  {
    if id !in db.vendors then (Http.NotFound, None)
    else if db.budgets[db.departments[db.projects[db.vendors[id].projectId].departmentId].budgetId].userId != user then (Http.Forbidden, None)
    else (Http.OK, Some(db.vendors[id]))
  }

  method CreateVendor(s: Store, user: UserId, name: Option<string>, projectId: Option<Id>) returns (status: int)
    requires s.Valid()
    modifies s
    ensures s.Valid() && s.events == old(s.events)
    ensures var r := CreateChildReply(old(s.Snapshot()), user, VendorKind, name, projectId, old(s.nextVendorId));
      status == r.status && s.Snapshot() == r.db
  {
    if !Http.Given(name) || !Http.GivenId(projectId) {
      return Http.BadRequest;
    }
    if projectId.value !in s.projects || s.budgets[s.departments[s.projects[projectId.value].departmentId].budgetId].userId != user {
      return Http.Forbidden;
    }
    var id := s.InsertVendor(Vendor(name.value, projectId.value));
    return Http.Created;
  }

  method UpdateVendor(s: Store, user: UserId, id: Id, name: Option<string>) returns (status: int)
    requires s.Valid()
    modifies s
    ensures s.Valid() && s.events == old(s.events)
    ensures var r := UpdateNameReply(old(s.Snapshot()), user, VendorKind, id, name);
      status == r.status && s.Snapshot() == r.db
  {
    if !Http.Given(name) {
      return Http.BadRequest;
    }
    if id !in s.vendors {
      return Http.NotFound;
    }
    if s.budgets[s.departments[s.projects[s.vendors[id].projectId].departmentId].budgetId].userId != user {
      return Http.Forbidden;
    }
    s.SetName(VendorKind, id, name.value);
    return Http.OK;
  }

  method DeleteVendor(s: Store, user: UserId, id: Id) returns (status: int)
    requires s.Valid()
    modifies s
    ensures s.Valid() && s.events == old(s.events)
    ensures var r := DeleteNodeReply(old(s.Snapshot()), user, VendorKind, id);
      status == r.status && s.Snapshot() == r.db
  {
    if id !in s.vendors {
      return Http.NotFound;
    }
    if s.budgets[s.departments[s.projects[s.vendors[id].projectId].departmentId].budgetId].userId != user {
      return Http.Forbidden;
    }
    if HasChildren(s.Snapshot(), VendorKind, id) {
      return Http.ServerError;
    }
    s.Remove(VendorKind, id);
    return Http.NoContent;
  }
}
