/**
 * The budget handlers. A budget is the root of an ownership chain: it names
 * its owner directly. The route id is parsed with `Number(...)`; `None`
 * stands for the NaN a non-numeric id produces.
 */
module BudgetController {
  import opened Wrappers
  import Http
  import opened Hierarchy
  import opened Persistence

  // ---------------------------------------------------------------------------
  // Queries

  /** `GET /budgets`: the caller's budgets (the included departments are not modelled). */
  function GetAllBudgets(db: Db, user: UserId): (r: map<Id, Budget>)
    ensures forall b :: b in r <==> Authorize(db, user, BudgetKind, b) == Allow
    ensures forall b :: b in r ==> b in db.budgets && r[b] == db.budgets[b]
  {
    map b | b in db.budgets && db.budgets[b].userId == user :: db.budgets[b]
  }

  /** `GET /budgets/:id`: any existing budget, whoever owns it. */
  function GetBudgetById(db: Db, user: UserId, id: Id): (r: (int, Option<Budget>))
    ensures r.0 == Http.OK <==> Present(db, BudgetKind, id)
    ensures r.0 != Http.OK ==> r == (Http.NotFound, None)
    ensures r.0 == Http.OK ==> r.1 == Some(db.budgets[id])
  {
    if id in db.budgets then (Http.OK, Some(db.budgets[id])) else (Http.NotFound, None)
  }

  /** Every caller, owner or not, gets the same reply from `GET /budgets/:id`. */
  lemma GetBudgetByIdSkipsOwnership(db: Db, owner: UserId, other: UserId, id: Id)
    requires id in db.budgets && db.budgets[id].userId == owner && other != owner
    ensures Authorize(db, other, BudgetKind, id) == Access.Forbidden
    ensures GetBudgetById(db, other, id) == (Http.OK, Some(db.budgets[id]))
  {
  }

  // ---------------------------------------------------------------------------
  // Replies of the state-changing handlers, as functions of the tables before

  /**
   * `createBudget`: a named budget of the caller's is added and announced;
   * without a name nothing changes and nothing is sent.
   */
  function CreateBudgetReply(db: Db, user: UserId, name: Option<string>, newId: Id): (r: Reply)
    ensures r.status == Http.Created <==> Http.Given(name)
    ensures r.status != Http.Created ==> r.db == db && r.events == []
    ensures r.status == Http.Created ==> (
      BudgetOwner(r.db, newId) == Some(user) && r.db.budgets[newId].name == name.value
      && r.db == db.(budgets := r.db.budgets) && r.events != [] && r.events[|r.events| - 1] == DashboardSummaryUpdated)
  {
    if !Http.Given(name) then Reply(Http.BadRequest, db, [])
    else
      var b := Budget(name.value, user);
      Reply(Http.Created, db.(budgets := db.budgets[newId := b]), [BudgetCreated(newId, b), DashboardSummaryUpdated])
  }

  /** `updateBudget`: only the caller's own budget is renamed; every refusal changes nothing and sends nothing. */
  function UpdateBudgetReply(db: Db, user: UserId, id: Option<Id>, name: Option<string>): (r: Reply)
    ensures r.status == Http.OK <==> id.Some? && Http.Given(name) && BudgetOwner(db, id.value) == Some(user)
    ensures r.status != Http.OK ==> r.db == db && r.events == []
    ensures r.status == Http.OK ==> (
      r.db.budgets.Keys == db.budgets.Keys && r.db.budgets[id.value] == Budget(name.value, user)
      && r.db == db.(budgets := r.db.budgets))
  {
    if id.None? || !Http.Given(name) then Reply(Http.BadRequest, db, [])
    else match Authorize(db, user, BudgetKind, id.value)
      case NotFound => Reply(Http.NotFound, db, [])
      case Forbidden => Reply(Http.Forbidden, db, [])
      case Allow =>
        var db' := Rename(db, BudgetKind, id.value, name.value);
        Reply(Http.OK, db', [BudgetUpdated(id.value, db'.budgets[id.value]), DashboardSummaryUpdated])
  }

  /** `deleteBudget`: only the caller's own childless budget is removed; every refusal changes nothing and sends nothing. */
  function DeleteBudgetReply(db: Db, user: UserId, id: Option<Id>): (r: Reply)
    ensures r.status == Http.NoContent
        <==> id.Some? && BudgetOwner(db, id.value) == Some(user) && !HasChildren(db, BudgetKind, id.value)
    ensures r.status != Http.NoContent ==> r.db == db && r.events == []
    ensures r.status == Http.NoContent ==> id.value !in r.db.budgets && r.db == db.(budgets := r.db.budgets)
  {
    if id.None? then Reply(Http.BadRequest, db, [])
    else match Authorize(db, user, BudgetKind, id.value)
      case NotFound => Reply(Http.NotFound, db, [])
      case Forbidden => Reply(Http.Forbidden, db, [])
      case Allow =>
        if HasChildren(db, BudgetKind, id.value) then Reply(Http.ServerError, db, [])
        else Reply(Http.NoContent, Delete(db, BudgetKind, id.value), [BudgetDeleted(id.value), DashboardSummaryUpdated])
  }

  // ---------------------------------------------------------------------------
  // Handlers

  method CreateBudget(s: Store, user: UserId, name: Option<string>) returns (status: int)
    requires s.Valid()
    modifies s
    ensures s.Valid()
    ensures var r := CreateBudgetReply(old(s.Snapshot()), user, name, old(s.nextBudgetId));
      status == r.status && s.Snapshot() == r.db && s.events == old(s.events) + r.events
  {
    if !Http.Given(name) {
      return Http.BadRequest;
    }
    var b := Budget(name.value, user);
    var id := s.InsertBudget(b);
    s.events := s.events + [BudgetCreated(id, b)];
    s.events := s.events + [DashboardSummaryUpdated];
    return Http.Created;
  }

  method UpdateBudget(s: Store, user: UserId, id: Option<Id>, name: Option<string>) returns (status: int)
    requires s.Valid()
    modifies s
    ensures s.Valid()
    ensures var r := UpdateBudgetReply(old(s.Snapshot()), user, id, name);
      status == r.status && s.Snapshot() == r.db && s.events == old(s.events) + r.events
  {
    if id.None? {
      return Http.BadRequest;
    }
    if !Http.Given(name) {
      return Http.BadRequest;
    }
    if id.value !in s.budgets {
      return Http.NotFound;
    }
    if s.budgets[id.value].userId != user {
      return Http.Forbidden;
    }
    s.SetName(BudgetKind, id.value, name.value);
    s.events := s.events + [BudgetUpdated(id.value, s.budgets[id.value])];
    s.events := s.events + [DashboardSummaryUpdated];
    return Http.OK;
  }

  method DeleteBudget(s: Store, user: UserId, id: Option<Id>) returns (status: int)
    requires s.Valid()
    modifies s
    ensures s.Valid()
    ensures var r := DeleteBudgetReply(old(s.Snapshot()), user, id);
      status == r.status && s.Snapshot() == r.db && s.events == old(s.events) + r.events
  {
    if id.None? {
      return Http.BadRequest;
    }
    if id.value !in s.budgets {
      return Http.NotFound;
    }
    if s.budgets[id.value].userId != user {
      return Http.Forbidden;
    }
    if HasChildren(s.Snapshot(), BudgetKind, id.value) {
      // the foreign key of a department still naming the budget makes the delete throw
      return Http.ServerError;
    }
    s.Remove(BudgetKind, id.value);
    s.events := s.events + [BudgetDeleted(id.value)];
    s.events := s.events + [DashboardSummaryUpdated];
    return Http.NoContent;
  }

  // ---------------------------------------------------------------------------
  // What the replies promise

  /** A name is required; a created budget always belongs to the caller and is announced. */
  lemma CreateBudgetOwnedByCaller(db: Db, user: UserId, name: Option<string>, newId: Id)
    requires Linked(db) && newId !in db.budgets
    ensures var r := CreateBudgetReply(db, user, name, newId);
      && (r.status == Http.BadRequest <==> !Http.Given(name))
      && (r.status == Http.BadRequest ==> r.db == db && r.events == [])
      && (r.status != Http.BadRequest ==>
            && r.status == Http.Created
            && r.db.budgets.Keys == db.budgets.Keys + {newId}
            && OwnerOf(r.db, BudgetKind, newId) == Some(user)
            && r.db.budgets[newId].name == name.value
            && r.events == [BudgetCreated(newId, r.db.budgets[newId]), DashboardSummaryUpdated]
            && Linked(r.db)
            && ForeignView(r.db, user) == ForeignView(db, user))
  {
    var r := CreateBudgetReply(db, user, name, newId);
    if Http.Given(name) {
      assert SameParents(db, r.db);
      assert OnlyOwnChanged(db, r.db, user);
      Isolation(db, r.db, user);
    }
  }

  /** The update checks, in order: NaN id, missing name, missing budget, foreign budget. */
  lemma UpdateBudgetPrecedence(db: Db, user: UserId, id: Option<Id>, name: Option<string>)
    requires Linked(db)
    ensures var r := UpdateBudgetReply(db, user, id, name);
      && (r.status == Http.BadRequest <==> id.None? || !Http.Given(name))
      && (r.status == Http.NotFound <==> id.Some? && Http.Given(name) && id.value !in db.budgets)
      && (r.status == Http.Forbidden <==>
            id.Some? && Http.Given(name) && id.value in db.budgets && db.budgets[id.value].userId != user)
      && (r.status == Http.OK <==> id.Some? && Http.Given(name) && OwnerOf(db, BudgetKind, id.value) == Some(user))
      && (r.status != Http.OK ==> r.db == db && r.events == [])
  {
  }

  /** A successful update renames that budget only, keeps its owner, and is announced. */
  lemma UpdateBudgetChangesOnlyName(db: Db, user: UserId, id: Option<Id>, name: Option<string>)
    requires Linked(db) && UpdateBudgetReply(db, user, id, name).status == Http.OK
    ensures var r := UpdateBudgetReply(db, user, id, name);
      && r.db.budgets.Keys == db.budgets.Keys
      && r.db.budgets[id.value] == Budget(name.value, user)
      && (forall b :: b in db.budgets && b != id.value ==> r.db.budgets[b] == db.budgets[b])
      && r.db.departments == db.departments && r.db.projects == db.projects
      && r.db.vendors == db.vendors && r.db.transactions == db.transactions
      && r.events == [BudgetUpdated(id.value, Budget(name.value, user)), DashboardSummaryUpdated]
      && Linked(r.db)
      && ForeignView(r.db, user) == ForeignView(db, user)
  {
    RenameIsolated(db, user, BudgetKind, id.value, name.value);
  }

  /** The delete checks, in order: NaN id, missing budget, foreign budget, remaining departments. */
  lemma DeleteBudgetPrecedence(db: Db, user: UserId, id: Option<Id>)
    requires Linked(db)
    ensures var r := DeleteBudgetReply(db, user, id);
      && (r.status == Http.BadRequest <==> id.None?)
      && (r.status == Http.NotFound <==> id.Some? && id.value !in db.budgets)
      && (r.status == Http.Forbidden <==> id.Some? && id.value in db.budgets && db.budgets[id.value].userId != user)
      && (r.status == Http.ServerError <==>
            id.Some? && OwnerOf(db, BudgetKind, id.value) == Some(user) && HasChildren(db, BudgetKind, id.value))
      && (r.status != Http.NoContent ==> r.db == db && r.events == [])
  {
  }

  /** A successful delete removes exactly that budget, touches no other user's row, and is announced with its id. */
  lemma DeleteBudgetRemovesOnlyIt(db: Db, user: UserId, id: Option<Id>)
    requires Linked(db) && DeleteBudgetReply(db, user, id).status == Http.NoContent
    ensures var r := DeleteBudgetReply(db, user, id);
      && id.Some? && OwnerOf(db, BudgetKind, id.value) == Some(user)
      && r.db.budgets == db.budgets - {id.value}
      && r.db.departments == db.departments && r.db.projects == db.projects
      && r.db.vendors == db.vendors && r.db.transactions == db.transactions
      && r.events == [BudgetDeleted(id.value), DashboardSummaryUpdated]
      && Linked(r.db)
      && ForeignView(r.db, user) == ForeignView(db, user)
  {
    DeleteKeepsLinks(db, BudgetKind, id.value);
    DeleteIsolated(db, user, BudgetKind, id.value);
  }
}
