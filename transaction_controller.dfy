/**
 * The transaction handlers. A transaction is owned by the user owning the
 * budget at the end of Transaction -> Vendor -> Project -> Department ->
 * Budget. Unlike the other handlers, `amount` and `vendorId` are tested
 * against `undefined` only (so a vendor id 0 or an amount 0 passes), and every
 * change is announced on the live channel followed by a dashboard summary.
 */
module TransactionController {
  import opened Wrappers
  import Http
  import opened Hierarchy
  import opened Persistence
  import VendorController

  // ---------------------------------------------------------------------------
  // Queries

  /** `GET /transactions`: the transactions whose four-hop chain reaches a budget of the caller. */
  function GetAllTransactions(db: Db, user: UserId): (r: map<Id, Transaction>)
    ensures forall t :: t in r <==> Authorize(db, user, TransactionKind, t) == Allow
    ensures forall t :: t in r ==> t in db.transactions && r[t] == db.transactions[t]
  {
    map t | t in db.transactions
      && (var v := db.transactions[t].vendorId;
          v in db.vendors
          && var p := db.vendors[v].projectId;
          p in db.projects
          && var d := db.projects[p].departmentId;
          d in db.departments
          && var b := db.departments[d].budgetId;
          b in db.budgets && db.budgets[b].userId == user)
      :: db.transactions[t]
  }

  /** The transaction listing and the vendor listing agree: a transaction is listed iff its vendor is. */
  lemma ListedWithItsVendor(db: Db, user: UserId, t: Id)
    requires t in db.transactions
    ensures t in GetAllTransactions(db, user) <==> db.transactions[t].vendorId in VendorController.GetAllVendors(db, user)
  {
    var v := db.transactions[t].vendorId;
    assert t in GetAllTransactions(db, user) <==> Authorize(db, user, TransactionKind, t) == Allow;
    assert v in VendorController.GetAllVendors(db, user) <==> Authorize(db, user, VendorKind, v) == Allow;
  }

  /** `GET /transactions/:id`: 404 for a missing transaction, then 403 for someone else's. */
  function GetTransactionById(db: Db, user: UserId, id: Id): (r: (int, Option<Transaction>))
    requires Linked(db)
    ensures r.0 == Http.NotFound <==> Authorize(db, user, TransactionKind, id) == Access.NotFound
    ensures r.0 == Http.Forbidden <==> Authorize(db, user, TransactionKind, id) == Access.Forbidden
    ensures r.0 == Http.OK <==> Authorize(db, user, TransactionKind, id) == Allow
    ensures r.1.Some? <==> r.0 == Http.OK
    ensures r.1.Some? ==> r.1.value == db.transactions[id]
  {
    if id !in db.transactions then (Http.NotFound, None)
    else if db.budgets[db.departments[db.projects[db.vendors[db.transactions[id].vendorId].projectId].departmentId].budgetId].userId != user
    then (Http.Forbidden, None)
    else (Http.OK, Some(db.transactions[id]))
  }

  // ---------------------------------------------------------------------------
  // Replies of the state-changing handlers

  /**
   * The description a create stores: a missing or `null` description is
   * stored as null, a given one as it is.
   */
  function CreatedDescription(description: Http.BodyField<string>): (r: Option<string>)
    ensures r.Some? <==> description.Present?
    ensures r.Some? ==> r.value == description.value
  {
    if description.Present? then Some(description.value) else None
  }

  /**
   * The description an update stores: a missing one (`undefined`) leaves the
   * stored one as it was, an explicit `null` clears it, a given one replaces it.
   */
  function UpdatedDescription(description: Http.BodyField<string>, prior: Option<string>): (r: Option<string>)
    ensures description.Absent? ==> r == prior
    ensures description.Null? ==> r.None?
    ensures description.Present? ==> r == Some(description.value)
  {
    match description
    case Absent => prior
    case Null => None
    case Present(d) => Some(d)
  }

  /**
   * Only a missing `amount` or `vendorId` is refused with 400. A `null`
   * vendor id reaches `vendor.findUnique`, which Prisma refuses, and a `null`
   * amount reaches `transaction.create` for the non-null amount column; both
   * throw and the catch answers 500.
   */
  function CreateTransactionReply(db: Db, user: UserId, amount: Http.BodyField<Amount>, description: Http.BodyField<string>,
                                  vendorId: Http.BodyField<Id>, newId: Id): (r: Reply)
    ensures r.status == Http.Created <==> amount.Present? && vendorId.Present? && VendorOwner(db, vendorId.value) == Some(user)
    ensures r.status != Http.Created ==> r.db == db && r.events == []
    ensures r.status == Http.Created ==> (
      TransactionOwner(r.db, newId) == Some(user) && r.db.transactions[newId].amount == amount.value
      && r.db == db.(transactions := r.db.transactions) && r.events != [] && r.events[|r.events| - 1] == DashboardSummaryUpdated)
  {
    if amount.Absent? || vendorId.Absent? then Reply(Http.BadRequest, db, [])
    else if vendorId.Null? then Reply(Http.ServerError, db, [])
    else if VendorOwner(db, vendorId.value) != Some(user) then Reply(Http.Forbidden, db, [])
    else if amount.Null? then Reply(Http.ServerError, db, [])
    else
      var t := Transaction(amount.value, CreatedDescription(description), vendorId.value);
      Reply(Http.Created, db.(transactions := db.transactions[newId := t]), [TransactionCreated(newId, t), DashboardSummaryUpdated])
  }

  /**
   * Only a missing `amount` is refused with 400; a `null` amount passes the
   * lookups and makes `transaction.update` throw (500). `date` is read from
   * the body and dropped.
   */
  function UpdateTransactionReply(db: Db, user: UserId, id: Id, amount: Http.BodyField<Amount>, description: Http.BodyField<string>): (r: Reply)
    ensures r.status == Http.OK <==> amount.Present? && TransactionOwner(db, id) == Some(user)
    ensures r.status != Http.OK ==> r.db == db && r.events == []
    ensures r.status == Http.OK ==> (
      r.db.transactions.Keys == db.transactions.Keys && TransactionOwner(r.db, id) == Some(user)
      && r.db.transactions[id].amount == amount.value && r.db == db.(transactions := r.db.transactions))
  {
    if amount.Absent? then Reply(Http.BadRequest, db, [])
    else match Authorize(db, user, TransactionKind, id)
      case NotFound => Reply(Http.NotFound, db, [])
      case Forbidden => Reply(Http.Forbidden, db, [])
      case Allow =>
        if amount.Null? then Reply(Http.ServerError, db, [])
        else
          var prior := db.transactions[id];
          var t := Transaction(amount.value, UpdatedDescription(description, prior.description), prior.vendorId);
          Reply(Http.OK, db.(transactions := db.transactions[id := t]), [TransactionUpdated(id, t), DashboardSummaryUpdated])
  }

  function DeleteTransactionReply(db: Db, user: UserId, id: Id): (r: Reply)
    ensures r.status == Http.NoContent <==> TransactionOwner(db, id) == Some(user)
    ensures r.status != Http.NoContent ==> r.db == db && r.events == []
    ensures r.status == Http.NoContent ==> id !in r.db.transactions && r.db == db.(transactions := r.db.transactions)
  {
    match Authorize(db, user, TransactionKind, id)
    case NotFound => Reply(Http.NotFound, db, [])
    case Forbidden => Reply(Http.Forbidden, db, [])
    case Allow => Reply(Http.NoContent, Delete(db, TransactionKind, id), [TransactionDeleted(id), DashboardSummaryUpdated])
  }

  // ---------------------------------------------------------------------------
  // Handlers

  method CreateTransaction(s: Store, user: UserId, amount: Http.BodyField<Amount>, description: Http.BodyField<string>,
                           date: Http.BodyField<string>, vendorId: Http.BodyField<Id>) returns (status: int)
    requires s.Valid()
    modifies s
    ensures s.Valid()
    ensures var r := CreateTransactionReply(old(s.Snapshot()), user, amount, description, vendorId, old(s.nextTransactionId));
      status == r.status && s.Snapshot() == r.db && s.events == old(s.events) + r.events
  {
    if amount.Absent? || vendorId.Absent? {
      return Http.BadRequest;
    }
    if vendorId.Null? {
      return Http.ServerError;
    }
    var v := vendorId.value;
    if v !in s.vendors || s.budgets[s.departments[s.projects[s.vendors[v].projectId].departmentId].budgetId].userId != user {
      return Http.Forbidden;
    }
    if amount.Null? {
      return Http.ServerError;
    }
    var t := Transaction(amount.value, CreatedDescription(description), v);
    var id := s.InsertTransaction(t);
    s.events := s.events + [TransactionCreated(id, t)];
    s.events := s.events + [DashboardSummaryUpdated];
    return Http.Created;
  }

  method UpdateTransaction(s: Store, user: UserId, id: Id, amount: Http.BodyField<Amount>, description: Http.BodyField<string>,
                           date: Http.BodyField<string>) returns (status: int)
    requires s.Valid()
    modifies s
    ensures s.Valid()
    ensures var r := UpdateTransactionReply(old(s.Snapshot()), user, id, amount, description);
      status == r.status && s.Snapshot() == r.db && s.events == old(s.events) + r.events
  {
    if amount.Absent? {
      return Http.BadRequest;
    }
    if id !in s.transactions {
      return Http.NotFound;
    }
    var v := s.transactions[id].vendorId;
    if s.budgets[s.departments[s.projects[s.vendors[v].projectId].departmentId].budgetId].userId != user {
      return Http.Forbidden;
    }
    if amount.Null? {
      return Http.ServerError;
    }
    var newDescription := UpdatedDescription(description, s.transactions[id].description);
    s.SetTransaction(id, amount.value, newDescription);
    s.events := s.events + [TransactionUpdated(id, s.transactions[id])];
    s.events := s.events + [DashboardSummaryUpdated];
    return Http.OK;
  }

  method DeleteTransaction(s: Store, user: UserId, id: Id) returns (status: int)
    requires s.Valid()
    modifies s
    ensures s.Valid()
    ensures var r := DeleteTransactionReply(old(s.Snapshot()), user, id);
      status == r.status && s.Snapshot() == r.db && s.events == old(s.events) + r.events
  {
    if id !in s.transactions {
      return Http.NotFound;
    }
    var v := s.transactions[id].vendorId;
    if s.budgets[s.departments[s.projects[s.vendors[v].projectId].departmentId].budgetId].userId != user {
      return Http.Forbidden;
    }
    s.Remove(TransactionKind, id);
    s.events := s.events + [TransactionDeleted(id)];
    s.events := s.events + [DashboardSummaryUpdated];
    return Http.NoContent;
  }

  // ---------------------------------------------------------------------------
  // What the replies promise

  /**
   * Creation answers 400 only for a missing amount or vendor id, then 500 for
   * a `null` vendor id, then 403 for a missing or foreign vendor (never 404),
   * then 500 for a `null` amount; a refusal changes nothing.
   */
  lemma CreateTransactionPrecedence(db: Db, user: UserId, amount: Http.BodyField<Amount>, description: Http.BodyField<string>,
                                    vendorId: Http.BodyField<Id>, newId: Id)
    requires Linked(db)
    ensures var r := CreateTransactionReply(db, user, amount, description, vendorId, newId);
      && (r.status == Http.BadRequest <==> amount.Absent? || vendorId.Absent?)
      && (r.status == Http.Forbidden <==>
            (!amount.Absent? && vendorId.Present?
             && (vendorId.value !in db.vendors || VendorOwner(db, vendorId.value).value != user)))
      && (r.status == Http.ServerError <==>
            (!amount.Absent? && (vendorId.Null?
               || (vendorId.Present? && amount.Null? && Authorize(db, user, VendorKind, vendorId.value) == Allow))))
      && (r.status == Http.Created <==>
            (amount.Present? && vendorId.Present? && Authorize(db, user, VendorKind, vendorId.value) == Allow))
      && r.status != Http.NotFound
      && (r.status != Http.Created ==> r.db == db && r.events == [])
  {
    if vendorId.Present? {
      LinkedNodesHaveOwners(db, VendorKind, vendorId.value);
    }
  }

  /**
   * A successful create adds exactly one transaction, with the request's
   * amount, description (null when missing) and vendor, owned by the caller,
   * and announces it.
   */
  lemma CreateTransactionAddsOne(db: Db, user: UserId, amount: Http.BodyField<Amount>, description: Http.BodyField<string>,
                                 vendorId: Http.BodyField<Id>, newId: Id)
    requires Linked(db) && newId !in db.transactions
    requires CreateTransactionReply(db, user, amount, description, vendorId, newId).status == Http.Created
    ensures var r := CreateTransactionReply(db, user, amount, description, vendorId, newId);
      && r.db.transactions.Keys == db.transactions.Keys + {newId}
      && |r.db.transactions| == |db.transactions| + 1
      && r.db.transactions[newId].amount == amount.value
      && r.db.transactions[newId].vendorId == vendorId.value
      && (r.db.transactions[newId].description.Some? <==> description.Present?)
      && (description.Present? ==> r.db.transactions[newId].description.value == description.value)
      && (forall t :: t in db.transactions ==> r.db.transactions[t] == db.transactions[t])
      && OwnerOf(r.db, TransactionKind, newId) == Some(user)
      && r.events == [TransactionCreated(newId, r.db.transactions[newId]), DashboardSummaryUpdated]
  {
    var r := CreateTransactionReply(db, user, amount, description, vendorId, newId);
    assert r.db.transactions.Keys == db.transactions.Keys + {newId};
  }

  /** A successful create leaves the chains linked and other users' data as it was. */
  lemma CreateTransactionIsolated(db: Db, user: UserId, amount: Http.BodyField<Amount>, description: Http.BodyField<string>,
                                  vendorId: Http.BodyField<Id>, newId: Id)
    requires Linked(db) && newId !in db.transactions
    requires CreateTransactionReply(db, user, amount, description, vendorId, newId).status == Http.Created
    ensures SameInternal(db, CreateTransactionReply(db, user, amount, description, vendorId, newId).db)
    ensures Linked(CreateTransactionReply(db, user, amount, description, vendorId, newId).db)
    ensures ForeignView(CreateTransactionReply(db, user, amount, description, vendorId, newId).db, user) == ForeignView(db, user)
  {
    var r := CreateTransactionReply(db, user, amount, description, vendorId, newId);
    assert SameParents(db, r.db);
    assert OnlyOwnChanged(db, r.db, user);
    Isolation(db, r.db, user);
  }

  /**
   * The update checks, in order: missing amount (before any lookup), missing
   * transaction, foreign transaction, then a `null` amount fails in the update
   * itself (500).
   */
  lemma UpdateTransactionPrecedence(db: Db, user: UserId, id: Id, amount: Http.BodyField<Amount>, description: Http.BodyField<string>)
    requires Linked(db)
    ensures var r := UpdateTransactionReply(db, user, id, amount, description);
      && (r.status == Http.BadRequest <==> amount.Absent?)
      && (r.status == Http.NotFound <==> !amount.Absent? && id !in db.transactions)
      && (r.status == Http.Forbidden <==>
            (!amount.Absent? && id in db.transactions && TransactionOwner(db, id).value != user))
      && (r.status == Http.ServerError <==> amount.Null? && TransactionOwner(db, id) == Some(user))
      && (r.status == Http.OK <==> amount.Present? && TransactionOwner(db, id) == Some(user))
      && (r.status != Http.OK ==> r.db == db && r.events == [])
  {
    LinkedNodesHaveOwners(db, TransactionKind, id);
  }

  /**
   * A successful update sets the amount; it keeps the description when none
   * is sent, clears it for `null` and replaces it otherwise; it keeps the
   * vendor, touches no other row, and announces the result.
   */
  lemma UpdateTransactionChangesAmountAndDescription(db: Db, user: UserId, id: Id, amount: Http.BodyField<Amount>,
                                                     description: Http.BodyField<string>)
    requires Linked(db) && UpdateTransactionReply(db, user, id, amount, description).status == Http.OK
    ensures var r := UpdateTransactionReply(db, user, id, amount, description);
      && r.db.transactions.Keys == db.transactions.Keys
      && r.db.transactions[id].amount == amount.value
      && (description.Absent? ==> r.db.transactions[id].description == db.transactions[id].description)
      && (description.Null? ==> r.db.transactions[id].description.None?)
      && (description.Present? ==> r.db.transactions[id].description == Some(description.value))
      && r.db.transactions[id].vendorId == db.transactions[id].vendorId
      && (forall t :: t in db.transactions && t != id ==> r.db.transactions[t] == db.transactions[t])
      && SameInternal(db, r.db)
      && r.events == [TransactionUpdated(id, r.db.transactions[id]), DashboardSummaryUpdated]
      && Linked(r.db)
      && ForeignView(r.db, user) == ForeignView(db, user)
  {
    var r := UpdateTransactionReply(db, user, id, amount, description);
    assert SameParents(db, r.db);
    assert OnlyOwnChanged(db, r.db, user);
    Isolation(db, r.db, user);
  }

  lemma DeleteTransactionPrecedence(db: Db, user: UserId, id: Id)
    requires Linked(db)
    ensures var r := DeleteTransactionReply(db, user, id);
      && (r.status == Http.NotFound <==> id !in db.transactions)
      && (r.status == Http.Forbidden <==> id in db.transactions && TransactionOwner(db, id).value != user)
      && (r.status == Http.NoContent <==> TransactionOwner(db, id) == Some(user))
      && (r.status != Http.NoContent ==> r.db == db && r.events == [])
  {
    LinkedNodesHaveOwners(db, TransactionKind, id);
  }

  /** A successful delete removes exactly that transaction and announces its id. */
  lemma DeleteTransactionRemovesOnlyIt(db: Db, user: UserId, id: Id)
    requires Linked(db) && DeleteTransactionReply(db, user, id).status == Http.NoContent
    ensures var r := DeleteTransactionReply(db, user, id);
      && r.db.transactions == db.transactions - {id}
      && SameInternal(db, r.db)
      && r.events == [TransactionDeleted(id), DashboardSummaryUpdated]
      && Linked(r.db)
      && ForeignView(r.db, user) == ForeignView(db, user)
  {
    DeleteKeepsLinks(db, TransactionKind, id);
    DeleteIsolated(db, user, TransactionKind, id);
  }
}
