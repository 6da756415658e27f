/**
 * The relational store the controllers share: the five hierarchy tables with
 * their autoincrement counters, and the log of events pushed on the live
 * channel (`broadcast` and `broadcastDashboardSummary`). The store enforces
 * the foreign keys: a row can only name an existing parent, and a row that
 * still has children cannot be deleted.
 */
module Persistence {
  import opened Wrappers
  import opened Hierarchy

  /** Envelopes pushed on the live channel, in the order they were sent. */
  datatype Event =
    | BudgetCreated(id: Id, budget: Budget)
    | BudgetUpdated(id: Id, budget: Budget)
    | BudgetDeleted(id: Id)
    | TransactionCreated(id: Id, transaction: Transaction)
    | TransactionUpdated(id: Id, transaction: Transaction)
    | TransactionDeleted(id: Id)
    | DashboardSummaryUpdated

  /** The rows that still point at a node (a deletion of the node would violate a foreign key). */
  predicate HasChildren(db: Db, kind: Kind, id: Id) {
    match kind
    case BudgetKind => exists d :: d in db.departments && db.departments[d].budgetId == id
    case DepartmentKind => exists p :: p in db.projects && db.projects[p].departmentId == id
    case ProjectKind => exists v :: v in db.vendors && db.vendors[v].projectId == id
    case VendorKind => exists t :: t in db.transactions && db.transactions[t].vendorId == id
    case TransactionKind => false
  }

  /** The next value of each table's autoincrement sequence. */
  datatype Counters = Counters(budget: Id, department: Id, project: Id, vendor: Id, transaction: Id)

  /** Sequences only move forward (a rolled-back insert still consumes its id). */
  predicate NotBehind(c: Counters, c0: Counters) {
    c.budget >= c0.budget && c.department >= c0.department && c.project >= c0.project
    && c.vendor >= c0.vendor && c.transaction >= c0.transaction
  }

  /** Every id in a table lies in [1, that table's counter). */
  predicate Issued(db: Db, c: Counters) {
    (forall k :: k in db.budgets ==> 1 <= k < c.budget)
    && (forall k :: k in db.departments ==> 1 <= k < c.department)
    && (forall k :: k in db.projects ==> 1 <= k < c.project)
    && (forall k :: k in db.vendors ==> 1 <= k < c.vendor)
    && (forall k :: k in db.transactions ==> 1 <= k < c.transaction)
    && 1 <= c.budget && 1 <= c.department && 1 <= c.project && 1 <= c.vendor && 1 <= c.transaction
  }

  /** The reply of a state-changing handler: HTTP status, the tables afterwards, the events sent. */
  datatype Reply = Reply(status: int, db: Db, events: seq<Event>)

  /** `prisma.<table>.update({ data: { name } })` on a budget, department, project or vendor. */
  function Rename(db: Db, kind: Kind, id: Id, name: string): (r: Db)
    requires kind != TransactionKind && Present(db, kind, id)
    ensures r.budgets.Keys == db.budgets.Keys && r.departments.Keys == db.departments.Keys
    ensures r.projects.Keys == db.projects.Keys && r.vendors.Keys == db.vendors.Keys
    ensures r.transactions == db.transactions
  {
    match kind
    case BudgetKind => db.(budgets := db.budgets[id := db.budgets[id].(name := name)])
    case DepartmentKind => db.(departments := db.departments[id := db.departments[id].(name := name)])
    case ProjectKind => db.(projects := db.projects[id := db.projects[id].(name := name)])
    case VendorKind => db.(vendors := db.vendors[id := db.vendors[id].(name := name)])
  }

  /** Departments, projects and vendors: the nodes created under a parent named in the request body. */
  predicate IsChildKind(kind: Kind) {
    kind == DepartmentKind || kind == ProjectKind || kind == VendorKind
  }

  function ParentKind(kind: Kind): Kind
    requires IsChildKind(kind)
  {
    match kind
    case DepartmentKind => BudgetKind
    case ProjectKind => DepartmentKind
    case VendorKind => ProjectKind
  }

  /** `prisma.<table>.create({ data: { name, <parent>Id } })` for a department, project or vendor. */
  function AddChild(db: Db, kind: Kind, id: Id, name: string, parent: Id): (r: Db)
    requires IsChildKind(kind)
    ensures Present(r, kind, id)
    ensures r.budgets == db.budgets && r.transactions == db.transactions
  {
    match kind
    case DepartmentKind => db.(departments := db.departments[id := Department(name, parent)])
    case ProjectKind => db.(projects := db.projects[id := Project(name, parent)])
    case VendorKind => db.(vendors := db.vendors[id := Vendor(name, parent)])
  }

  /**
   * Creating a node under a parent the caller owns yields a node the caller
   * owns, keeps the store linked, and leaves other users' rows untouched.
   */
  lemma {:induction false} AddChildIsolated(db: Db, user: UserId, kind: Kind, id: Id, name: string, parent: Id)
    requires Linked(db) && IsChildKind(kind) && !Present(db, kind, id)
    requires OwnerOf(db, ParentKind(kind), parent) == Some(user)
    ensures Linked(AddChild(db, kind, id, name, parent))
    ensures OwnerOf(AddChild(db, kind, id, name, parent), kind, id) == Some(user)
    ensures ForeignView(AddChild(db, kind, id, name, parent), user) == ForeignView(db, user)
  {
    var db' := AddChild(db, kind, id, name, parent);
    LinkedNodesHaveOwners(db, ParentKind(kind), parent);
    assert Linked(db');
    assert SameParents(db, db');
    assert OnlyOwnChanged(db, db', user);
    Isolation(db, db', user);
  }

  /** `prisma.<table>.delete({ where: { id } })`. */
  function Delete(db: Db, kind: Kind, id: Id): (r: Db)
    ensures !Present(r, kind, id)
    ensures kind != BudgetKind ==> r.budgets == db.budgets
    ensures kind != TransactionKind ==> r.transactions == db.transactions
  {
    match kind
    case BudgetKind => db.(budgets := db.budgets - {id})
    case DepartmentKind => db.(departments := db.departments - {id})
    case ProjectKind => db.(projects := db.projects - {id})
    case VendorKind => db.(vendors := db.vendors - {id})
    case TransactionKind => db.(transactions := db.transactions - {id})
  }

  lemma RenameKeepsLinks(db: Db, kind: Kind, id: Id, name: string)
    requires Linked(db) && kind != TransactionKind && Present(db, kind, id)
    ensures Linked(Rename(db, kind, id, name))
  {
  }

  /** A rename keeps every link, so every node keeps its owner. */
  lemma RenameKeepsOwners(db: Db, kind: Kind, id: Id, name: string, k: Kind, x: Id)
    requires kind != TransactionKind && Present(db, kind, id)
    ensures Present(Rename(db, kind, id, name), k, x) == Present(db, k, x)
    ensures OwnerOf(Rename(db, kind, id, name), k, x) == OwnerOf(db, k, x)
  {
  }

  /** Renaming a node the caller owns leaves a linked store linked and other users' rows untouched. */
  lemma {:induction false} RenameIsolated(db: Db, user: UserId, kind: Kind, id: Id, name: string)
    requires Linked(db) && kind != TransactionKind && Authorize(db, user, kind, id) == Allow
    ensures Linked(Rename(db, kind, id, name))
    ensures ForeignView(Rename(db, kind, id, name), user) == ForeignView(db, user)
  {
    var db' := Rename(db, kind, id, name);
    assert SameParents(db, db');
    assert OnlyOwnChanged(db, db', user);
    Isolation(db, db', user);
  }

  /** Deleting a childless node keeps the store linked. */
  lemma DeleteKeepsLinks(db: Db, kind: Kind, id: Id)
    requires Linked(db) && !HasChildren(db, kind, id)
    ensures Linked(Delete(db, kind, id))
  {
  }

  /** Deleting a childless node the caller owns leaves other users' rows untouched. */
  lemma {:induction false} DeleteIsolated(db: Db, user: UserId, kind: Kind, id: Id)
    requires Linked(db) && !HasChildren(db, kind, id) && Authorize(db, user, kind, id) == Allow
    ensures ForeignView(Delete(db, kind, id), user) == ForeignView(db, user)
  {
    var db' := Delete(db, kind, id);
    DeleteKeepsLinks(db, kind, id);
    assert SameParents(db, db');
    assert OnlyOwnChanged(db, db', user);
    Isolation(db, db', user);
  }

  class Store {
    var budgets: map<Id, Budget>
    var departments: map<Id, Department>
    var projects: map<Id, Project>
    var vendors: map<Id, Vendor>
    var transactions: map<Id, Transaction>
    var nextBudgetId: Id
    var nextDepartmentId: Id
    var nextProjectId: Id
    var nextVendorId: Id
    var nextTransactionId: Id
    ghost var events: seq<Event>

    /** The tables as one value. */
    function Snapshot(): Db
      reads this
    {
      Db(budgets, departments, projects, vendors, transactions)
    }

    function NextIds(): Counters
      reads this
    {
      Counters(nextBudgetId, nextDepartmentId, nextProjectId, nextVendorId, nextTransactionId)
    }

    /** Chains are linked and every issued id lies below its table's counter. */
    ghost predicate Valid()
      reads this
    {
      Linked(Snapshot()) && Issued(Snapshot(), NextIds())
    }

    constructor ()
      ensures Valid()
      ensures Snapshot() == Db(map[], map[], map[], map[], map[]) && events == []
    {
      budgets, departments, projects, vendors, transactions := map[], map[], map[], map[], map[];
      nextBudgetId, nextDepartmentId, nextProjectId, nextVendorId, nextTransactionId := 1, 1, 1, 1, 1;
      events := [];
    }

    // -------------------------------------------------------------------------
    // Row primitives (`prisma.<table>.create / update / delete`)

    method InsertBudget(b: Budget) returns (id: Id)
      requires Valid()
      modifies this
      ensures Valid() && events == old(events)
      ensures id == old(nextBudgetId) && id !in old(budgets)
      ensures Snapshot() == old(Snapshot()).(budgets := old(budgets)[id := b])
      ensures NextIds() == old(NextIds()).(budget := id + 1)
    {
      id := nextBudgetId;
      budgets := budgets[id := b];
      nextBudgetId := nextBudgetId + 1;
    }

    method InsertDepartment(d: Department) returns (id: Id)
      requires Valid() && d.budgetId in budgets
      modifies this
      ensures Valid() && events == old(events)
      ensures id == old(nextDepartmentId) && id !in old(departments)
      ensures Snapshot() == old(Snapshot()).(departments := old(departments)[id := d])
      ensures NextIds() == old(NextIds()).(department := id + 1)
    {
      id := nextDepartmentId;
      departments := departments[id := d];
      nextDepartmentId := nextDepartmentId + 1;
    }

    method InsertProject(p: Project) returns (id: Id)
      requires Valid() && p.departmentId in departments
      modifies this
      ensures Valid() && events == old(events)
      ensures id == old(nextProjectId) && id !in old(projects)
      ensures Snapshot() == old(Snapshot()).(projects := old(projects)[id := p])
      ensures NextIds() == old(NextIds()).(project := id + 1)
    {
      id := nextProjectId;
      projects := projects[id := p];
      nextProjectId := nextProjectId + 1;
    }

    method InsertVendor(v: Vendor) returns (id: Id)
      requires Valid() && v.projectId in projects
      modifies this
      ensures Valid() && events == old(events)
      ensures id == old(nextVendorId) && id !in old(vendors)
      ensures Snapshot() == old(Snapshot()).(vendors := old(vendors)[id := v])
      ensures NextIds() == old(NextIds()).(vendor := id + 1)
    {
      id := nextVendorId;
      vendors := vendors[id := v];
      nextVendorId := nextVendorId + 1;
    }

    method InsertTransaction(t: Transaction) returns (id: Id)
      requires Valid() && t.vendorId in vendors
      modifies this
      ensures Valid() && events == old(events)
      ensures id == old(nextTransactionId) && id !in old(transactions)
      ensures Snapshot() == old(Snapshot()).(transactions := old(transactions)[id := t])
      ensures NextIds() == old(NextIds()).(transaction := id + 1)
    {
      id := nextTransactionId;
      transactions := transactions[id := t];
      nextTransactionId := nextTransactionId + 1;
    }

    method SetName(kind: Kind, id: Id, name: string)
      requires Valid() && kind != TransactionKind && Present(Snapshot(), kind, id)
      modifies this
      ensures Valid() && events == old(events)
      ensures Snapshot() == Rename(old(Snapshot()), kind, id, name)
    {
      RenameKeepsLinks(Snapshot(), kind, id, name);
      match kind
      case BudgetKind => budgets := budgets[id := budgets[id].(name := name)];
      case DepartmentKind => departments := departments[id := departments[id].(name := name)];
      case ProjectKind => projects := projects[id := projects[id].(name := name)];
      case VendorKind => vendors := vendors[id := vendors[id].(name := name)];
    }

    /** `prisma.transaction.update({ data: { amount, description } })`. */
    method SetTransaction(id: Id, amount: Amount, description: Option<string>)
      requires Valid() && id in transactions
      modifies this
      ensures Valid() && events == old(events)
      ensures Snapshot() == old(Snapshot()).(transactions := old(transactions)[id :=
                Transaction(amount, description, old(transactions)[id].vendorId)])
    {
      transactions := transactions[id := Transaction(amount, description, transactions[id].vendorId)];
    }

    method Remove(kind: Kind, id: Id)
      requires Valid() && !HasChildren(Snapshot(), kind, id)
      modifies this
      ensures Valid() && events == old(events)
      ensures Snapshot() == Delete(old(Snapshot()), kind, id)
    {
      DeleteKeepsLinks(Snapshot(), kind, id);
      match kind
      case BudgetKind => budgets := budgets - {id};
      case DepartmentKind => departments := departments - {id};
      case ProjectKind => projects := projects - {id};
      case VendorKind => vendors := vendors - {id};
      case TransactionKind => transactions := transactions - {id};
    }

    /** Put the tables back as they were in `db` (the rollback of an aborted transaction). */
    method Restore(db: Db)
      requires Linked(db) && Issued(db, NextIds())
      modifies this
      ensures Valid() && Snapshot() == db && events == old(events) && NextIds() == old(NextIds())
    {
      budgets, departments, projects, vendors, transactions :=
        db.budgets, db.departments, db.projects, db.vendors, db.transactions;
    }
  }
}
