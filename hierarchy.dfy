/**
 * The budget hierarchy held by the relational store: Budget <- Department <-
 * Project <- Vendor <- Transaction, each child naming its parent by id, and
 * each Budget naming the user that owns it. The owner of any node is the
 * owner of the Budget at the root of its chain; every handler authorizes
 * against that owner.
 */
module Hierarchy {
  import opened Wrappers

  /** Autoincrement primary keys and user ids. */
  type Id = int
  type UserId = int

  /** A stored amount: a finite number, or NaN / an infinity produced by `parseFloat`. */
  datatype Amount = Finite(value: real) | NotFinite

  datatype Budget = Budget(name: string, userId: UserId)
  datatype Department = Department(name: string, budgetId: Id)
  datatype Project = Project(name: string, departmentId: Id)
  datatype Vendor = Vendor(name: string, projectId: Id)
  datatype Transaction = Transaction(amount: Amount, description: Option<string>, vendorId: Id)

  /** The five tables. */
  datatype Db = Db(
    budgets: map<Id, Budget>,
    departments: map<Id, Department>,
    projects: map<Id, Project>,
    vendors: map<Id, Vendor>,
    transactions: map<Id, Transaction>)

  datatype Kind = BudgetKind | DepartmentKind | ProjectKind | VendorKind | TransactionKind

  // ---------------------------------------------------------------------------
  // The ownership chain

  function BudgetOwner(db: Db, b: Id): Option<UserId> {
    if b in db.budgets then Some(db.budgets[b].userId) else None
  }

  function DepartmentOwner(db: Db, d: Id): Option<UserId> {
    if d in db.departments then BudgetOwner(db, db.departments[d].budgetId) else None
  }

  function ProjectOwner(db: Db, p: Id): Option<UserId> {
    if p in db.projects then DepartmentOwner(db, db.projects[p].departmentId) else None
  }

  function VendorOwner(db: Db, v: Id): Option<UserId> {
    if v in db.vendors then ProjectOwner(db, db.vendors[v].projectId) else None
  }

  function TransactionOwner(db: Db, t: Id): Option<UserId> {
    if t in db.transactions then VendorOwner(db, db.transactions[t].vendorId) else None
  }

  function Present(db: Db, kind: Kind, id: Id): bool {
    match kind
    case BudgetKind => id in db.budgets
    case DepartmentKind => id in db.departments
    case ProjectKind => id in db.projects
    case VendorKind => id in db.vendors
    case TransactionKind => id in db.transactions
  }

  /** The user owning the Budget at the root of the node's chain; None when the node or a link is missing. */
  function OwnerOf(db: Db, kind: Kind, id: Id): Option<UserId> {
    match kind
    case BudgetKind => BudgetOwner(db, id)
    case DepartmentKind => DepartmentOwner(db, id)
    case ProjectKind => ProjectOwner(db, id)
    case VendorKind => VendorOwner(db, id)
    case TransactionKind => TransactionOwner(db, id)
  }

  /**
   * Referential integrity: every parent id names an existing row, so every
   * chain reaches a Budget.
   */
  ghost predicate Linked(db: Db) {
    (forall d :: d in db.departments ==> db.departments[d].budgetId in db.budgets)
    && (forall p :: p in db.projects ==> db.projects[p].departmentId in db.departments)
    && (forall v :: v in db.vendors ==> db.vendors[v].projectId in db.projects)
    && (forall t :: t in db.transactions ==> db.transactions[t].vendorId in db.vendors)
  }

  /** In a linked store every present node has an owner, and only present nodes do. */
  lemma LinkedNodesHaveOwners(db: Db, kind: Kind, id: Id)
    requires Linked(db)
    ensures OwnerOf(db, kind, id).Some? <==> Present(db, kind, id)
  {
  }

  /** The whole ancestry of a transaction, link by link. */
  ghost predicate TransactionChain(db: Db, t: Id, v: Id, p: Id, d: Id, b: Id) {
    t in db.transactions && db.transactions[t].vendorId == v
    && v in db.vendors && db.vendors[v].projectId == p
    && p in db.projects && db.projects[p].departmentId == d
    && d in db.departments && db.departments[d].budgetId == b
    && b in db.budgets
  }

  /**
   * The owner of a transaction is the owner of the Budget reached by walking
   * Transaction -> Vendor -> Project -> Department -> Budget.
   */
  lemma {:induction false} TransactionOwnerIsChainRoot(db: Db, t: Id, u: UserId)
    ensures TransactionOwner(db, t) == Some(u)
        <==> exists v, p, d, b :: TransactionChain(db, t, v, p, d, b) && db.budgets[b].userId == u
  {
    if TransactionOwner(db, t) == Some(u) {
      var v := db.transactions[t].vendorId;
      var p := db.vendors[v].projectId;
      var d := db.projects[p].departmentId;
      var b := db.departments[d].budgetId;
      assert TransactionChain(db, t, v, p, d, b);
    }
  }

  // ---------------------------------------------------------------------------
  // Authorization: the decision every single-resource handler makes

  datatype Access = Allow | NotFound | Forbidden

  /** Load the node (404 when absent), then compare its root owner with the caller (403 on mismatch). */
  function Authorize(db: Db, user: UserId, kind: Kind, id: Id): (a: Access)
    ensures a == Allow <==> OwnerOf(db, kind, id) == Some(user)
    ensures a == NotFound <==> !Present(db, kind, id)
  {
    if !Present(db, kind, id) then NotFound
    else if OwnerOf(db, kind, id) == Some(user) then Allow
    else Forbidden
  }

  /** In a linked store a refusal with 403 always means that another user owns the node. */
  lemma ForbiddenMeansOtherOwner(db: Db, user: UserId, kind: Kind, id: Id)
    requires Linked(db)
    ensures Authorize(db, user, kind, id) == Forbidden
        <==> (OwnerOf(db, kind, id).Some? && OwnerOf(db, kind, id).value != user)
  {
    LinkedNodesHaveOwners(db, kind, id);
  }

  /** A node is accessible to at most one user. */
  lemma AllowIsExclusive(db: Db, u1: UserId, u2: UserId, kind: Kind, id: Id)
    requires Authorize(db, u1, kind, id) == Allow && Authorize(db, u2, kind, id) == Allow
    ensures u1 == u2
  {
  }

  // ---------------------------------------------------------------------------
  // Isolation between users

  predicate IsForeign(owner: Option<UserId>, user: UserId) {
    owner.Some? && owner.value != user
  }

  /** The part of the store owned by users other than `user`. */
  function ForeignView(db: Db, user: UserId): (r: Db)
    ensures r.budgets.Keys <= db.budgets.Keys && r.departments.Keys <= db.departments.Keys
    ensures r.projects.Keys <= db.projects.Keys && r.vendors.Keys <= db.vendors.Keys
    ensures r.transactions.Keys <= db.transactions.Keys
    ensures forall b :: b in r.budgets ==> r.budgets[b].userId != user
  {
    Db(
      map b | b in db.budgets && IsForeign(BudgetOwner(db, b), user) :: db.budgets[b],
      map d | d in db.departments && IsForeign(DepartmentOwner(db, d), user) :: db.departments[d],
      map p | p in db.projects && IsForeign(ProjectOwner(db, p), user) :: db.projects[p],
      map v | v in db.vendors && IsForeign(VendorOwner(db, v), user) :: db.vendors[v],
      map t | t in db.transactions && IsForeign(TransactionOwner(db, t), user) :: db.transactions[t])
  }

  /** Rows present in both stores keep their parent (and a budget its owner). */
  ghost predicate SameParents(db: Db, db': Db) {
    (forall b :: b in db.budgets && b in db'.budgets ==> db'.budgets[b].userId == db.budgets[b].userId)
    && (forall d :: d in db.departments && d in db'.departments ==> db'.departments[d].budgetId == db.departments[d].budgetId)
    && (forall p :: p in db.projects && p in db'.projects ==> db'.projects[p].departmentId == db.projects[p].departmentId)
    && (forall v :: v in db.vendors && v in db'.vendors ==> db'.vendors[v].projectId == db.vendors[v].projectId)
    && (forall t :: t in db.transactions && t in db'.transactions ==> db'.transactions[t].vendorId == db.transactions[t].vendorId)
  }

  /** Every row that was removed, rewritten or added belongs to `user` (in the store where it exists). */
  ghost predicate OnlyOwnChanged(db: Db, db': Db, user: UserId) {
    (forall b :: b in db.budgets && (b !in db'.budgets || db'.budgets[b] != db.budgets[b]) ==> BudgetOwner(db, b) == Some(user))
    && (forall b :: b in db'.budgets && b !in db.budgets ==> BudgetOwner(db', b) == Some(user))
    && (forall d :: d in db.departments && (d !in db'.departments || db'.departments[d] != db.departments[d]) ==> DepartmentOwner(db, d) == Some(user))
    && (forall d :: d in db'.departments && d !in db.departments ==> DepartmentOwner(db', d) == Some(user))
    && (forall p :: p in db.projects && (p !in db'.projects || db'.projects[p] != db.projects[p]) ==> ProjectOwner(db, p) == Some(user))
    && (forall p :: p in db'.projects && p !in db.projects ==> ProjectOwner(db', p) == Some(user))
    && (forall v :: v in db.vendors && (v !in db'.vendors || db'.vendors[v] != db.vendors[v]) ==> VendorOwner(db, v) == Some(user))
    && (forall v :: v in db'.vendors && v !in db.vendors ==> VendorOwner(db', v) == Some(user))
    && (forall t :: t in db.transactions && (t !in db'.transactions || db'.transactions[t] != db.transactions[t]) ==> TransactionOwner(db, t) == Some(user))
    && (forall t :: t in db'.transactions && t !in db.transactions ==> TransactionOwner(db', t) == Some(user))
  }

  /** Rows present in two linked stores with the same parents have the same owner. */
  lemma {:induction false} OwnersAgree(db: Db, db': Db)
    requires Linked(db) && Linked(db') && SameParents(db, db')
    ensures forall b :: b in db.budgets && b in db'.budgets ==> BudgetOwner(db', b) == BudgetOwner(db, b)
    ensures forall d :: d in db.departments && d in db'.departments ==> DepartmentOwner(db', d) == DepartmentOwner(db, d)
    ensures forall p :: p in db.projects && p in db'.projects ==> ProjectOwner(db', p) == ProjectOwner(db, p)
    ensures forall v :: v in db.vendors && v in db'.vendors ==> VendorOwner(db', v) == VendorOwner(db, v)
    ensures forall t :: t in db.transactions && t in db'.transactions ==> TransactionOwner(db', t) == TransactionOwner(db, t)
  {
    forall d | d in db.departments && d in db'.departments
      ensures DepartmentOwner(db', d) == DepartmentOwner(db, d)
    {
      var b := db.departments[d].budgetId;
      assert b in db.budgets && b in db'.budgets;
    }
    forall p | p in db.projects && p in db'.projects
      ensures ProjectOwner(db', p) == ProjectOwner(db, p)
    {
      var d := db.projects[p].departmentId;
      assert d in db.departments && d in db'.departments;
    }
    forall v | v in db.vendors && v in db'.vendors
      ensures VendorOwner(db', v) == VendorOwner(db, v)
    {
      var p := db.vendors[v].projectId;
      assert p in db.projects && p in db'.projects;
    }
    forall t | t in db.transactions && t in db'.transactions
      ensures TransactionOwner(db', t) == TransactionOwner(db, t)
    {
      var v := db.transactions[t].vendorId;
      assert v in db.vendors && v in db'.vendors;
    }
  }

  /**
   * A change that keeps every chain linked, re-parents nothing, and touches
   * only rows of `user` leaves every other user's part of the store identical.
   */
  lemma {:induction false} Isolation(db: Db, db': Db, user: UserId)
    requires Linked(db) && Linked(db') && SameParents(db, db')
    requires OnlyOwnChanged(db, db', user)
    ensures ForeignView(db', user) == ForeignView(db, user)
  {
    OwnersAgree(db, db');
    ForeignBudgetsSame(db, db', user);
    ForeignDepartmentsSame(db, db', user);
    ForeignProjectsSame(db, db', user);
    ForeignVendorsSame(db, db', user);
    ForeignTransactionsSame(db, db', user);
  }

  lemma ForeignBudgetsSame(db: Db, db': Db, user: UserId)
    requires OnlyOwnChanged(db, db', user)
    requires forall b :: b in db.budgets && b in db'.budgets ==> BudgetOwner(db', b) == BudgetOwner(db, b)
    ensures ForeignView(db', user).budgets == ForeignView(db, user).budgets
  {
  }

  lemma ForeignDepartmentsSame(db: Db, db': Db, user: UserId)
    requires OnlyOwnChanged(db, db', user)
    requires forall d :: d in db.departments && d in db'.departments ==> DepartmentOwner(db', d) == DepartmentOwner(db, d)
    ensures ForeignView(db', user).departments == ForeignView(db, user).departments
  {
  }

  lemma ForeignProjectsSame(db: Db, db': Db, user: UserId)
    requires OnlyOwnChanged(db, db', user)
    requires forall p :: p in db.projects && p in db'.projects ==> ProjectOwner(db', p) == ProjectOwner(db, p)
    ensures ForeignView(db', user).projects == ForeignView(db, user).projects
  {
  }

  lemma ForeignVendorsSame(db: Db, db': Db, user: UserId)
    requires OnlyOwnChanged(db, db', user)
    requires forall v :: v in db.vendors && v in db'.vendors ==> VendorOwner(db', v) == VendorOwner(db, v)
    ensures ForeignView(db', user).vendors == ForeignView(db, user).vendors
  {
  }

  lemma ForeignTransactionsSame(db: Db, db': Db, user: UserId)
    requires OnlyOwnChanged(db, db', user)
    requires forall t :: t in db.transactions && t in db'.transactions ==> TransactionOwner(db', t) == TransactionOwner(db, t)
    ensures ForeignView(db', user).transactions == ForeignView(db, user).transactions
  {
  }

  // ---------------------------------------------------------------------------
  // Find-first lookups by natural key, as the bulk import performs them

  /** The least element of a non-empty set of ids. */
  ghost function LeastId(ids: set<Id>): (m: Id)
    requires ids != {}
    ensures m in ids && forall x :: x in ids ==> m <= x
  {
    HasLeast(ids);
    var m :| m in ids && (forall x :: x in ids ==> m <= x); m
  }

  lemma {:induction false} HasLeast(ids: set<Id>)
    requires ids != {}
    ensures exists m :: m in ids && forall x :: x in ids ==> m <= x
    decreases |ids|
  {
    NonEmptyHasElement(ids);
    var x :| x in ids;
    if forall y :: y in ids ==> x <= y {
      assert x in ids && forall z :: z in ids ==> x <= z;
    } else {
      var y :| y in ids && y < x;
      var rest := ids - {x};
      assert y in rest;
      assert |rest| == |ids| - 1;
      HasLeast(rest);
      var m :| m in rest && forall z :: z in rest ==> m <= z;
      forall z | z in ids ensures m <= z {
        if z != x { assert z in rest; }
      }
      assert m in ids;
    }
  }

  lemma NonEmptyHasElement(ids: set<Id>)
    requires ids != {}
    ensures exists x :: x in ids
  {
    if forall x :: x !in ids {
      assert false;
    }
  }

  lemma LeastIdUnique(ids: set<Id>, m: Id)
    requires m in ids && forall x :: x in ids ==> m <= x
    ensures LeastId(ids) == m
  {
  }

  function BudgetsNamed(db: Db, name: string, user: UserId): set<Id> {
    set b | b in db.budgets && db.budgets[b].name == name && db.budgets[b].userId == user
  }

  function DepartmentsNamed(db: Db, name: string, budgetId: Id): set<Id> {
    set d | d in db.departments && db.departments[d].name == name && db.departments[d].budgetId == budgetId
  }

  function ProjectsNamed(db: Db, name: string, departmentId: Id): set<Id> {
    set p | p in db.projects && db.projects[p].name == name && db.projects[p].departmentId == departmentId
  }

  function VendorsNamed(db: Db, name: string, projectId: Id): set<Id> {
    set v | v in db.vendors && db.vendors[v].name == name && db.vendors[v].projectId == projectId
  }

  /** `findFirst` over a set of matching rows: the one with the least id, if any. */
  ghost function First(ids: set<Id>): (r: Option<Id>)
    ensures r.None? <==> ids == {}
    ensures r.Some? ==> r.value in ids && forall x :: x in ids ==> r.value <= x
  {
    if ids == {} then None else Some(LeastId(ids))
  }

  /**
   * When at most one row matches, every reading of `findFirst` (any matching
   * row, or none when nothing matches) gives the answer `First` gives.
   */
  lemma AnyFindFirstWhenUnique(ids: set<Id>, r: Option<Id>)
    requires forall x, y :: x in ids && y in ids ==> x == y
    requires r.None? <==> ids == {}
    requires r.Some? ==> r.value in ids
    ensures r == First(ids)
  {
  }

  /** No two siblings share a name: no two budgets of one user, no two children of one parent. */
  ghost predicate UniqueSiblingNames(db: Db) {
    (forall a, b | a in db.budgets && b in db.budgets ::
       db.budgets[a].name == db.budgets[b].name && db.budgets[a].userId == db.budgets[b].userId ==> a == b)
    && (forall a, b | a in db.departments && b in db.departments ::
       db.departments[a].name == db.departments[b].name && db.departments[a].budgetId == db.departments[b].budgetId ==> a == b)
    && (forall a, b | a in db.projects && b in db.projects ::
       db.projects[a].name == db.projects[b].name && db.projects[a].departmentId == db.projects[b].departmentId ==> a == b)
    && (forall a, b | a in db.vendors && b in db.vendors ::
       db.vendors[a].name == db.vendors[b].name && db.vendors[a].projectId == db.vendors[b].projectId ==> a == b)
  }

  /** With unique sibling names each find-first lookup has at most one candidate. */
  lemma UniqueNamesMatchAtMostOne(db: Db, name: string, user: UserId, parent: Id)
    requires UniqueSiblingNames(db)
    ensures forall x, y :: x in BudgetsNamed(db, name, user) && y in BudgetsNamed(db, name, user) ==> x == y
    ensures forall x, y :: x in DepartmentsNamed(db, name, parent) && y in DepartmentsNamed(db, name, parent) ==> x == y
    ensures forall x, y :: x in ProjectsNamed(db, name, parent) && y in ProjectsNamed(db, name, parent) ==> x == y
    ensures forall x, y :: x in VendorsNamed(db, name, parent) && y in VendorsNamed(db, name, parent) ==> x == y
  {
  }

  /** `findFirst` as executed: a scan for the least matching id. */
  method LeastOf(ids: set<Id>) returns (r: Option<Id>)
    ensures r == First(ids)
  {
    if ids == {} {
      return None;
    }
    NonEmptyHasElement(ids);
    var m :| m in ids;
    var rest := ids - {m};
    while rest != {}
      invariant rest <= ids && m in ids
      invariant forall x :: x in ids && x !in rest ==> m <= x
      decreases |rest|
    {
      NonEmptyHasElement(rest);
      var x :| x in rest;
      if x < m {
        m := x;
      }
      rest := rest - {x};
    }
    LeastIdUnique(ids, m);
    return Some(m);
  }

  /** The four trimmed names of one uploaded row, root first. */
  datatype Path = Path(budget: string, department: string, project: string, vendor: string)

  /**
   * The vendor a row reaches by four successive find-first lookups, each
   * scoped to the node found one level up and the budget to `user`.
   */
  ghost function Resolve(db: Db, user: UserId, path: Path): (r: Option<Id>)
    ensures r.Some? ==> r.value in db.vendors && db.vendors[r.value].name == path.vendor
    ensures BudgetsNamed(db, path.budget, user) == {} ==> r.None?
  {
    match First(BudgetsNamed(db, path.budget, user))
    case None => None
    case Some(b) =>
      match First(DepartmentsNamed(db, path.department, b))
      case None => None
      case Some(d) =>
        match First(ProjectsNamed(db, path.project, d))
        case None => None
        case Some(p) => First(VendorsNamed(db, path.vendor, p))
  }

  /** A resolved vendor lies on the row's path and belongs to `user`. */
  lemma ResolvedVendorOnPath(db: Db, user: UserId, path: Path)
    requires Resolve(db, user, path).Some?
    ensures var v := Resolve(db, user, path).value;
      v in db.vendors && db.vendors[v].name == path.vendor && VendorOwner(db, v) == Some(user)
  {
    var b := First(BudgetsNamed(db, path.budget, user)).value;
    var d := First(DepartmentsNamed(db, path.department, b)).value;
    var p := First(ProjectsNamed(db, path.project, d)).value;
    var v := First(VendorsNamed(db, path.vendor, p)).value;
    assert v in VendorsNamed(db, path.vendor, p);
    assert p in ProjectsNamed(db, path.project, d);
    assert d in DepartmentsNamed(db, path.department, b);
    assert b in BudgetsNamed(db, path.budget, user);
  }

  /** `db'` keeps every row of `db` and adds only rows whose ids exceed all ids already in that table. */
  ghost predicate Extends(db: Db, db': Db) {
    (forall k :: k in db.budgets ==> k in db'.budgets && db'.budgets[k] == db.budgets[k])
    && (forall k :: k in db.departments ==> k in db'.departments && db'.departments[k] == db.departments[k])
    && (forall k :: k in db.projects ==> k in db'.projects && db'.projects[k] == db.projects[k])
    && (forall k :: k in db.vendors ==> k in db'.vendors && db'.vendors[k] == db.vendors[k])
    && (forall k :: k in db.transactions ==> k in db'.transactions && db'.transactions[k] == db.transactions[k])
    && (forall k, j :: k in db'.budgets && k !in db.budgets && j in db.budgets ==> j < k)
    && (forall k, j :: k in db'.departments && k !in db.departments && j in db.departments ==> j < k)
    && (forall k, j :: k in db'.projects && k !in db.projects && j in db.projects ==> j < k)
    && (forall k, j :: k in db'.vendors && k !in db.vendors && j in db.vendors ==> j < k)
  }

  lemma ExtendsTransitive(db: Db, db': Db, db'': Db)
    requires Extends(db, db') && Extends(db', db'')
    ensures Extends(db, db'')
  {
  }

  /** A find-first that succeeded keeps its answer when only rows with larger ids are added. */
  lemma FirstStable(ids: set<Id>, ids': set<Id>)
    requires ids <= ids' && First(ids).Some?
    requires forall k, j :: k in ids' && k !in ids && j in ids ==> j < k
    ensures First(ids') == First(ids)
  {
    var m := First(ids).value;
    LeastIdUnique(ids', m);
  }

  /**
   * Growing the store by appending rows never changes where an already
   * resolvable row resolves to.
   */
  lemma {:induction false} ResolveStable(db: Db, db': Db, user: UserId, path: Path)
    requires Extends(db, db') && Resolve(db, user, path).Some?
    ensures Resolve(db', user, path) == Resolve(db, user, path)
  {
    var bs, bs' := BudgetsNamed(db, path.budget, user), BudgetsNamed(db', path.budget, user);
    FirstStable(bs, bs');
    var b := First(bs).value;
    var ds, ds' := DepartmentsNamed(db, path.department, b), DepartmentsNamed(db', path.department, b);
    FirstStable(ds, ds');
    var d := First(ds).value;
    var ps, ps' := ProjectsNamed(db, path.project, d), ProjectsNamed(db', path.project, d);
    FirstStable(ps, ps');
    var p := First(ps).value;
    var vs, vs' := VendorsNamed(db, path.vendor, p), VendorsNamed(db', path.vendor, p);
    FirstStable(vs, vs');
  }

  /** Every row present in `db'` but not in `db` belongs to `user`. */
  ghost predicate OwnedAdditions(db: Db, db': Db, user: UserId) {
    (forall b :: b in db'.budgets && b !in db.budgets ==> BudgetOwner(db', b) == Some(user))
    && (forall d :: d in db'.departments && d !in db.departments ==> DepartmentOwner(db', d) == Some(user))
    && (forall p :: p in db'.projects && p !in db.projects ==> ProjectOwner(db', p) == Some(user))
    && (forall v :: v in db'.vendors && v !in db.vendors ==> VendorOwner(db', v) == Some(user))
    && (forall t :: t in db'.transactions && t !in db.transactions ==> TransactionOwner(db', t) == Some(user))
  }

  lemma {:induction false} OwnedAdditionsTransitive(db0: Db, db1: Db, db2: Db, user: UserId)
    requires Linked(db1) && Linked(db2) && Extends(db1, db2)
    requires OwnedAdditions(db0, db1, user) && OwnedAdditions(db1, db2, user)
    ensures OwnedAdditions(db0, db2, user)
  {
    assert SameParents(db1, db2);
    OwnersAgree(db1, db2);
  }

  /** Growing a linked store only by rows of `user` leaves every other user's part of it identical. */
  lemma {:induction false} ExtendsIsolated(db: Db, db': Db, user: UserId)
    requires Linked(db) && Linked(db') && Extends(db, db') && OwnedAdditions(db, db', user)
    ensures ForeignView(db', user) == ForeignView(db, user)
  {
    assert SameParents(db, db');
    assert OnlyOwnChanged(db, db', user);
    Isolation(db, db', user);
  }

  /** The internal (non-leaf) tables of two stores agree. */
  predicate SameInternal(db: Db, db': Db) {
    db'.budgets == db.budgets && db'.departments == db.departments
    && db'.projects == db.projects && db'.vendors == db.vendors
  }

  /** Resolution looks only at the internal tables. */
  lemma ResolveIgnoresTransactions(db: Db, db': Db, user: UserId, path: Path)
    requires SameInternal(db, db')
    ensures Resolve(db', user, path) == Resolve(db, user, path)
  {
    assert BudgetsNamed(db', path.budget, user) == BudgetsNamed(db, path.budget, user);
  }
}
