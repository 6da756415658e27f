/**
 * What one bulk import does to the store, as a function of the tables and
 * the counters before it: every row is resolved, level by level, to an
 * existing node found by name under its parent, or to a node created there,
 * and then gains one transaction under the vendor it reached.
 */
module BulkImport {
  import opened Wrappers
  import opened Hierarchy
  import opened Persistence

  /** One checked row: its four trimmed names, its parsed amount and its description. */
  datatype Item = Item(path: Path, amount: Amount, description: Option<string>)

  /** The tables together with the counters that issue the next ids. */
  datatype State = State(db: Db, next: Counters)

  ghost predicate Good(st: State) {
    Linked(st.db) && Issued(st.db, st.next)
  }

  // ---------------------------------------------------------------------------
  // The four find-or-create steps of one row

  /** `findFirst({ name, userId })`, else `create({ name, userId })`. */
  ghost function BudgetStep(st: State, name: string, user: UserId): (State, Id) {
    match First(BudgetsNamed(st.db, name, user))
    case Some(b) => (st, b)
    case None =>
      var id := st.next.budget;
      (State(st.db.(budgets := st.db.budgets[id := Budget(name, user)]), st.next.(budget := id + 1)), id)
  }

  /** `findFirst({ name, budgetId })`, else `create({ name, budgetId })`. */
  ghost function DepartmentStep(st: State, name: string, budgetId: Id): (State, Id) {
    match First(DepartmentsNamed(st.db, name, budgetId))
    case Some(d) => (st, d)
    case None =>
      var id := st.next.department;
      (State(st.db.(departments := st.db.departments[id := Department(name, budgetId)]), st.next.(department := id + 1)), id)
  }

  /** `findFirst({ name, departmentId })`, else `create({ name, departmentId })`. */
  ghost function ProjectStep(st: State, name: string, departmentId: Id): (State, Id) {
    match First(ProjectsNamed(st.db, name, departmentId))
    case Some(p) => (st, p)
    case None =>
      var id := st.next.project;
      (State(st.db.(projects := st.db.projects[id := Project(name, departmentId)]), st.next.(project := id + 1)), id)
  }

  /** `findFirst({ name, projectId })`, else `create({ name, projectId })`. */
  ghost function VendorStep(st: State, name: string, projectId: Id): (State, Id) {
    match First(VendorsNamed(st.db, name, projectId))
    case Some(v) => (st, v)
    case None =>
      var id := st.next.vendor;
      (State(st.db.(vendors := st.db.vendors[id := Vendor(name, projectId)]), st.next.(vendor := id + 1)), id)
  }

  /** The four lookups of one row, each scoped to the node found or created one level up. */
  ghost function Walk(st: State, user: UserId, path: Path): (r: (State, Id))
    ensures r.0.db.transactions == st.db.transactions && r.0.next.transaction == st.next.transaction
  {
    var (s1, b) := BudgetStep(st, path.budget, user);
    var (s2, d) := DepartmentStep(s1, path.department, b);
    var (s3, p) := ProjectStep(s2, path.project, d);
    VendorStep(s3, path.vendor, p)
  }

  /** `transaction.create`: the next transaction id gets `t`. */
  ghost function AppendTransaction(st: State, t: Transaction): State {
    var id := st.next.transaction;
    State(st.db.(transactions := st.db.transactions[id := t]), st.next.(transaction := id + 1))
  }

  /** One row: the walk, then a transaction under the vendor reached. */
  ghost function ImportItem(st: State, user: UserId, item: Item): State {
    var (s4, v) := Walk(st, user, item.path);
    AppendTransaction(s4, Transaction(item.amount, item.description, v))
  }

  /** The rows in order. */
  ghost function ImportAll(st: State, user: UserId, items: seq<Item>): (r: State)
    ensures r.next.transaction == st.next.transaction + |items|
    decreases |items|, 1
  {
    if items == [] then st else ImportLast(st, user, items)
  }

  /** A non-empty batch: its rows but the last, then the last. */
  ghost function ImportLast(st: State, user: UserId, items: seq<Item>): (r: State)
    requires items != []
    ensures r.next.transaction == st.next.transaction + |items|
    decreases |items|, 0
  {
    ImportItem(ImportAll(st, user, items[..|items| - 1]), user, items[|items| - 1])
  }

  // ---------------------------------------------------------------------------
  // One step at a time

  /** A step that finds its node leaves everything as it was; one that creates it adds one row of the caller's. */
  ghost predicate StepGrows(st: State, st': State, user: UserId) {
    Good(st') && Extends(st.db, st'.db) && OwnedAdditions(st.db, st'.db, user)
    && NotBehind(st'.next, st.next) && st'.next.transaction == st.next.transaction
    && st'.db.transactions == st.db.transactions
  }

  lemma {:induction false} BudgetStepFinds(st: State, name: string, user: UserId)
    requires Good(st)
    ensures var (st', b) := BudgetStep(st, name, user);
      && StepGrows(st, st', user)
      && st'.db == st.db.(budgets := st'.db.budgets)
      && b in st'.db.budgets && BudgetOwner(st'.db, b) == Some(user)
      && First(BudgetsNamed(st'.db, name, user)) == Some(b)
      && (First(BudgetsNamed(st.db, name, user)).Some? ==> st' == st)
  {
    var found := First(BudgetsNamed(st.db, name, user));
    if found.Some? {
      assert found.value in BudgetsNamed(st.db, name, user);
    } else {
      var (st', b) := BudgetStep(st, name, user);
      assert BudgetsNamed(st'.db, name, user) == {b};
      LeastIdUnique({b}, b);
    }
  }

  lemma {:induction false} DepartmentStepFinds(st: State, name: string, budgetId: Id, user: UserId)
    requires Good(st) && budgetId in st.db.budgets && BudgetOwner(st.db, budgetId) == Some(user)
    ensures var (st', d) := DepartmentStep(st, name, budgetId);
      && StepGrows(st, st', user)
      && st'.db == st.db.(departments := st'.db.departments)
      && d in st'.db.departments && DepartmentOwner(st'.db, d) == Some(user)
      && First(DepartmentsNamed(st'.db, name, budgetId)) == Some(d)
      && (First(DepartmentsNamed(st.db, name, budgetId)).Some? ==> st' == st)
  {
    var found := First(DepartmentsNamed(st.db, name, budgetId));
    if found.Some? {
      assert found.value in DepartmentsNamed(st.db, name, budgetId);
    } else {
      var (st', d) := DepartmentStep(st, name, budgetId);
      assert DepartmentsNamed(st'.db, name, budgetId) == {d};
      LeastIdUnique({d}, d);
    }
  }

  lemma {:induction false} ProjectStepFinds(st: State, name: string, departmentId: Id, user: UserId)
    requires Good(st) && departmentId in st.db.departments && DepartmentOwner(st.db, departmentId) == Some(user)
    ensures var (st', p) := ProjectStep(st, name, departmentId);
      && StepGrows(st, st', user)
      && st'.db == st.db.(projects := st'.db.projects)
      && p in st'.db.projects && ProjectOwner(st'.db, p) == Some(user)
      && First(ProjectsNamed(st'.db, name, departmentId)) == Some(p)
      && (First(ProjectsNamed(st.db, name, departmentId)).Some? ==> st' == st)
  {
    var found := First(ProjectsNamed(st.db, name, departmentId));
    if found.Some? {
      assert found.value in ProjectsNamed(st.db, name, departmentId);
    } else {
      var (st', p) := ProjectStep(st, name, departmentId);
      assert ProjectsNamed(st'.db, name, departmentId) == {p};
      LeastIdUnique({p}, p);
    }
  }

  lemma {:induction false} VendorStepFinds(st: State, name: string, projectId: Id, user: UserId)
    requires Good(st) && projectId in st.db.projects && ProjectOwner(st.db, projectId) == Some(user)
    ensures var (st', v) := VendorStep(st, name, projectId);
      && StepGrows(st, st', user)
      && st'.db == st.db.(vendors := st'.db.vendors)
      && v in st'.db.vendors && VendorOwner(st'.db, v) == Some(user)
      && First(VendorsNamed(st'.db, name, projectId)) == Some(v)
      && (First(VendorsNamed(st.db, name, projectId)).Some? ==> st' == st)
  {
    var found := First(VendorsNamed(st.db, name, projectId));
    if found.Some? {
      assert found.value in VendorsNamed(st.db, name, projectId);
    } else {
      var (st', v) := VendorStep(st, name, projectId);
      assert VendorsNamed(st'.db, name, projectId) == {v};
      LeastIdUnique({v}, v);
    }
  }

  /** Two successive growth steps make one. */
  lemma {:induction false} StepGrowsTransitive(s0: State, s1: State, s2: State, user: UserId)
    requires StepGrows(s0, s1, user) && StepGrows(s1, s2, user)
    ensures StepGrows(s0, s2, user)
  {
    ExtendsTransitive(s0.db, s1.db, s2.db);
    OwnedAdditionsTransitive(s0.db, s1.db, s2.db, user);
  }

  /** The walk grows the store only by nodes of the caller and ends at a vendor of the caller. */
  lemma {:induction false} WalkGrows(st: State, user: UserId, path: Path)
    requires Good(st)
    ensures var (s4, v) := Walk(st, user, path);
      StepGrows(st, s4, user) && v in s4.db.vendors && VendorOwner(s4.db, v) == Some(user)
  {
    var (s1, b) := BudgetStep(st, path.budget, user);
    BudgetStepFinds(st, path.budget, user);
    var (s2, d) := DepartmentStep(s1, path.department, b);
    DepartmentStepFinds(s1, path.department, b, user);
    StepGrowsTransitive(st, s1, s2, user);
    var (s3, p) := ProjectStep(s2, path.project, d);
    ProjectStepFinds(s2, path.project, d, user);
    StepGrowsTransitive(st, s2, s3, user);
    VendorStepFinds(s3, path.vendor, p, user);
    StepGrowsTransitive(st, s3, VendorStep(s3, path.vendor, p).0, user);
  }

  /** The path resolves, in the store the walk leaves, to the vendor the walk reached. */
  lemma {:induction false} WalkResolves(st: State, user: UserId, path: Path)
    requires Good(st)
    ensures var (s4, v) := Walk(st, user, path); Resolve(s4.db, user, path) == Some(v)
  {
    var (s1, b) := BudgetStep(st, path.budget, user);
    BudgetStepFinds(st, path.budget, user);
    var (s2, d) := DepartmentStep(s1, path.department, b);
    DepartmentStepFinds(s1, path.department, b, user);
    var (s3, p) := ProjectStep(s2, path.project, d);
    ProjectStepFinds(s2, path.project, d, user);
    var (s4, v) := VendorStep(s3, path.vendor, p);
    VendorStepFinds(s3, path.vendor, p, user);
    // the later steps leave the tables of the earlier ones alone
    assert s4.db.budgets == s1.db.budgets;
    assert s4.db.departments == s2.db.departments;
    assert s4.db.projects == s3.db.projects;
    assert First(BudgetsNamed(s4.db, path.budget, user)) == Some(b);
    assert First(DepartmentsNamed(s4.db, path.department, b)) == Some(d);
    assert First(ProjectsNamed(s4.db, path.project, d)) == Some(p);
  }

  /** A path that already resolves is walked without creating anything. */
  lemma {:induction false} WalkFinds(st: State, user: UserId, path: Path)
    requires Good(st) && Resolve(st.db, user, path).Some?
    ensures Walk(st, user, path).0 == st
  {
    var (s1, b) := BudgetStep(st, path.budget, user);
    BudgetStepFinds(st, path.budget, user);
    var (s2, d) := DepartmentStep(s1, path.department, b);
    DepartmentStepFinds(s1, path.department, b, user);
    var (s3, p) := ProjectStep(s2, path.project, d);
    ProjectStepFinds(s2, path.project, d, user);
    VendorStepFinds(s3, path.vendor, p, user);
  }

  /** Appending a transaction under a vendor of the caller keeps the store linked and the nodes as they were. */
  lemma {:induction false} AppendTransactionGrows(st: State, t: Transaction, user: UserId)
    requires Good(st) && t.vendorId in st.db.vendors && VendorOwner(st.db, t.vendorId) == Some(user)
    ensures var st' := AppendTransaction(st, t);
      && Good(st') && Extends(st.db, st'.db) && OwnedAdditions(st.db, st'.db, user)
      && NotBehind(st'.next, st.next) && SameInternal(st.db, st'.db)
  {
    var st' := AppendTransaction(st, t);
    assert SameParents(st.db, st'.db);
    OwnersAgree(st.db, st'.db);
  }

  /**
   * One row: the store grows only by rows of the caller, the row's path
   * resolves, exactly one transaction is added, under the vendor the path
   * resolves to, and a row whose path already resolved adds no node.
   */
  lemma {:induction false} ImportItemGrows(st: State, user: UserId, item: Item)
    requires Good(st)
    ensures var st' := ImportItem(st, user, item);
      && Good(st') && Extends(st.db, st'.db) && OwnedAdditions(st.db, st'.db, user)
      && NotBehind(st'.next, st.next)
      && st'.next.transaction == st.next.transaction + 1
      && Resolve(st'.db, user, item.path).Some?
      && st'.db.transactions == st.db.transactions[st.next.transaction :=
           Transaction(item.amount, item.description, Resolve(st'.db, user, item.path).value)]
      && (Resolve(st.db, user, item.path).Some? ==> SameInternal(st.db, st'.db))
  {
    var (s4, v) := Walk(st, user, item.path);
    WalkGrows(st, user, item.path);
    WalkResolves(st, user, item.path);
    if Resolve(st.db, user, item.path).Some? {
      WalkFinds(st, user, item.path);
    }
    var t := Transaction(item.amount, item.description, v);
    var st' := AppendTransaction(s4, t);
    assert st' == ImportItem(st, user, item);
    AppendTransactionGrows(s4, t, user);
    ResolveIgnoresTransactions(s4.db, st'.db, user, item.path);
    ExtendsTransitive(st.db, s4.db, st'.db);
    OwnedAdditionsTransitive(st.db, s4.db, st'.db, user);
  }

  // ---------------------------------------------------------------------------
  // The whole batch

  /** A batch with one more row is that batch, then the row. */
  lemma ImportAllSnoc(st: State, user: UserId, items: seq<Item>, item: Item)
    ensures ImportAll(st, user, items + [item]) == ImportItem(ImportAll(st, user, items), user, item)
  {
    assert (items + [item])[..|items|] == items;
  }

  /** The last row of a batch, seen from the state the rows before it left. */
  lemma ImportLastGrows(st: State, user: UserId, items: seq<Item>)
    requires items != [] && Good(ImportAll(st, user, items[..|items| - 1]))
    ensures var mid, st', item := ImportAll(st, user, items[..|items| - 1]), ImportLast(st, user, items), items[|items| - 1];
      && Good(st') && Extends(mid.db, st'.db) && OwnedAdditions(mid.db, st'.db, user)
      && NotBehind(st'.next, mid.next)
      && st'.next.transaction == mid.next.transaction + 1
      && Resolve(st'.db, user, item.path).Some?
      && st'.db.transactions == mid.db.transactions[mid.next.transaction :=
           Transaction(item.amount, item.description, Resolve(st'.db, user, item.path).value)]
      && (Resolve(mid.db, user, item.path).Some? ==> SameInternal(mid.db, st'.db))
  {
    ImportItemGrows(ImportAll(st, user, items[..|items| - 1]), user, items[|items| - 1]);
  }

  /** A batch grows the store only by rows of the caller and advances the transaction counter once per row. */
  lemma {:induction false} ImportAllGrows(st: State, user: UserId, items: seq<Item>)
    requires Good(st)
    ensures var st' := ImportAll(st, user, items);
      && Good(st') && Extends(st.db, st'.db) && OwnedAdditions(st.db, st'.db, user)
      && NotBehind(st'.next, st.next)
      && st'.next.transaction == st.next.transaction + |items|
    decreases |items|
  {
    if items != [] {
      var mid := ImportAll(st, user, items[..|items| - 1]);
      var st' := ImportLast(st, user, items);
      ImportAllGrows(st, user, items[..|items| - 1]);
      ImportLastGrows(st, user, items);
      ExtendsTransitive(st.db, mid.db, st'.db);
      OwnedAdditionsTransitive(st.db, mid.db, st'.db, user);
    }
  }

  /** The part of `ImportAllGrows` the inductions below need. */
  lemma ImportAllCounter(st: State, user: UserId, items: seq<Item>)
    requires Good(st)
    ensures Good(ImportAll(st, user, items))
    ensures ImportAll(st, user, items).next.transaction == st.next.transaction + |items|
  {
    ImportAllGrows(st, user, items);
  }

  /** The last row of a batch adds one transaction, under an id not used before. */
  lemma ImportLastAppends(st: State, user: UserId, items: seq<Item>)
    requires items != [] && Good(ImportAll(st, user, items[..|items| - 1]))
    ensures var mid, st' := ImportAll(st, user, items[..|items| - 1]), ImportLast(st, user, items);
      && mid.next.transaction !in mid.db.transactions
      && st'.db.transactions.Keys == mid.db.transactions.Keys + {mid.next.transaction}
      && |st'.db.transactions| == |mid.db.transactions| + 1
  {
    ImportLastGrows(st, user, items);
  }

  /** Transaction `id` holds the row `item`, under the vendor the row's path resolves to. */
  ghost predicate RowPlaced(db: Db, user: UserId, item: Item, id: Id) {
    && Resolve(db, user, item.path).Some?
    && id in db.transactions
    && db.transactions[id] == Transaction(item.amount, item.description, Resolve(db, user, item.path).value)
  }

  /** A placed row stays placed when the store only grows. */
  lemma RowPlacedStable(db: Db, db': Db, user: UserId, item: Item, id: Id)
    requires RowPlaced(db, user, item, id) && Extends(db, db')
    ensures RowPlaced(db', user, item, id)
  {
    ResolveStable(db, db', user, item.path);
  }

  /** Rows `items` sit at the transaction ids from `n0` on. */
  ghost predicate AllPlaced(db: Db, user: UserId, items: seq<Item>, n0: Id)
    decreases |items|
  {
    items == [] ||
    (AllPlaced(db, user, items[..|items| - 1], n0) && RowPlaced(db, user, items[|items| - 1], n0 + |items| - 1))
  }

  /** Placed rows stay placed when the store only grows. */
  lemma {:induction false} AllPlacedStable(db: Db, db': Db, user: UserId, items: seq<Item>, n0: Id)
    requires AllPlaced(db, user, items, n0) && Extends(db, db')
    ensures AllPlaced(db', user, items, n0)
    decreases |items|
  {
    if items != [] {
      AllPlacedStable(db, db', user, items[..|items| - 1], n0);
      RowPlacedStable(db, db', user, items[|items| - 1], n0 + |items| - 1);
    }
  }

  /** Row j of a placed batch is placed at n0 + j. */
  lemma {:induction false} AllPlacedAt(db: Db, user: UserId, items: seq<Item>, n0: Id, j: int)
    requires AllPlaced(db, user, items, n0) && 0 <= j < |items|
    ensures RowPlaced(db, user, items[j], n0 + j)
    decreases |items|
  {
    if j < |items| - 1 {
      AllPlacedAt(db, user, items[..|items| - 1], n0, j);
    }
  }

  /** The last row of a batch is placed at the id the counter held before it. */
  lemma ImportLastPlaces(st: State, user: UserId, items: seq<Item>)
    requires items != [] && Good(ImportAll(st, user, items[..|items| - 1]))
    ensures var mid := ImportAll(st, user, items[..|items| - 1]);
      && RowPlaced(ImportLast(st, user, items).db, user, items[|items| - 1], mid.next.transaction)
      && Extends(mid.db, ImportLast(st, user, items).db)
  {
    ImportLastGrows(st, user, items);
  }

  /** Placing the last row of a batch keeps the rows before it placed. */
  lemma ImportLastKeepsPlaced(st: State, user: UserId, items: seq<Item>, n0: Id)
    requires items != [] && Good(ImportAll(st, user, items[..|items| - 1]))
    requires ImportAll(st, user, items[..|items| - 1]).next.transaction == n0 + |items| - 1
    requires AllPlaced(ImportAll(st, user, items[..|items| - 1]).db, user, items[..|items| - 1], n0)
    ensures AllPlaced(ImportLast(st, user, items).db, user, items, n0)
  {
    var mid := ImportAll(st, user, items[..|items| - 1]);
    ImportLastPlaces(st, user, items);
    AllPlacedStable(mid.db, ImportLast(st, user, items).db, user, items[..|items| - 1], n0);
  }

  /**
   * A batch of n rows places row j at transaction id n0 + j, n0 being the
   * transaction counter before the batch.
   */
  lemma {:induction false} ImportAllPlaces(st: State, user: UserId, items: seq<Item>)
    requires Good(st)
    ensures AllPlaced(ImportAll(st, user, items).db, user, items, st.next.transaction)
    decreases |items|
  {
    if items != [] {
      var m := |items| - 1;
      ImportAllCounter(st, user, items[..m]);
      ImportAllPlaces(st, user, items[..m]);
      ImportLastKeepsPlaced(st, user, items, st.next.transaction);
    }
  }

  /**
   * A batch of n rows adds exactly the n transactions numbered from the
   * transaction counter on, and the table grows by n rows.
   */
  lemma {:induction false} ImportAllCount(st: State, user: UserId, items: seq<Item>)
    requires Good(st)
    ensures var st', n0 := ImportAll(st, user, items), st.next.transaction;
      && (forall k :: k in st'.db.transactions <==> k in st.db.transactions || n0 <= k < n0 + |items|)
      && |st'.db.transactions| == |st.db.transactions| + |items|
    decreases |items|
  {
    if items != [] {
      ImportAllCount(st, user, items[..|items| - 1]);
      ImportAllCounter(st, user, items[..|items| - 1]);
      ImportLastAppends(st, user, items);
    }
  }

  /**
   * Every row attaches to a vendor of the caller, reached from a budget of
   * the caller with the row's budget name, and nothing of any other user
   * changes.
   */
  lemma ImportAllIsolated(st: State, user: UserId, items: seq<Item>)
    requires Good(st)
    ensures var st' := ImportAll(st, user, items);
      && ForeignView(st'.db, user) == ForeignView(st.db, user)
      && (forall j :: 0 <= j < |items| ==>
            var v := Resolve(st'.db, user, items[j].path);
            v.Some? && v.value in st'.db.vendors && st'.db.vendors[v.value].name == items[j].path.vendor
            && VendorOwner(st'.db, v.value) == Some(user))
  {
    var st' := ImportAll(st, user, items);
    ImportAllGrows(st, user, items);
    ImportAllPlaces(st, user, items);
    ExtendsIsolated(st.db, st'.db, user);
    forall j | 0 <= j < |items|
      ensures var v := Resolve(st'.db, user, items[j].path);
        v.Some? && v.value in st'.db.vendors && st'.db.vendors[v.value].name == items[j].path.vendor
        && VendorOwner(st'.db, v.value) == Some(user)
    {
      AllPlacedAt(st'.db, user, items, st.next.transaction, j);
      ResolvedVendorOnPath(st'.db, user, items[j].path);
    }
  }

  /** Rows whose paths all resolve already add no budget, department, project or vendor. */
  lemma {:induction false} ResolvedImportAddsNoNodes(st: State, user: UserId, items: seq<Item>)
    requires Good(st)
    requires forall j :: 0 <= j < |items| ==> Resolve(st.db, user, items[j].path).Some?
    ensures SameInternal(st.db, ImportAll(st, user, items).db)
    decreases |items|
  {
    if items != [] {
      var m := |items| - 1;
      var front := items[..m];
      forall j | 0 <= j < m ensures Resolve(st.db, user, front[j].path).Some? {
        assert front[j] == items[j];
      }
      ResolvedImportAddsNoNodes(st, user, front);
      var mid := ImportAll(st, user, front);
      ImportAllGrows(st, user, front);
      ResolveIgnoresTransactions(st.db, mid.db, user, items[m].path);
      ImportLastGrows(st, user, items);
    }
  }

  /** Importing the same rows a second time adds no internal node: only the transactions grow. */
  lemma ReimportAddsNoNodes(st: State, user: UserId, items: seq<Item>)
    requires Good(st)
    ensures var once := ImportAll(st, user, items);
      SameInternal(once.db, ImportAll(once, user, items).db)
  {
    var once := ImportAll(st, user, items);
    ImportAllGrows(st, user, items);
    ImportAllPlaces(st, user, items);
    forall j | 0 <= j < |items| ensures Resolve(once.db, user, items[j].path).Some? {
      AllPlacedAt(once.db, user, items, st.next.transaction, j);
    }
    ResolvedImportAddsNoNodes(once, user, items);
  }
}
