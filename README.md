# BnB MoneyTrust: a verified model of the budget store and the rule engines

BnB MoneyTrust tracks an institution's money as a hierarchy:

- a **Budget** belongs to a user;
- a **Department** sits under a budget, a **Project** under a department and
  a **Vendor** under a project;
- a **Transaction** is paid to a vendor.

An Express back end serves this hierarchy with five CRUD controllers, a
spreadsheet bulk import, cookie/JWT authentication and a few small in-memory
utilities. Two Python services answer natural-language questions about the
budget. A third Python service explains the verdicts of an anomaly detector.

This project models the decision logic of those parts in Dafny and proves what
the code promises about it.

**The store** (`hierarchy.dfy`, `persistence.dfy`)
- Five tables of rows with parent ids, plus one autoincrement counter per
  table. `Persistence.Store` is a class whose methods are the Prisma
  `create`, `update` and `delete` calls.
- The store keeps **referential integrity**: every parent id names an
  existing row. A row that still has children cannot be deleted. The Prisma
  schema is not part of this model, so this follows Prisma's default for
  required relations: such a delete throws, and the handler answers 500.
- A ghost log records the events pushed by `broadcast` and
  `broadcastDashboardSummary`.
- The owner of any node is the `userId` of the Budget at the root of its
  chain. `Hierarchy.Authorize` is the check every single-resource handler
  makes: 404 when the row is missing, 403 when its chain ends at another
  user's budget.

**The CRUD controllers**
- Each handler is a pure reply function over the tables before the call
  (status, tables after, events sent). A `Store` method runs the handler and
  ensures that its new state is that reply.
- Lemmas about the replies give:
  - the order of the checks (400, then 404, then 403);
  - ownership of created rows;
  - that only the named row changes;
  - that no other user's data changes.
- A JSON body field is absent, `null` or a value (`Http.BodyField`). The
  transaction handlers test only for `undefined`, so a `null` amount or
  vendorId passes that test and makes the Prisma call throw (500), while a
  `null` description is stored as null.
- Departments, projects and vendors share one generic set of replies
  (`node_handlers.dfy`), because their three controllers are the same code
  over different tables.

**Bulk import** (`file_upload_controller.dfy`, `bulk_import.dfy`)
- The upload is dispatched on its lower-cased extension.
- Each row is checked for its five required fields, then its trimmed names
  are looked up or created level by level.
- The batch is all-or-nothing: the Prisma transaction is modelled as a
  snapshot that is restored on failure.
- Proved about the import:
  - on success it adds exactly one transaction per row, in order, under that
    row's vendor;
  - it touches only the caller's data;
  - re-importing the same rows adds no budget, department, project or vendor.
- `findFirst` is modelled as the row with the least matching id. When no
  two siblings share a name, every reading of `findFirst` agrees with it
  (`Hierarchy.AnyFindFirstWhenUnique`, `Hierarchy.UniqueNamesMatchAtMostOne`).

**Authentication** (`auth_controller.dfy`, `auth_middleware.dfy`)
- Signup and login over a user table keyed by email.
- Token selection: the cookie first, otherwise a `Bearer ` header.
- bcrypt and JWT are function parameters.

**Small structures**
- The notification log capped at 100 entries (`dashboard_broadcaster.dfy`).
- The append-only sample project list (`project_routes.dfy`).
- The upload file filter and the stored file name (`upload_middleware.dfy`,
  which uses a model of Node's `path.extname` and `path.basename` in
  `node_path.dfy`).

**Query routing** (`nlp_processor.dfy`, `voice_service.dfy`, `voice_api.dfy`)
- Keyword-category extraction, first-match intent detection, the confidence
  formula and the response-template chain.
- The two priority chains that pick a canned answer.

**Anomaly explanation** (`anomaly_api.dfy`, `data_processor.dfy`)
- The detector's scores and flags are inputs.
- Modelled: vendor-frequency counting, the reason lists, the batch summary,
  risk levels, flagged transactions and recommendations.
- Also modelled: the transaction-record validator and the response formatter.

**Shared definitions**
- `text.dfy`: ASCII lower-casing, substring search, JavaScript's `trim`, regex
  runs (`\d+`, `\w+`) and decimal rendering.
- `wrappers.dfy`: `Option`.
- `http.dfy`: the status codes.

Amounts and scores are `real`. `parseFloat` may produce NaN or an infinity,
so a stored amount is `Finite(r)`, `NaN` or an infinity. Clocks, randomness,
hashing, signing, file parsing and the detector are parameters.

A behaviour of the code as written: the import checks for blank fields
before it trims them. A budget name made only of spaces therefore passes the
check and is stored as the empty name (`FileUploadController.BlankNameAccepted`).

## Model

| member | source | states |
|---|---|---|
| Hierarchy.LinkedNodesHaveOwners | backend/src/controllers/transactionController.ts:17-24 | In a linked store a node has a root owner exactly when it exists, so every chain reaches a budget. |
| Hierarchy.TransactionOwnerIsChainRoot | backend/src/controllers/transactionController.ts:46-57 | A transaction is owned by u iff the walk Transaction→Vendor→Project→Department→Budget exists and ends at a budget of u. |
| Hierarchy.Authorize | backend/src/controllers/transactionController.ts:73-84 | Allow iff the node's root owner is the caller; NotFound iff the node is absent (checked first); otherwise Forbidden. |
| Hierarchy.ForbiddenMeansOtherOwner | backend/src/controllers/vendorController.ts:63-74 | In a linked store, 403 is given exactly when another user owns the node. |
| Hierarchy.AllowIsExclusive | backend/src/controllers/projectController.ts:63-74 | At most one user may access any node. |
| Hierarchy.OwnersAgree | backend/src/controllers/departmentController.ts:90-93 | Rows present in two linked stores with the same parents have the same owner. |
| Hierarchy.Isolation | backend/src/controllers/budgetController.ts:80-82 | A change that keeps the chains linked, re-parents nothing and touches only the caller's rows leaves every other user's part of the store identical. |
| Hierarchy.ForeignView | backend/src/controllers/budgetController.ts:80-82 | The part of the store that other users own: every table's ids are a subset of the store's, and none of its budgets is the caller's. |
| Hierarchy.LeastOf | backend/src/controllers/fileUploadController.ts:63 | The `findFirst` scan returns None for no match, otherwise the matching id that is least. |
| Hierarchy.First | backend/src/controllers/fileUploadController.ts:69-71 | The find-first result is None or a member of the matching set that is below every other member. |
| Hierarchy.AnyFindFirstWhenUnique | backend/src/controllers/fileUploadController.ts:63-66 | When at most one row matches, any reading of `findFirst` (some matching row, or none when nothing matches) equals `First`. |
| Hierarchy.UniqueNamesMatchAtMostOne | backend/src/controllers/fileUploadController.ts:63-90 | In a store without two same-named siblings, each of the four name lookups has at most one candidate. |
| Hierarchy.Resolve | backend/src/controllers/fileUploadController.ts:63-90 | A resolved vendor is a stored vendor carrying the row's vendor name; without a caller's budget of the row's budget name nothing resolves. |
| Hierarchy.ResolvedVendorOnPath | backend/src/controllers/fileUploadController.ts:63-90 | A vendor resolved from a row's four names lies under a project, department and budget with those names, and the budget is the caller's. |
| Hierarchy.FirstStable | backend/src/controllers/fileUploadController.ts:63-66 | A find-first that succeeded keeps its answer when only rows with larger ids are added. |
| Hierarchy.ResolveStable | backend/src/controllers/fileUploadController.ts:63-90 | A path that resolves keeps resolving to the same vendor when the store only grows by newer rows. |
| Hierarchy.OwnedAdditionsTransitive | backend/src/controllers/fileUploadController.ts:48-104 | Two steps that each add only the caller's rows together add only the caller's rows. |
| Hierarchy.ExtendsIsolated | backend/src/controllers/fileUploadController.ts:48-104 | Growing a linked store only by the caller's rows leaves every other user's part identical. |
| Hierarchy.ResolveIgnoresTransactions | backend/src/controllers/fileUploadController.ts:63-90 | Path resolution reads only the four internal tables, never the transactions. |
| Persistence.AddChildIsolated | backend/src/controllers/vendorController.ts:23-25 | Creating a node under a parent the caller owns keeps the store linked, makes the caller its owner, and leaves other users' rows untouched. |
| Persistence.AddChild | backend/src/controllers/vendorController.ts:23-25 | After `create` the new node is present; the budgets and the transactions are untouched. |
| Persistence.Rename | backend/src/controllers/departmentController.ts:90-93 | A rename adds and removes no row in any table and leaves the transactions as they were. |
| Persistence.Delete | backend/src/controllers/vendorController.ts:136-137 | After `delete` the node is absent; deleting a non-budget keeps the budgets, and deleting a non-transaction keeps the transactions. |
| Persistence.RenameKeepsLinks | backend/src/controllers/projectController.ts:106-109 | A rename keeps every chain linked. |
| Persistence.RenameKeepsOwners | backend/src/controllers/budgetController.ts:84-87 | A rename keeps every node's owner (a budget's userId included). |
| Persistence.RenameIsolated | backend/src/controllers/departmentController.ts:90-93 | Renaming a node the caller owns leaves other users' rows untouched. |
| Persistence.DeleteKeepsLinks | backend/src/controllers/vendorController.ts:136-137 | Deleting a childless node keeps the store linked. |
| Persistence.DeleteIsolated | backend/src/controllers/projectController.ts:136-137 | Deleting a childless node the caller owns leaves other users' rows untouched. |
| Persistence.Store.constructor | backend/src/controllers/budgetController.ts:14 | The store starts empty, with every counter at 1 and no events. |
| Persistence.Store.InsertBudget | backend/src/controllers/budgetController.ts:14 | `budget.create` stores the row under the next id, advances only that counter, and changes nothing else. |
| Persistence.Store.InsertDepartment | backend/src/controllers/departmentController.ts:21-23 | `department.create` under an existing budget: the next id, only that table grows. |
| Persistence.Store.InsertProject | backend/src/controllers/projectController.ts:24-26 | `project.create` under an existing department: the next id, only that table grows. |
| Persistence.Store.InsertVendor | backend/src/controllers/vendorController.ts:23-25 | `vendor.create` under an existing project: the next id, only that table grows. |
| Persistence.Store.InsertTransaction | backend/src/controllers/transactionController.ts:26-32 | `transaction.create` under an existing vendor: the next id, only that table grows. |
| Persistence.Store.SetName | backend/src/controllers/departmentController.ts:90-93 | `update({ data: { name } })` changes exactly that row's name. |
| Persistence.Store.SetTransaction | backend/src/controllers/transactionController.ts:116-123 | `transaction.update` replaces amount and description and keeps the vendor. |
| Persistence.Store.Remove | backend/src/controllers/transactionController.ts:151 | `delete` of a row without children removes exactly that row. |
| Persistence.Store.Restore | backend/src/controllers/fileUploadController.ts:48-104 | A rollback puts the tables back as they were; the counters stay where they are. |
| BudgetController.GetAllBudgets | backend/src/controllers/budgetController.ts:26-37 | Exactly the budgets whose userId is the caller, with their rows. |
| BudgetController.GetBudgetById | backend/src/controllers/budgetController.ts:40-61 | 200 with the budget iff it exists, otherwise 404; no ownership test. |
| BudgetController.GetBudgetByIdSkipsOwnership | backend/src/controllers/budgetController.ts:42-56 | A user who does not own a budget is refused by `Authorize` but still gets the budget from `GET /budgets/:id`. |
| BudgetController.CreateBudgetReply | backend/src/controllers/budgetController.ts:8-24 | 201 iff a name is given, and then the caller owns the new budget with that name, only the budget table changes and the dashboard summary is the last event; otherwise nothing changes and nothing is sent. |
| BudgetController.UpdateBudgetReply | backend/src/controllers/budgetController.ts:63-97 | 200 iff the id is a number, a name is given and the budget is the caller's; then that budget becomes (name, caller) and the set of budgets and every other table stay; otherwise nothing changes and nothing is sent. |
| BudgetController.DeleteBudgetReply | backend/src/controllers/budgetController.ts:99-127 | 204 iff the id is a number and names a childless budget of the caller; then that budget is gone and only the budget table changed; otherwise nothing changes and nothing is sent. |
| BudgetController.CreateBudget | backend/src/controllers/budgetController.ts:8-24 | The store afterwards, the events and the status are those of the create reply; the budget counter advances only on success. |
| BudgetController.UpdateBudget | backend/src/controllers/budgetController.ts:63-97 | The store, events and status are those of the update reply. |
| BudgetController.DeleteBudget | backend/src/controllers/budgetController.ts:99-127 | The store, events and status are those of the delete reply. |
| BudgetController.CreateBudgetOwnedByCaller | backend/src/controllers/budgetController.ts:12-19 | A missing name gives 400 and no change. Otherwise 201: one budget with that name, owned by the caller, under the next id; events `budget_created` then the summary; other users' data unchanged. |
| BudgetController.UpdateBudgetPrecedence | backend/src/controllers/budgetController.ts:65-82 | NaN id → 400, then missing name → 400, then missing budget → 404, then foreign budget → 403; every refusal changes nothing and sends nothing. |
| BudgetController.UpdateBudgetChangesOnlyName | backend/src/controllers/budgetController.ts:84-91 | A successful update renames that budget only, keeps its owner, and sends `budget_updated` then the summary. |
| BudgetController.DeleteBudgetPrecedence | backend/src/controllers/budgetController.ts:101-117 | NaN id → 400, then 404, then 403, then 500 while departments remain; every refusal changes nothing. |
| BudgetController.DeleteBudgetRemovesOnlyIt | backend/src/controllers/budgetController.ts:117-122 | A successful delete answers 204, removes exactly that budget, and sends `budget_deleted` with its id, then the summary. |
| NodeHandlers.CreateChildPrecedence | backend/src/controllers/departmentController.ts:10-19 | Creating a department, project or vendor gives 400 for a missing name or parent id, then 403 for a missing or foreign parent (never 404); refusals change nothing. |
| NodeHandlers.CreateChildOwnedByCaller | backend/src/controllers/projectController.ts:20-28 | A created node sits under the named parent, is owned by the caller, gets the next id; nothing of anyone else changes and no event is sent. |
| NodeHandlers.UpdateNamePrecedence | backend/src/controllers/departmentController.ts:78-88 | Missing name → 400 before the lookup, then 404, then 403; refusals change nothing. |
| NodeHandlers.UpdateNameChangesOnlyName | backend/src/controllers/vendorController.ts:106-109 | A successful rename keeps every row, link and owner; only that node's name differs. |
| NodeHandlers.DeleteNodePrecedence | backend/src/controllers/vendorController.ts:123-134 | 404, then 403, then 500 while children remain; refusals change nothing. |
| NodeHandlers.DeleteNodeRemovesOnlyIt | backend/src/controllers/departmentController.ts:115-116 | A successful delete answers 204 and removes that one node and nothing else. |
| NodeHandlers.CreateChildReply | backend/src/controllers/departmentController.ts:5-29 | 201 iff a name and a non-zero parent id are given and the parent is the caller's; then the node is present and the budgets and transactions are untouched; otherwise nothing changes. No event either way. |
| NodeHandlers.UpdateNameReply | backend/src/controllers/departmentController.ts:72-99 | 200 iff a name is given and the node is the caller's; no row is added or removed in any table, budgets and transactions are untouched, a refusal changes nothing. No event. |
| NodeHandlers.DeleteNodeReply | backend/src/controllers/departmentController.ts:101-121 | 204 iff the node is the caller's and has no children; then it is absent; otherwise nothing changes. No event. |
| DepartmentController.GetAllDepartments | backend/src/controllers/departmentController.ts:31-49 | Exactly the departments whose budget belongs to the caller. |
| DepartmentController.GetDepartmentById | backend/src/controllers/departmentController.ts:51-70 | 404 iff absent, 403 iff another user's, 200 with the row iff the caller's. |
| DepartmentController.CreateDepartment | backend/src/controllers/departmentController.ts:5-29 | The store and status are those of the generic create reply; no event. |
| DepartmentController.UpdateDepartment | backend/src/controllers/departmentController.ts:72-99 | The store and status are those of the generic update reply; no event. |
| DepartmentController.DeleteDepartment | backend/src/controllers/departmentController.ts:101-121 | The store and status are those of the generic delete reply; no event. |
| ProjectController.GetAllProjects | backend/src/controllers/projectController.ts:35-49 | Exactly the projects whose department's budget belongs to the caller. |
| ProjectController.GetProjectById | backend/src/controllers/projectController.ts:63-74 | 404 iff absent, 403 iff another user's, 200 with the row iff the caller's. |
| ProjectController.CreateProject | backend/src/controllers/projectController.ts:5-33 | The store and status are those of the generic create reply; no event. |
| ProjectController.UpdateProject | backend/src/controllers/projectController.ts:89-109 | The store and status are those of the generic update reply; no event. |
| ProjectController.DeleteProject | backend/src/controllers/projectController.ts:123-137 | The store and status are those of the generic delete reply; no event. |
| VendorController.GetAllVendors | backend/src/controllers/vendorController.ts:34-49 | Exactly the vendors whose Project→Department→Budget root belongs to the caller. |
| VendorController.GetVendorById | backend/src/controllers/vendorController.ts:63-74 | 404 iff absent, 403 iff another user's, 200 with the row iff the caller's. |
| VendorController.CreateVendor | backend/src/controllers/vendorController.ts:5-32 | The store and status are those of the generic create reply; no event. |
| VendorController.UpdateVendor | backend/src/controllers/vendorController.ts:89-109 | The store and status are those of the generic update reply; no event. |
| VendorController.DeleteVendor | backend/src/controllers/vendorController.ts:123-137 | The store and status are those of the generic delete reply; no event. |
| TransactionController.GetAllTransactions | backend/src/controllers/transactionController.ts:42-66 | Exactly the transactions whose four-hop chain ends at a budget of the caller. |
| TransactionController.ListedWithItsVendor | backend/src/controllers/transactionController.ts:46-59 | A transaction is listed for a caller iff its vendor is listed for that caller. |
| TransactionController.GetTransactionById | backend/src/controllers/transactionController.ts:68-91 | 404 iff absent, then 403 iff another user's, 200 with the row iff the caller's. |
| TransactionController.CreatedDescription | backend/src/controllers/transactionController.ts:26-32 | The stored description is the given string, and null when the field is absent or null. |
| TransactionController.UpdatedDescription | backend/src/controllers/transactionController.ts:116-123 | An absent description keeps the stored one (Prisma skips undefined), a null one clears it, a string replaces it. |
| TransactionController.CreateTransactionReply | backend/src/controllers/transactionController.ts:7-40 | 201 iff amount and vendorId are both given (not absent, not null) and the vendor is the caller's; then the caller owns the new transaction with that amount, only the transaction table changes and the summary is the last event; otherwise nothing changes and nothing is sent. |
| TransactionController.UpdateTransactionReply | backend/src/controllers/transactionController.ts:93-131 | 200 iff an amount is given and the transaction is the caller's; then it keeps its id and owner and gets that amount, and only the transaction table changes; otherwise nothing changes and nothing is sent. |
| TransactionController.DeleteTransactionReply | backend/src/controllers/transactionController.ts:133-159 | 204 iff the transaction is the caller's; then it is gone and only the transaction table changed; otherwise nothing changes and nothing is sent. |
| TransactionController.CreateTransaction | backend/src/controllers/transactionController.ts:7-40 | The store, events and status are those of the create reply. |
| TransactionController.UpdateTransaction | backend/src/controllers/transactionController.ts:93-131 | The store, events and status are those of the update reply. |
| TransactionController.DeleteTransaction | backend/src/controllers/transactionController.ts:133-159 | The store, events and status are those of the delete reply. |
| TransactionController.CreateTransactionPrecedence | backend/src/controllers/transactionController.ts:12-35 | An absent amount or vendorId → 400; a null vendorId → 500 (the vendor lookup throws); a missing or foreign vendor → 403 (never 404); a null amount under the caller's vendor → 500 (the create throws); every refusal changes nothing and sends nothing. |
| TransactionController.CreateTransactionAddsOne | backend/src/controllers/transactionController.ts:26-35 | Success adds exactly one transaction with the given amount and vendor under the next id, its description the given string or null when absent or null, sends `transaction_created` then the summary, and answers 201. |
| TransactionController.CreateTransactionIsolated | backend/src/controllers/transactionController.ts:17-32 | A successful create keeps the chains linked and other users' data as it was. |
| TransactionController.UpdateTransactionPrecedence | backend/src/controllers/transactionController.ts:99-126 | An absent amount → 400 before any lookup, then 404, then 403; a null amount on the caller's transaction → 500 (the update throws); refusals change nothing. |
| TransactionController.UpdateTransactionChangesAmountAndDescription | backend/src/controllers/transactionController.ts:116-126 | Success changes only amount and description (the vendor is kept, `date` ignored): an absent description keeps the old one, a null one clears it, a string replaces it; sends `transaction_updated` then the summary. |
| TransactionController.DeleteTransactionPrecedence | backend/src/controllers/transactionController.ts:143-149 | 404 before 403; refusals change nothing. |
| TransactionController.DeleteTransactionRemovesOnlyIt | backend/src/controllers/transactionController.ts:151-154 | Success removes exactly that transaction and sends `transaction_deleted` with its id, then the summary. |
| FileUploadController.FormatOfExtensions | backend/src/controllers/fileUploadController.ts:16-45 | The CSV parser is chosen iff the lower-cased extension is ".csv", the workbook parser iff it is ".xls" or ".xlsx". |
| FileUploadController.FormatIgnoresCase | backend/src/controllers/fileUploadController.ts:16 | Extensions that differ only in letter case are parsed alike. |
| FileUploadController.ParseRows | backend/src/controllers/fileUploadController.ts:21-45 | Any other extension fails as unsupported. CSV gives the stream's rows. A workbook gives the rows of its first sheet only when that sheet name exists and names a sheet. |
| FileUploadController.RowPath | backend/src/controllers/fileUploadController.ts:57-60 | The four names of the path are the trimmed string forms of the row's cells. |
| FileUploadController.DescriptionOf | backend/src/controllers/fileUploadController.ts:96 | `row.description \|\| null`: a falsy description becomes null, any other is kept. |
| FileUploadController.CheckRowMeaning | backend/src/controllers/fileUploadController.ts:52-60 | A row is refused iff one of its five required fields is falsy (or its description is a number); otherwise its item carries the trimmed names, the parsed amount and the description or null. |
| FileUploadController.Collect | backend/src/controllers/fileUploadController.ts:50-101 | The items of the rows when every row is complete, as many as there are rows. |
| FileUploadController.CollectMeaning | backend/src/controllers/fileUploadController.ts:50-101 | All rows are complete exactly when the items are collected, and item i is row i's. |
| FileUploadController.FirstFailureAt | backend/src/controllers/fileUploadController.ts:50-54 | When the rows before row i are complete and row i is not, the batch fails with row i's failure. |
| FileUploadController.FirstFailureAfterCollected | backend/src/controllers/fileUploadController.ts:50-54 | The same, when the rows before row i have been collected. |
| FileUploadController.FirstFailureIffNotCollected | backend/src/controllers/fileUploadController.ts:48-104 | A batch fails exactly when some row is incomplete; otherwise its items are collected. |
| FileUploadController.PaddedNameImportsAlike | backend/src/controllers/fileUploadController.ts:56-60 | A budget name with blanks around it yields the same item as the bare name. |
| FileUploadController.BlankNameAccepted | backend/src/controllers/fileUploadController.ts:52-57 | A budget name made only of blanks passes the required-field check and becomes the empty name. |
| FileUploadController.FindOrCreateBudget | backend/src/controllers/fileUploadController.ts:63-66 | The store afterwards is the budget step: the caller's least budget with that name, or a new one. |
| FileUploadController.FindOrCreateDepartment | backend/src/controllers/fileUploadController.ts:69-74 | The department step, scoped to the budget found. |
| FileUploadController.FindOrCreateProject | backend/src/controllers/fileUploadController.ts:77-82 | The project step, scoped to the department found. |
| FileUploadController.FindOrCreateVendor | backend/src/controllers/fileUploadController.ts:85-90 | The vendor step, scoped to the project found. |
| FileUploadController.WalkRow | backend/src/controllers/fileUploadController.ts:62-90 | The four steps in order; the result is the vendor the walk reaches. |
| FileUploadController.ImportRow | backend/src/controllers/fileUploadController.ts:50-100 | One loop iteration: an incomplete row changes nothing, a complete row is imported as `ImportItem` says. |
| FileUploadController.ImportRows | backend/src/controllers/fileUploadController.ts:48-104 | The failure is that of the first incomplete row, and then the tables are as before; otherwise the store is the whole batch imported in order. |
| FileUploadController.UploadBudgetData | backend/src/controllers/fileUploadController.ts:9-123 | No file → 400 and nothing changes. Otherwise the file is removed on every path: 200 with the batch imported, or 500 with the failure and the tables as before. |
| FileUploadController.UploadAcceptedIffNoFailure | backend/src/controllers/fileUploadController.ts:106-121 | An upload is imported exactly when it is not refused. |
| BulkImport.BudgetStepFinds | backend/src/controllers/fileUploadController.ts:63-66 | A found budget leaves the state unchanged; otherwise exactly one budget of the caller with that name is added under the next id. |
| BulkImport.DepartmentStepFinds | backend/src/controllers/fileUploadController.ts:69-74 | The same for a department under its budget. |
| BulkImport.ProjectStepFinds | backend/src/controllers/fileUploadController.ts:77-82 | The same for a project under its department. |
| BulkImport.VendorStepFinds | backend/src/controllers/fileUploadController.ts:85-90 | The same for a vendor under its project. |
| BulkImport.WalkGrows | backend/src/controllers/fileUploadController.ts:62-90 | The walk adds only rows of the caller, keeps the store linked, and ends at a vendor of the caller. |
| BulkImport.WalkResolves | backend/src/controllers/fileUploadController.ts:62-90 | After the walk, the row's path resolves to the vendor the walk reached. |
| BulkImport.WalkFinds | backend/src/controllers/fileUploadController.ts:62-90 | A path that already resolves is walked without creating anything. |
| BulkImport.Walk | backend/src/controllers/fileUploadController.ts:62-90 | The four find-or-create steps never touch the transactions or the transaction counter. |
| BulkImport.AppendTransactionGrows | backend/src/controllers/fileUploadController.ts:93-100 | Adding a transaction under a vendor of the caller keeps the store linked and the nodes as they were. |
| BulkImport.ImportItemGrows | backend/src/controllers/fileUploadController.ts:50-100 | One row adds only the caller's rows and exactly one transaction, under the vendor its path resolves to; a row whose path already resolved adds no node. |
| BulkImport.ImportAllGrows | backend/src/controllers/fileUploadController.ts:50-101 | A batch adds only the caller's rows and advances the transaction counter by one per row. |
| BulkImport.ImportAll | backend/src/controllers/fileUploadController.ts:50-101 | A batch of n rows advances the transaction counter by exactly n. |
| BulkImport.ImportLast | backend/src/controllers/fileUploadController.ts:93-100 | A non-empty batch, its last row imported after the others, advances the transaction counter by its length. |
| BulkImport.ImportLastAppends | backend/src/controllers/fileUploadController.ts:93-100 | The last row of a batch adds one transaction under an id not used before. |
| BulkImport.RowPlacedStable | backend/src/controllers/fileUploadController.ts:93-100 | A placed row stays placed as the store grows. |
| BulkImport.AllPlacedStable | backend/src/controllers/fileUploadController.ts:50-101 | Placed rows stay placed as the store grows. |
| BulkImport.AllPlacedAt | backend/src/controllers/fileUploadController.ts:50-101 | Row j of a placed batch is placed at n0 + j. |
| BulkImport.ImportLastPlaces | backend/src/controllers/fileUploadController.ts:93-100 | The last row of a batch is placed at the id the counter held before it. |
| BulkImport.ImportLastKeepsPlaced | backend/src/controllers/fileUploadController.ts:50-101 | Placing the last row keeps the earlier rows placed. |
| BulkImport.ImportAllPlaces | backend/src/controllers/fileUploadController.ts:50-101 | Row j is stored as transaction n0 + j, with its amount and description, under the vendor its trimmed path resolves to. |
| BulkImport.ImportAllCount | backend/src/controllers/fileUploadController.ts:50-101 | A batch of n rows adds exactly the n transactions numbered from the counter on, and the table grows by n. |
| BulkImport.ImportAllIsolated | backend/src/controllers/fileUploadController.ts:63-66 | Every row attaches to a vendor of the caller, reached from a budget of the caller with the row's budget name, and no other user's data changes. |
| BulkImport.ResolvedImportAddsNoNodes | backend/src/controllers/fileUploadController.ts:63-90 | Rows whose paths all resolve already add no budget, department, project or vendor. |
| BulkImport.ReimportAddsNoNodes | backend/src/controllers/fileUploadController.ts:63-90 | Importing the same rows a second time adds no internal node; only transactions are added. |
| AuthController.SignupNeedsCredentials | backend/src/controllers/authController.ts:12-15 | A missing email or password gives 400 and stores nothing. |
| AuthController.SignupRefusesTakenEmail | backend/src/controllers/authController.ts:16-20 | A registered email gives 409 and leaves the table as it was. |
| AuthController.SignupStoresHashedUser | backend/src/controllers/authController.ts:21-41 | A new email is stored with the hash of the password, even when the secret is missing (then 500). Otherwise 201, the signed `{ userId }` as the cookie, and only `{ id, email }` in the body. |
| AuthController.SignupKeepsWellFormed | backend/src/controllers/authController.ts:16-24 | Signup keeps the table keyed by email with distinct ids below the next id. |
| AuthController.AddUserKeepsWellFormed | backend/src/controllers/authController.ts:22-24 | Adding a user with a new email and the next id keeps the table well formed. |
| AuthController.SignupReply | backend/src/controllers/authController.ts:9-45 | A token is set iff the answer is 201; every existing user row is kept unchanged; the only row that can be added is the request's email; the table changes only with 201 or 500. |
| AuthController.LoginReply | backend/src/controllers/authController.ts:47-73 | A token is set iff the answer is 200, and 200 means: email and password given, email registered, password matching the stored hash, secret configured, and the body shows that row's id and email. |
| AuthController.LoginFailuresLookAlike | backend/src/controllers/authController.ts:53-58 | An unknown email and a wrong password get the same 401 "Invalid credentials" reply. |
| AuthController.LoginSucceeds | backend/src/controllers/authController.ts:47-73 | Login answers 200 with the token cookie and `{ id, email }` exactly for a registered email, a matching password and a configured secret. |
| AuthController.SignupThenLogin | backend/src/controllers/authController.ts:21-73 | A user who has just signed up logs in with the same password (when it matches its own hash) and is shown as that user. |
| AuthController.Users.constructor | backend/src/controllers/authController.ts:16 | The user table starts empty. |
| AuthController.Users.Signup | backend/src/controllers/authController.ts:9-45 | The reply and the table are those of the signup reply; the id counter advances exactly when a row is stored. |
| AuthMiddleware.UpTo | backend/src/middleware/authMiddleware.ts:11 | The text before the first separator: a prefix without a separator, followed by one or by the end. |
| AuthMiddleware.Split | backend/src/middleware/authMiddleware.ts:11 | `split(sep)` yields at least one piece, and no piece contains the separator. |
| AuthMiddleware.JoinSplit | backend/src/middleware/authMiddleware.ts:11 | Joining the pieces of `split(sep)` with the separator gives back the text. |
| AuthMiddleware.SecondPieceAfterBearer | backend/src/middleware/authMiddleware.ts:11 | After `"Bearer "`, the second piece of `split(' ')` is the text up to the next space. |
| AuthMiddleware.BearerToken | backend/src/middleware/authMiddleware.ts:11 | The token is the second space-separated piece: it holds no space, and the header continues after it with a space or ends. |
| AuthMiddleware.CookieWins | backend/src/middleware/authMiddleware.ts:11 | A non-empty cookie token is chosen whatever the header says. |
| AuthMiddleware.HeaderNeedsBearer | backend/src/middleware/authMiddleware.ts:11 | Without a cookie token, the header is used iff it starts with `"Bearer "`, and the token is the word after it. |
| AuthMiddleware.SelectToken | backend/src/middleware/authMiddleware.ts:11 | No token iff there is no non-empty cookie and no header starting with `"Bearer "`; a token from the header is a space-free prefix of the text after `"Bearer "`. |
| AuthMiddleware.Admitted | backend/src/middleware/authMiddleware.ts:10-18 | With a non-empty cookie the request is admitted as whatever `jwt.verify` decodes from it; with neither cookie nor Bearer header it is never admitted. |
| AuthMiddleware.Attempts | backend/src/middleware/authMiddleware.ts:12-20 | The handler as written attempts no response iff the token verifies; otherwise at most two, each 401 or 403, and when two, 401 first then 403. |
| AuthMiddleware.Deliver | backend/src/middleware/authMiddleware.ts:12-20 | Only the first response attempt reaches the client; a second attempt on the same response raises `ERR_HTTP_HEADERS_SENT` instead. |
| AuthMiddleware.MissingTokenAttemptsTwice | backend/src/middleware/authMiddleware.ts:12-21 | As written, a request without a token attempts two responses: the 401 is sent, then the catch block attempts a 403, which throws `ERR_HTTP_HEADERS_SENT`; the client sees only the 401. |
| AuthMiddleware.ReturningAnswersOnce | backend/src/middleware/authMiddleware.ts:12-21 | With the return in place, each request is either passed on (token verifies) or answered once: 401 without a token, 403 for a token that fails to verify. The client receives the same responses from the handler as written, which additionally throws exactly when there is no token. |
| AuthMiddleware.Request.constructor | backend/src/middleware/authMiddleware.ts:10 | A request carries its cookie and header and no user id yet. |
| AuthMiddleware.Request.AuthenticateToken | backend/src/middleware/authMiddleware.ts:10-21 | The outcomes are those of the as-written handler (each attempt sent or raising); `next` is called iff the token verifies, and only then is `userId` set to the decoded id. |
| AuthMiddleware.Request.AuthenticateTokenReturning | backend/src/middleware/authMiddleware.ts:12-14 | The corrected handler: the same admission, with one response at most. |
| UploadMiddleware.FileFilter | backend/src/middleware/uploadMiddleware.ts:24-31 | Accepts iff the mimetype is text/csv, application/vnd.ms-excel or the OOXML sheet type; otherwise rejects with "Only CSV or Excel files are allowed". |
| UploadMiddleware.StoredName | backend/src/middleware/uploadMiddleware.ts:16-20 | The stored name `${baseName}-${now}${ext}` holds no path separator, so it stays inside the upload directory. |
| UploadMiddleware.StoredNameKeepsExtension | backend/src/middleware/uploadMiddleware.ts:16-20 | The stored name has the original's extension exactly when the original's last component is not "..". |
| UploadMiddleware.KeepsPresentExtension | backend/src/middleware/uploadMiddleware.ts:16-20 | An original with an extension keeps it. |
| UploadMiddleware.DotDotGainsExtension | backend/src/middleware/uploadMiddleware.ts:16-20 | An original whose last component is ".." has no extension, but its stored name "..-<time>" has one. |
| UploadMiddleware.KeepsMissingExtension | backend/src/middleware/uploadMiddleware.ts:16-20 | Any other original without an extension gets a stored name without one. |
| UploadMiddleware.StoredNamesDifferInTime | backend/src/middleware/uploadMiddleware.ts:19 | The same file uploaded at two different instants is stored under two different names. |
| NodePath.TrimTrailingSlashes | backend/src/middleware/uploadMiddleware.ts:17-18 | The result is a prefix of the path that does not end in '/', and only slashes were removed. |
| NodePath.AfterLastSlash | backend/src/middleware/uploadMiddleware.ts:17-18 | The result is a suffix without '/', preceded by '/' or the start of the text. |
| NodePath.LastComponent | backend/src/middleware/uploadMiddleware.ts:18 | `path.basename`: the last component holds no separator. |
| NodePath.LastDot | backend/src/middleware/uploadMiddleware.ts:17 | The index of the last '.' in the component, or -1 when it has none. |
| NodePath.ComponentExt | backend/src/middleware/uploadMiddleware.ts:17 | `path.extname` of a component: empty or a suffix starting at its last dot, never for a leading dot or "..". |
| NodePath.Stem | backend/src/middleware/uploadMiddleware.ts:18 | The stem followed by the extension is the last component. |
| NodePath.StemAndExtensionHaveNoSeparator | backend/src/middleware/uploadMiddleware.ts:17-19 | Neither the stem nor the extension holds a separator. |
| NodePath.PlainNameIsLastComponent | backend/src/middleware/uploadMiddleware.ts:18 | A name without separators is its own last component. |
| DashboardBroadcaster.AddedKeepsNewestHundred | backend/src/utils/dashboardBroadcaster.ts:18-23 | After an add the list holds at most 100 entries, the new one last, and is the end of the old list plus the new entry, in order; only the oldest entries are dropped. |
| DashboardBroadcaster.SliceFrom | backend/src/utils/dashboardBroadcaster.ts:22 | `slice(start)` is a suffix of the list: of length min(-start, length) for a negative start, and length - start (at least 0) otherwise. |
| DashboardBroadcaster.Added | backend/src/utils/dashboardBroadcaster.ts:18-23 | After an add the list has one more entry, up to 100, and the new entry is last. |
| DashboardBroadcaster.Broadcaster.constructor | backend/src/utils/dashboardBroadcaster.ts:9 | The log starts empty. |
| DashboardBroadcaster.Broadcaster.AddNotification | backend/src/utils/dashboardBroadcaster.ts:11-26 | The log becomes `Added(old, {type, data, now})` and stays within the cap. |
| DashboardBroadcaster.Broadcaster.GetRecentNotifications | backend/src/utils/dashboardBroadcaster.ts:28-30 | For limit ≥ 1, the last min(limit, length) entries in order; for limit 0 (`slice(-0)`), the whole list; never longer than the list. |
| DashboardBroadcaster.Broadcaster.GetRecentNotificationsByDefault | backend/src/utils/dashboardBroadcaster.ts:28 | Without an argument, the last min(10, length) entries. |
| DashboardBroadcaster.Broadcaster.ClearNotifications | backend/src/utils/dashboardBroadcaster.ts:32-34 | The log becomes empty. |
| DashboardBroadcaster.NotifyNewTransaction | backend/src/utils/dashboardBroadcaster.ts:40-42 | Appends an entry of type 'transaction'. |
| DashboardBroadcaster.NotifyNewBudget | backend/src/utils/dashboardBroadcaster.ts:44-46 | Appends an entry of type 'budget'. |
| DashboardBroadcaster.NotifyAnomaly | backend/src/utils/dashboardBroadcaster.ts:48-50 | Appends an entry of type 'anomaly'. |
| ProjectRoutes.InitialIdsByPosition | backend/src/routes/projectRoutes.ts:10-14 | The list starts with three projects with ids "1", "2", "3", each id its position plus one. |
| ProjectRoutes.IdsUnique | backend/src/routes/projectRoutes.ts:10-29 | Ids given by position are pairwise distinct. |
| ProjectRoutes.Projects.constructor | backend/src/routes/projectRoutes.ts:10-14 | The list is the three sample projects. |
| ProjectRoutes.Projects.GetAll | backend/src/routes/projectRoutes.ts:16-18 | The whole list in insertion order, its ids pairwise distinct. |
| ProjectRoutes.Projects.Create | backend/src/routes/projectRoutes.ts:20-29 | Appends exactly one project whose id is the previous length plus one, with name and departmentId as given (no validation), and answers 201; the new id differs from every earlier one. |
| Text.Lower | ml-services/src/models/nlp_processor.py:31 | Lower-casing keeps the length and maps each character through its ASCII lower case. |
| Text.ContainsInConcat | src/api/voice.py:51-53 | A substring of a text is still a substring once text is added on either side. |
| Text.TrimStart | backend/src/controllers/fileUploadController.ts:57-60 | The result is a suffix of the text, and only white space was removed. |
| Text.TrimEnd | backend/src/controllers/fileUploadController.ts:57-60 | The result is a prefix of the text, and only white space was removed. |
| Text.TrimStartNoLeadingSpace | backend/src/controllers/fileUploadController.ts:57-60 | The result of TrimStart does not begin with white space. |
| Text.TrimEndNoTrailingSpace | backend/src/controllers/fileUploadController.ts:57-60 | The result of TrimEnd does not end with white space. |
| Text.TrimEndKeepsLeading | backend/src/controllers/fileUploadController.ts:57-60 | Trimming the end keeps the first character of a string that does not start with white space. |
| Text.TrimmedEnds | backend/src/controllers/fileUploadController.ts:57-60 | A trimmed string neither starts nor ends with white space. |
| Text.TrimIdempotent | backend/src/controllers/fileUploadController.ts:56-60 | Trimming twice is trimming once. |
| Text.TrimStartSkipsSpaces | backend/src/controllers/fileUploadController.ts:57-60 | White space before a string is skipped whatever follows. |
| Text.TrimEndSkipsSpaces | backend/src/controllers/fileUploadController.ts:57-60 | White space after a string is dropped whatever precedes it. |
| Text.TrimStartOfConcat | backend/src/controllers/fileUploadController.ts:57-60 | Trimming the start of s + y trims s and keeps y, unless s is all white space. |
| Text.TrimIgnoresPadding | backend/src/controllers/fileUploadController.ts:56-60 | White space around a string makes no difference once it is trimmed. |
| Text.TrimOfSpaces | backend/src/controllers/fileUploadController.ts:57 | A string made only of white space trims to the empty string. |
| Text.RunLength | ml-services/src/models/nlp_processor.py:66 | The length of the longest prefix made of the class's characters. |
| Text.RunsAreSubstrings | ml-services/src/models/nlp_processor.py:66 | Every run found is non-empty, made of the class's characters, and occurs in the text. |
| Text.NoRunsWithoutClass | ml-services/src/models/nlp_processor.py:66 | A text without characters of the class has no runs. |
| Text.NatToString | backend/src/routes/projectRoutes.ts:23 | `toString()` of a natural number: a non-empty string of decimal digits. |
| Text.NatToStringInjective | backend/src/routes/projectRoutes.ts:23 | Distinct numbers have distinct decimal strings. |
| NlpProcessor.KeywordCategoriesAreNames | ml-services/src/models/nlp_processor.py:10-44 | The categories found are among the eight category names. |
| NlpProcessor.NameCollectedIff | ml-services/src/models/nlp_processor.py:37-44 | In a table with distinct names, a name is collected exactly when one of its own phrases occurs. |
| NlpProcessor.KeywordCategoryIff | ml-services/src/models/nlp_processor.py:29-44 | Category c is found iff some keyword of c is a substring of the lower-cased text. |
| NlpProcessor.WholeWordIsSubstring | ml-services/src/models/nlp_processor.py:34-41 | A keyword that is a whole word of the text also occurs in it as a substring, so the whole-word test adds nothing. |
| NlpProcessor.ExtractKeywords | ml-services/src/models/nlp_processor.py:29-44 | The result set is exactly the categories of the keywords that occur in the lower-cased text. |
| NlpProcessor.KeywordCategories | ml-services/src/models/nlp_processor.py:29-44 | The categories found are category names, and every category one of whose keywords occurs in the lower-cased text is found. |
| NlpProcessor.CollectMentioned | ml-services/src/models/nlp_processor.py:37-42 | The nested loops append an entry's name once for each of its phrases that is a whole word of the text or occurs in it; a name is in the list iff its entry is mentioned. |
| NlpProcessor.FirstMatchIsFirst | ml-services/src/models/nlp_processor.py:52-58 | The result is entry i's name exactly when the text mentions entry i and no earlier entry. |
| NlpProcessor.FirstMatchNamesAnEntry | ml-services/src/models/nlp_processor.py:52-58 | The result is the default or the name of an entry. |
| NlpProcessor.FirstMatchDefault | ml-services/src/models/nlp_processor.py:57-58 | The default is returned exactly when no entry is mentioned. |
| NlpProcessor.IntentIsFirstMatch | ml-services/src/models/nlp_processor.py:22-58 | The intent is the first of amount, list, comparison and trend with a pattern in the lower-cased text, and "information" when there is none. |
| NlpProcessor.DetectIntent | ml-services/src/models/nlp_processor.py:47-58 | The loop with its early return gives the first-match intent. |
| NlpProcessor.Intent | ml-services/src/models/nlp_processor.py:47-58 | The intent is "information" or the name of one of the four question patterns. |
| NlpProcessor.ConfidenceBounds | ml-services/src/models/nlp_processor.py:76-86 | The confidence lies in [0.5, 1.0]; it is 0.5 iff no category and no intent, and 1.0 iff at least three categories and an intent. |
| NlpProcessor.ConfidenceMonotone | ml-services/src/models/nlp_processor.py:80-81 | More categories never lower the confidence. |
| NlpProcessor.Confidence | ml-services/src/models/nlp_processor.py:76-86 | The confidence lies in [0.5, 1.0] and is 1.0 with three or more categories and an intent. |
| NlpProcessor.ProcessQuery | ml-services/src/models/nlp_processor.py:60-74 | Returns the query, its categories, its intent, the digit runs of the query in order, and the confidence computed from them. |
| NlpProcessor.NumbersAreDigitRuns | ml-services/src/models/nlp_processor.py:65-66 | Each number found is a non-empty run of digits that occurs in the query. |
| NlpProcessor.FirstSectorDecides | ml-services/src/models/nlp_processor.py:93-111 | The first of education, healthcare and vendor found decides; with an intent other than amount or list the answer is "general_help" whatever else was found. |
| NlpProcessor.AnomalyReportIff | ml-services/src/models/nlp_processor.py:112-113 | "anomaly_report" is chosen iff anomaly is found and none of the three sectors is. |
| NlpProcessor.TotalBudgetUnreachable | ml-services/src/models/nlp_processor.py:115-116 | For a processed query "total_budget" is never chosen, because "budget" is not a category name. |
| NlpProcessor.TemplateWithoutBudget | ml-services/src/models/nlp_processor.py:88-118 | Without "budget" among the keywords, no template is "total_budget". |
| NlpProcessor.ResponseTemplate | ml-services/src/models/nlp_processor.py:88-118 | The template is one of the nine names; "total_budget" needs both "total" and "budget"; an intent other than amount or list can only give "anomaly_report", "total_budget" or "general_help". |
| VoiceService.SectorsComeFirst | src/services/voice_service.py:59-72 | Education, then healthcare, then infrastructure outrank every other branch. |
| VoiceService.VendorWithSector | src/services/voice_service.py:59-72 | With a sector, vendor selects that sector's vendor text instead of its summary. |
| VoiceService.LaterBranches | src/services/voice_service.py:74-90 | Without a sector the chain picks, each iff every earlier test failed: vendor ∧ spending, then anomaly ∨ suspicious, then total ∧ (budget ∨ spending), then department, then comparison (intent or "compare" in the lower-cased query), else the default. |
| VoiceService.SmartResponse | src/services/voice_service.py:53-90 | A sector's vendor text needs "vendor"; the vendor summary needs vendor and spending; the default answer means no sector, anomaly, suspicious or department category, no comparison intent and no "compare" in the query. |
| VoiceService.ApologySaysSorry | src/services/voice_service.py:46 | Every error answer begins with "Sorry". |
| VoiceService.TextQueryReplyShape | src/services/voice_service.py:23-51 | Without error: the analyser's confidence, categories, intent and numbers, with processing time 0.1. On error: an apology, confidence 0.0, no categories, intent "error", no numbers. |
| VoiceService.IntentIsNamed | src/services/voice_service.py:37 | A successful reply's intent is one of the four pattern names or "information", never "error". |
| VoiceService.TextQueryReply | src/services/voice_service.py:23-51 | The reply echoes the query with processing time 0.1; it is an apology iff an error occurred, and then has confidence 0.0, no categories, no numbers and no template; otherwise a confidence in [0.5, 1.0], category names and a template. |
| VoiceService.ProcessTextQuery | src/services/voice_service.py:23-51 | The method gives the text-query reply. |
| VoiceService.SimulatedVoiceReply | src/services/voice_service.py:107-111 | The reply to the picked query with confidence max(0.85, confidence - 0.1), so at least 0.85; everything else unchanged. |
| VoiceService.QueryStatistics | src/services/voice_service.py:148-153 | The template count equals the number of response keys (9), and the supported categories are those keys in order. |
| VoiceApi.BudgetQueryOrder | src/api/voice.py:49-69 | Each of the six answers is chosen exactly when its test is the first to hold, in the order education, healthcare, vendor, unusual/anomal, total/budget, default. |
| VoiceApi.EducationAlwaysWins | src/api/voice.py:53-54 | A query containing "education" gets the education answer whatever words surround it. |
| VoiceApi.ProcessBudgetQuery | src/api/voice.py:49-69 | A query mentioning "education" gets the education answer; the help answer means none of the seven test words occurs in the lower-cased query. |
| VoiceApi.TextQuery | src/api/voice.py:15-25 | `/text-query` echoes the query with its answer and confidence 0.95. |
| VoiceApi.SimulateVoice | src/api/voice.py:30-47 | `/simulate-voice` answers the picked query with confidence 0.88. |
| AnomalyApi.CountFrequencies | ml-services/src/api/anomaly.py:44-46 | The vendor map's keys are exactly the request's vendors and the department map's exactly its department ids, each mapped to its number of occurrences. |
| AnomalyApi.OccurrencesPositiveIff | ml-services/src/api/anomaly.py:45-46 | A key is counted at least once exactly when it occurs. |
| AnomalyApi.Features | ml-services/src/api/anomaly.py:49-56 | One feature row per transaction, in order. |
| AnomalyApi.FeatureCountsVendor | ml-services/src/api/anomaly.py:50-55 | Row i carries transaction i's amount and department, and as third feature the number of request transactions with its vendor (at least 1). |
| AnomalyApi.NormalReasons | ml-services/src/api/anomaly.py:128-138 | A normal transaction gets exactly two reasons: the band for abs(score) (< 0.1, < 0.3, else), then "Normal confidence" with abs(score). |
| AnomalyApi.AnomalyReasons | ml-services/src/api/anomaly.py:90-126 | An anomaly gets at most one amount reason (> 50000 before > 10000) and at most one score band, and its last reason is "Anomaly confidence" with abs(score). |
| AnomalyApi.AnomalyReasonTests | ml-services/src/api/anomaly.py:97-123 | The suspicious-vendor reason appears iff the lower-cased vendor contains one of the five keywords; the weekend reason iff the date falls on a weekend; the department reason iff department_id > 10. |
| AnomalyApi.Reasons | ml-services/src/api/anomaly.py:86-140 | Between one and six reasons, exactly two for a normal transaction, and the last is always the confidence line with abs(score). |
| AnomalyApi.Results | ml-services/src/api/anomaly.py:67-79 | One result per verdict; result i is about transaction i. |
| AnomalyApi.Detect | ml-services/src/api/anomaly.py:28-84 | Results are produced iff the model is loaded, the detector answers, and it gives no more verdicts than transactions, one result per verdict; every failure is a 500. |
| AnomalyApi.DetectIntended | ml-services/src/api/anomaly.py:35-36 | The corrected handler fails with 503 without a model and with 500 otherwise. |
| AnomalyApi.MissingModelAnswered500 | ml-services/src/api/anomaly.py:30-84 | As written, a request sent while no model is loaded is answered with 500, not the 503 that is raised. |
| AnomalyApi.IntendedDiffersOnlyWithoutModel | ml-services/src/api/anomaly.py:35-36 | The corrected handler answers 503 exactly when no model is loaded, and otherwise answers as the handler as written. |
| AnomalyApi.OneResultPerTransaction | ml-services/src/api/anomaly.py:66-81 | With one verdict per feature row there is exactly one result per transaction, in input order, with its index, amount, vendor, score, flag and the reasons `Reasons` gives. |
| AnomalyApi.DetectAnomalies | ml-services/src/api/anomaly.py:28-84 | The frequency, feature and result loops give the reply of `Detect`. |
| AnomalyApi.RiskLevels | ml-services/src/api/anomaly.py:257-262 | HIGH iff anomalies > 0.3·total; MEDIUM iff 0.1·total < anomalies ≤ 0.3·total; otherwise LOW. More anomalies never lower the level. |
| AnomalyApi.Risk | ml-services/src/api/anomaly.py:257-262 | HIGH iff 10·anomalies > 3·total, LOW iff 10·anomalies ≤ total, in whole numbers. |
| AnomalyApi.RecommendationCount | ml-services/src/api/anomaly.py:291-321 | 4, 4 or 3 base lines for HIGH, MEDIUM, LOW, plus exactly two more iff anomalies > 0, the first of which carries the count. |
| AnomalyApi.Recommendations | ml-services/src/api/anomaly.py:291-321 | Three to six lines; the threshold line is present iff something was flagged. |
| AnomalyApi.FlaggedAreTheAnomalies | ml-services/src/api/anomaly.py:276-285 | One flag per anomalous result: as many flags as anomalies, each made from an anomalous result, and every anomalous result flagged. |
| AnomalyApi.Flagged | ml-services/src/api/anomaly.py:276-285 | Never more flags than results, and every flag's risk score is non-negative. |
| AnomalyApi.FlaggedInIndexOrder | ml-services/src/api/anomaly.py:276-285 | Results in index order give flags in index order. |
| AnomalyApi.AnomalousAmountIsFlaggedSum | ml-services/src/api/anomaly.py:249-255 | `anomalous_amount` is the sum of the amounts of the flagged transactions. |
| AnomalyApi.ResultsIndexInOrder | ml-services/src/api/anomaly.py:67-79 | The results index into the request, in increasing order, and carry its amounts. |
| AnomalyApi.BatchReportConsistent | ml-services/src/api/anomaly.py:248-285 | A batch report has one flag per anomaly, each from an anomalous result, in index order; its anomalous amount is the sum of the flagged amounts; the total is the number of results (> 0); its risk level and recommendations follow the counts. |
| AnomalyApi.BatchFailures | ml-services/src/api/anomaly.py:243-289 | The batch fails iff detection fails or yields no result (the division by zero), always with 500; otherwise the report carries the detection's results and their summary. |
| AnomalyApi.SummaryCounts | ml-services/src/api/anomaly.py:248-262 | The summary counts the results, and the anomalies among them (no more than the results), and rates the risk from those two counts. |
| AnomalyApi.SummaryRate | ml-services/src/api/anomaly.py:268 | The anomaly rate times the number of results is 100 times the anomalies. |
| AnomalyApi.SummaryRateBounded | ml-services/src/api/anomaly.py:268 | The anomaly rate lies between 0 and 100. |
| AnomalyApi.SummaryAmountShare | ml-services/src/api/anomaly.py:250-272 | The total is the sum of the request amounts, the anomalous amount that of the anomalous rows; the anomalous percentage times a positive total is 100 times the anomalous amount, and 0 when the total is not positive. |
| AnomalyApi.Percent | ml-services/src/api/anomaly.py:268-272 | A percentage times its whole gives 100 times the part, and lies in [0, 100] when the part does not exceed the whole. |
| AnomalyApi.FlagsHaveAReason | ml-services/src/api/anomaly.py:282 | An anomalous result always has a first reason, so no flag says "Unknown". |
| DataProcessor.ValidateTransactionData | src/utils/data_processor.py:10-26 | True iff all four required fields are present, the amount is an int or float for which `<= 0` is false (NaN and +inf included), and department_id is an int > 0; any missing field gives false. |
| DataProcessor.ValidTransaction | src/utils/data_processor.py:13-26 | A valid record has all four required fields, a numeric amount and an integer department id. |
| DataProcessor.NonFiniteAmounts | src/utils/data_processor.py:20-21 | A valid record stays valid with a NaN or a positive-infinity amount, and becomes invalid with negative infinity. |
| DataProcessor.VendorAndDateUnchecked | src/utils/data_processor.py:13-26 | vendor_name and transaction_date are only required to be present: any values there leave the verdict unchanged. |
| DataProcessor.DepartmentTypeChecks | src/utils/data_processor.py:20-24 | A float department id is refused even when whole; `True` passes as an int; an amount of 0 is refused. |
| DataProcessor.FormatAnomalyResponse | src/utils/data_processor.py:108-139 | The loop gives `Formatted`: one result per (score, flag) pair, or a failure when the pairs run past the rows. |
| DataProcessor.Formatted | src/utils/data_processor.py:108-139 | Fails iff there are more scores and more flags than rows; otherwise one result per (score, flag) pair, result i carrying index i, score i, flag i and row i's amount, with "appears normal" among its reasons iff it is not flagged. |
| DataProcessor.OneFormattedResultPerRow | src/utils/data_processor.py:117-137 | With one score and flag per row: one result per row, in order, with its index, amount, vendor, score and flag. |
| DataProcessor.FormatterNeedsRows | src/utils/data_processor.py:117-118 | The formatter fails exactly when there are more scores and more flags than rows. |
| DataProcessor.FormattedReasonsSay | src/utils/data_processor.py:120-128 | A normal row gets exactly "appears normal". An anomalous row gets "unusually high" iff amount > 10000 and "highly unusual" iff score < -0.5, and always ends with its score. |

## Left out

- Parsing: CSV and XLSX parsing are inputs (the rows each parser would yield). `parseFloat` and `String(number)` are function parameters, and dates and booleans in cells are not modelled. The model does not reject NaN, because the code does not.
- File system: `fs.unlinkSync`, multer's disk storage and the `mkdirSync` of the upload directory at uploadMiddleware.ts:8-10 are not modelled. Removing the upload is a ghost flag, and the destination is the constant `UploadMiddleware.Destination`.
- Prisma: the transaction's isolation and its 30-second timeout are not modelled. Atomicity is a snapshot and restore.
- Prisma schema: the schema is not part of this model. Deleting a row that still has children is modelled as a foreign-key error, answered with 500. Created rows are returned as the reply's tables, not as JSON.
- Counters: autoincrement counters are never rolled back, as in PostgreSQL.
- Catch-all handlers: the 500 replies for errors the model cannot raise (a lost database connection) are not modelled.
- Authentication: bcrypt and JWT are function parameters. The cookie options (`httpOnly`, `secure`, `sameSite`, `maxAge`) and `JWT_EXPIRE` are not modelled.
- Route parameters: only budgetController tests `Number.isNaN`. The other controllers take an integer id; a non-numeric id there is a Prisma error, which is not modelled.
- Broadcasting: `broadcast` and `broadcastDashboardSummary` are entries in a ghost event log, with no transport. The dashboard log's `console.log` is not modelled, and `new Date()` is a parameter.
- Python number rendering: float formatting (`:.3f`, `round(..., 2)`) is not modelled. Reasons and summaries carry the real value instead of its text.
- Python sets: the order of the set returned by `extract_keywords` is not modelled (a Dafny `set`).
- Lower-casing: only ASCII letters are lower-cased.
- Regular expressions: `\w` and `\d` are read as ASCII.
- AnomalyApi: the random hour feature (anomaly.py:54) is not modelled. The detector (`decision_function` and `predict`) is a function parameter that may fail. The weekday test on `transaction_date` is a parameter (`isWeekend`).
- AnomalyApi.BatchReportConsistent: the rate and percentage are kept as exact reals, not rounded to two places.
- AnomalyApi: the `threshold` request field is not modelled, because the code never reads it.
- Fixed-reply endpoints: `/demo-data` and `/statistics` (anomaly.py:142-238), `/demo-queries` (voice.py:71-83), `get_sample_queries` (voice_service.py:113-146) and `demo_nlp_processing` (nlp_processor.py:121-144) are not modelled. They return constant data.
- VoiceService.SimulatedVoiceReply: `random.choice` is replaced by the picked query as a parameter. The same holds for VoiceApi.SimulateVoice.
- VoiceService.QueryStatistics: the constant feature list and speed text are not modelled.
- VoiceService.TextQueryReplyShape: the exception is a parameter, because the analyser cannot raise on a string.
- DataProcessor: `clean_transaction_data`, `calculate_statistics` and `load_sample_data` are not modelled. They are pandas wrappers over float statistics and file I/O.
- DataProcessor: a data-frame row is reduced to the amount and vendor_name columns the formatter reads.
- ML internals: IsolationForest training and model persistence are not modelled.
- Hierarchy.First: `findFirst` without `orderBy` promises only some matching row; the least id is a modelling choice. With unique sibling names every choice gives the same row (Hierarchy.AnyFindFirstWhenUnique).
- Hierarchy.LeastOf: scans for the least matching id, which is what `findFirst` is taken to return; see Hierarchy.First.
- BulkImport.ReimportAddsNoNodes: relies on the least-id reading of `findFirst`, and holds for any reading when no two siblings share a name.
- Module wiring: the route files import `authMiddleware`, which authMiddleware.ts does not export (it exports `authenticateToken`), and the controllers import `broadcast` from index.ts and `broadcastDashboardSummary` from dashboardBroadcaster.ts, neither of which is exported there. The model takes the evident intent: `authenticateToken` guards the routes and the two broadcasts push events.
- Network clients and wiring: the AI proxy, the network clients and the server wiring are not modelled. They contain no logic beyond the calls they forward.

## Findings

| source | as written | input that shows it | evidently intended | confidence | as-written member | corrected member |
|---|---|---|---|---|---|---|
| backend/src/middleware/authMiddleware.ts:12-14 | the missing-token branch sends 401 but does not return, so `jwt.verify` runs on `null` and throws; the catch block then attempts a 403 on the already-answered response, which throws `ERR_HTTP_HEADERS_SENT`; the client sees only the 401 | a request with no `token` cookie and no `Authorization` header | answer 401 once and stop, as every other branch does with `return` | not executed | AuthMiddleware.MissingTokenAttemptsTwice | AuthMiddleware.ReturningAnswersOnce |
| ml-services/src/api/anomaly.py:35-36 | the 503 for a missing model is raised inside the `try`, and the catch-all `except Exception` at lines 83-84 turns it into a 500 | any `/detect` or `/batch-analyze` request while `anomaly_detector` is not loaded | answer 503 "Anomaly detection model not loaded" | not executed | AnomalyApi.MissingModelAnswered500 | AnomalyApi.IntendedDiffersOnlyWithoutModel |
