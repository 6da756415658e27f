/**
 * `uploadBudgetData`: a CSV or Excel upload whose rows each name a budget, a
 * department, a project and a vendor, plus an amount and an optional
 * description. Inside one database transaction every row is resolved level by
 * level (find the node by trimmed name under its parent, else create it) and
 * gains one transaction under its vendor; any failure rolls the whole batch
 * back. The uploaded file is removed on every path once it exists.
 *
 * The CSV and spreadsheet parsers, `parseFloat` and `String(number)` are not
 * modelled: their outcomes are data of the uploaded file or parameters.
 */
module FileUploadController {
  import opened Wrappers
  import opened Text
  import Http
  import opened NodePath
  import opened Hierarchy
  import opened Persistence
  import opened BulkImport

  /** A cell as the parsers hand it over: CSV cells are text, spreadsheet cells text or numbers. */
  datatype Cell = TextCell(text: string) | NumberCell(number: real)

  /** One parsed row; a column the row lacks is None. */
  datatype Row = Row(
    budgetName: Option<Cell>,
    departmentName: Option<Cell>,
    projectName: Option<Cell>,
    vendorName: Option<Cell>,
    amount: Option<Cell>,
    description: Option<Cell>)

  /** The sheet names in workbook order and the rows `sheet_to_json` yields for each sheet. */
  datatype Workbook = Workbook(sheetNames: seq<string>, sheets: map<string, seq<Row>>)

  /**
   * The stored upload as its two parsers see it: the rows the CSV stream
   * emits (None when the stream fails) and the workbook read from it (None
   * when reading throws).
   */
  datatype UploadedFile = UploadedFile(originalName: string, csvRows: Option<seq<Row>>, workbook: Option<Workbook>)

  /** Why the batch is refused with 500. */
  datatype Failure =
    | UnsupportedType     // an extension other than .csv, .xls, .xlsx
    | NoSheets            // the workbook has no (non-empty) first sheet name
    | NoWorksheet         // the first sheet name has no sheet
    | Unreadable          // the parser itself failed
    | MissingFields       // a row lacks one of the five required fields
    | DescriptionRefused  // the store refuses a description that is a number

  datatype Parsed = Rows(rows: seq<Row>) | ParseFailed(failure: Failure)

  const CsvExt: string := ".csv"
  const XlsExt: string := ".xls"
  const XlsxExt: string := ".xlsx"

  datatype Format = Csv | Excel | Unsupported

  /** The parser a lower-cased extension calls for. */
  function FormatOfExtension(ext: string): Format {
    if ext == CsvExt then Csv
    else if ext == XlsExt || ext == XlsxExt then Excel
    else Unsupported
  }

  /** The lower-cased extension of the client's file name picks the parser. */
  function FormatOf(originalName: string): Format {
    FormatOfExtension(Lower(ExtName(originalName)))
  }

  /** Exactly ".csv", ".xls" and ".xlsx" are parsed, in any letter case. */
  lemma FormatOfExtensions(originalName: string)
    ensures FormatOf(originalName) == Csv <==> Lower(ExtName(originalName)) == CsvExt
    ensures FormatOf(originalName) == Excel <==> Lower(ExtName(originalName)) == XlsExt || Lower(ExtName(originalName)) == XlsxExt
  {
  }

  /** Names whose extensions agree but for letter case are parsed alike. */
  lemma {:induction false} FormatIgnoresCase(name: string, otherName: string)
    requires |ExtName(name)| == |ExtName(otherName)|
    requires forall i :: 0 <= i < |ExtName(name)| ==> LowerChar(ExtName(name)[i]) == LowerChar(ExtName(otherName)[i])
    ensures FormatOf(name) == FormatOf(otherName)
  {
    assert Lower(ExtName(name)) == Lower(ExtName(otherName));
  }

  /** The rows of the upload, read by the parser its format calls for. */
  function ParseRows(file: UploadedFile): (p: Parsed)
    ensures FormatOf(file.originalName) == Unsupported <==> p == ParseFailed(UnsupportedType)
    ensures FormatOf(file.originalName) == Csv ==>
      p == (if file.csvRows.Some? then Rows(file.csvRows.value) else ParseFailed(Unreadable))
    ensures FormatOf(file.originalName) == Excel && p.Rows? ==>
      file.workbook.Some? && |file.workbook.value.sheetNames| > 0 && file.workbook.value.sheetNames[0] != ""
      && file.workbook.value.sheetNames[0] in file.workbook.value.sheets
      && p.rows == file.workbook.value.sheets[file.workbook.value.sheetNames[0]]
  {
    match FormatOf(file.originalName)
    case Csv =>
      (match file.csvRows
       case Some(rows) => Rows(rows)
       case None => ParseFailed(Unreadable))
    case Excel =>
      (match file.workbook
       case None => ParseFailed(Unreadable)
       case Some(wb) =>
         if |wb.sheetNames| == 0 || wb.sheetNames[0] == "" then ParseFailed(NoSheets)
         else if wb.sheetNames[0] !in wb.sheets then ParseFailed(NoWorksheet)
         else Rows(wb.sheets[wb.sheetNames[0]]))
    case Unsupported => ParseFailed(UnsupportedType)
  }

  // ---------------------------------------------------------------------------
  // One row

  /** JavaScript's `!cell`: absent, the empty string or the number 0. */
  predicate Falsy(c: Option<Cell>) {
    c.None? || c == Some(TextCell("")) || c == Some(NumberCell(0.0))
  }

  /** The check that aborts the batch. */
  predicate MissingRequired(row: Row) {
    Falsy(row.budgetName) || Falsy(row.departmentName) || Falsy(row.projectName)
    || Falsy(row.vendorName) || Falsy(row.amount)
  }

  /** `String(cell)`. */
  function CellString(c: Cell, numberToString: real -> string): string {
    match c
    case TextCell(t) => t
    case NumberCell(x) => numberToString(x)
  }

  /** The four trimmed names of a row that has them. */
  function RowPath(row: Row, numberToString: real -> string): (path: Path)
    requires !MissingRequired(row)
    ensures path.budget == Trim(CellString(row.budgetName.value, numberToString))
    ensures path.vendor == Trim(CellString(row.vendorName.value, numberToString))
  {
    Path(Trim(CellString(row.budgetName.value, numberToString)),
         Trim(CellString(row.departmentName.value, numberToString)),
         Trim(CellString(row.projectName.value, numberToString)),
         Trim(CellString(row.vendorName.value, numberToString)))
  }

  /** What `row.description || null` becomes in the store. */
  datatype Description = Kept(value: Option<string>) | Refused

  function DescriptionOf(c: Option<Cell>): (d: Description)
    ensures Falsy(c) ==> d == Kept(None)
    ensures d == Refused <==> !Falsy(c) && c.value.NumberCell?
    ensures !Falsy(c) && c.value.TextCell? ==> d == Kept(Some(c.value.text))
  {
    if Falsy(c) then Kept(None)
    else match c.value
      case TextCell(t) => Kept(Some(t))
      case NumberCell(_) => Refused
  }

  datatype RowCheck = Complete(item: Item) | Incomplete(failure: Failure)

  /** The item one row contributes, or why it makes the batch fail. */
  function CheckRow(row: Row, parseFloat: Cell -> Amount, numberToString: real -> string): RowCheck {
    if MissingRequired(row) then Incomplete(MissingFields)
    else match DescriptionOf(row.description)
      case Refused => Incomplete(DescriptionRefused)
      case Kept(d) => Complete(Item(RowPath(row, numberToString), parseFloat(row.amount.value), d))
  }

  /**
   * A row is complete exactly when its five required fields are truthy and
   * its description is text or falsy; its item then carries the trimmed
   * names, the parsed amount and the description or null.
   */
  lemma CheckRowMeaning(row: Row, parseFloat: Cell -> Amount, numberToString: real -> string)
    ensures CheckRow(row, parseFloat, numberToString).Complete?
      <==> !MissingRequired(row) && (Falsy(row.description) || row.description.value.TextCell?)
    ensures CheckRow(row, parseFloat, numberToString) == Incomplete(MissingFields) <==> MissingRequired(row)
    ensures CheckRow(row, parseFloat, numberToString).Complete? ==>
      CheckRow(row, parseFloat, numberToString).item
        == Item(RowPath(row, numberToString), parseFloat(row.amount.value),
                if Falsy(row.description) then None else Some(row.description.value.text))
  {
  }

  /** The verdict on every row, in order. */
  function Checks(rows: seq<Row>, parseFloat: Cell -> Amount, numberToString: real -> string): seq<RowCheck> {
    seq(|rows|, i requires 0 <= i < |rows| => CheckRow(rows[i], parseFloat, numberToString))
  }

  /** The items of the checked rows, in order, when every row is complete. */
  function Collect(checks: seq<RowCheck>): (r: Option<seq<Item>>)
    ensures r.Some? ==> |r.value| == |checks|
    decreases |checks|
  {
    if checks == [] then Some([])
    else
      var items := Collect(checks[..|checks| - 1]);
      var last := checks[|checks| - 1];
      if items.Some? && last.Complete? then Some(items.value + [last.item]) else None
  }

  /** All rows are complete exactly when the items are collected, and item i is row i's. */
  lemma {:induction false} CollectMeaning(checks: seq<RowCheck>)
    ensures Collect(checks).Some? <==> forall i :: 0 <= i < |checks| ==> checks[i].Complete?
    ensures Collect(checks).Some? ==> forall i :: 0 <= i < |checks| ==> Collect(checks).value[i] == checks[i].item
    decreases |checks|
  {
    if checks != [] {
      var front := checks[..|checks| - 1];
      CollectMeaning(front);
      assert forall i :: 0 <= i < |front| ==> front[i] == checks[i];
    }
  }

  /** One more checked row. */
  lemma CollectPrefix(checks: seq<RowCheck>, i: int)
    requires 0 <= i < |checks|
    ensures Collect(checks[..i + 1])
      == if Collect(checks[..i]).Some? && checks[i].Complete? then Some(Collect(checks[..i]).value + [checks[i].item]) else None
  {
    assert checks[..i + 1][..i] == checks[..i];
  }

  /** The items of all rows, when every row is complete. */
  function CheckRows(rows: seq<Row>, parseFloat: Cell -> Amount, numberToString: real -> string): Option<seq<Item>> {
    Collect(Checks(rows, parseFloat, numberToString))
  }

  /** The failure of the first incomplete row, if any. */
  function FirstFailure(checks: seq<RowCheck>): Option<Failure>
    decreases |checks|
  {
    if checks == [] then None
    else if checks[0].Incomplete? then Some(checks[0].failure)
    else FirstFailure(checks[1..])
  }

  /** The first failure is that of row i when the rows before it are complete. */
  lemma {:induction false} FirstFailureAt(checks: seq<RowCheck>, i: int)
    requires 0 <= i < |checks| && checks[i].Incomplete?
    requires forall j :: 0 <= j < i ==> checks[j].Complete?
    ensures FirstFailure(checks) == Some(checks[i].failure)
    decreases i
  {
    if i > 0 {
      FirstFailureAt(checks[1..], i - 1);
    }
  }

  /** The first failure is that of row i when the rows before it were collected. */
  lemma FirstFailureAfterCollected(checks: seq<RowCheck>, i: int)
    requires 0 <= i < |checks| && checks[i].Incomplete?
    requires Collect(checks[..i]).Some?
    ensures FirstFailure(checks) == Some(checks[i].failure)
  {
    CollectMeaning(checks[..i]);
    assert forall j :: 0 <= j < i ==> checks[..i][j] == checks[j];
    FirstFailureAt(checks, i);
  }

  /** A batch fails exactly when some row is incomplete; otherwise its items are collected. */
  lemma {:induction false} FirstFailureIffNotCollected(checks: seq<RowCheck>)
    ensures FirstFailure(checks).None? <==> Collect(checks).Some?
    decreases |checks|
  {
    CollectMeaning(checks);
    if checks != [] {
      FirstFailureIffNotCollected(checks[1..]);
      CollectMeaning(checks[1..]);
      assert forall j :: 0 <= j < |checks| - 1 ==> checks[1..][j] == checks[j + 1];
    }
  }

  /** The items a whole upload contributes, when it is accepted. */
  function UploadItems(file: UploadedFile, parseFloat: Cell -> Amount, numberToString: real -> string): Option<seq<Item>> {
    match ParseRows(file)
    case Rows(rows) => CheckRows(rows, parseFloat, numberToString)
    case ParseFailed(_) => None
  }

  /** Why an upload is refused, if it is. */
  function UploadFailure(file: UploadedFile, parseFloat: Cell -> Amount, numberToString: real -> string): Option<Failure> {
    match ParseRows(file)
    case Rows(rows) => FirstFailure(Checks(rows, parseFloat, numberToString))
    case ParseFailed(f) => Some(f)
  }

  /** A budget name surrounded by blanks reaches the same budget as the bare name. */
  lemma {:induction false} PaddedNameImportsAlike(row: Row, left: string, right: string,
                                                  parseFloat: Cell -> Amount, numberToString: real -> string)
    requires !MissingRequired(row) && row.budgetName.value.TextCell?
    requires forall i :: 0 <= i < |left| ==> IsSpace(left[i])
    requires forall i :: 0 <= i < |right| ==> IsSpace(right[i])
    ensures var padded := row.(budgetName := Some(TextCell(left + row.budgetName.value.text + right)));
      CheckRow(padded, parseFloat, numberToString) == CheckRow(row, parseFloat, numberToString)
  {
    TrimIgnoresPadding(row.budgetName.value.text, left, right);
  }

  /**
   * The required-field check runs before trimming: a name made only of
   * blanks passes it and is stored as the empty name.
   */
  lemma {:induction false} BlankNameAccepted(row: Row, blanks: string, parseFloat: Cell -> Amount, numberToString: real -> string)
    requires blanks != [] && forall i :: 0 <= i < |blanks| ==> IsSpace(blanks[i])
    requires row.budgetName == Some(TextCell(blanks))
    requires !Falsy(row.departmentName) && !Falsy(row.projectName) && !Falsy(row.vendorName) && !Falsy(row.amount)
    requires !Falsy(row.description) ==> row.description.value.TextCell?
    ensures CheckRow(row, parseFloat, numberToString).Complete?
    ensures CheckRow(row, parseFloat, numberToString).item.path.budget == ""
  {
    assert !Falsy(row.budgetName) by {
      assert TextCell(blanks) != TextCell("");
    }
    assert !MissingRequired(row);
    TrimOfSpaces(blanks);
    CheckRowMeaning(row, parseFloat, numberToString);
  }

  // ---------------------------------------------------------------------------
  // The find-or-create steps, as executed against the store

  method FindOrCreateBudget(s: Store, name: string, user: UserId) returns (id: Id)
    requires s.Valid()
    modifies s
    ensures s.Valid() && s.events == old(s.events) && id in s.budgets
    ensures (State(s.Snapshot(), s.NextIds()), id) == BudgetStep(State(old(s.Snapshot()), old(s.NextIds())), name, user)
  {
    var found := LeastOf(BudgetsNamed(s.Snapshot(), name, user));
    if found.Some? {
      id := found.value;
    } else {
      id := s.InsertBudget(Budget(name, user));
    }
  }

  method FindOrCreateDepartment(s: Store, name: string, budgetId: Id) returns (id: Id)
    requires s.Valid() && budgetId in s.budgets
    modifies s
    ensures s.Valid() && s.events == old(s.events) && id in s.departments && s.budgets == old(s.budgets)
    ensures (State(s.Snapshot(), s.NextIds()), id) == DepartmentStep(State(old(s.Snapshot()), old(s.NextIds())), name, budgetId)
  {
    var found := LeastOf(DepartmentsNamed(s.Snapshot(), name, budgetId));
    if found.Some? {
      id := found.value;
    } else {
      id := s.InsertDepartment(Department(name, budgetId));
    }
  }

  method FindOrCreateProject(s: Store, name: string, departmentId: Id) returns (id: Id)
    requires s.Valid() && departmentId in s.departments
    modifies s
    ensures s.Valid() && s.events == old(s.events) && id in s.projects
    ensures s.budgets == old(s.budgets) && s.departments == old(s.departments)
    ensures (State(s.Snapshot(), s.NextIds()), id) == ProjectStep(State(old(s.Snapshot()), old(s.NextIds())), name, departmentId)
  {
    var found := LeastOf(ProjectsNamed(s.Snapshot(), name, departmentId));
    if found.Some? {
      id := found.value;
    } else {
      id := s.InsertProject(Project(name, departmentId));
    }
  }

  method FindOrCreateVendor(s: Store, name: string, projectId: Id) returns (id: Id)
    requires s.Valid() && projectId in s.projects
    modifies s
    ensures s.Valid() && s.events == old(s.events) && id in s.vendors
    ensures (State(s.Snapshot(), s.NextIds()), id) == VendorStep(State(old(s.Snapshot()), old(s.NextIds())), name, projectId)
  {
    var found := LeastOf(VendorsNamed(s.Snapshot(), name, projectId));
    if found.Some? {
      id := found.value;
    } else {
      id := s.InsertVendor(Vendor(name, projectId));
    }
  }

  /** The four lookups of one row. */
  method WalkRow(s: Store, user: UserId, path: Path) returns (v: Id)
    requires s.Valid()
    modifies s
    ensures s.Valid() && s.events == old(s.events) && v in s.vendors
    ensures NotBehind(s.NextIds(), old(s.NextIds()))
    ensures (State(s.Snapshot(), s.NextIds()), v) == Walk(State(old(s.Snapshot()), old(s.NextIds())), user, path)
  {
    ghost var st := State(s.Snapshot(), s.NextIds());
    var b := FindOrCreateBudget(s, path.budget, user);
    var d := FindOrCreateDepartment(s, path.department, b);
    var p := FindOrCreateProject(s, path.project, d);
    v := FindOrCreateVendor(s, path.vendor, p);
    WalkGrows(st, user, path);
  }

  /**
   * The body of the loop for one row: the required-field check, the walk,
   * then the transaction. A refused description is only discovered when the
   * transaction is written, after the walk.
   */
  method ImportRow(s: Store, user: UserId, row: Row, parseFloat: Cell -> Amount, numberToString: real -> string,
                   ghost st0: State, ghost items: seq<Item>)
    returns (check: RowCheck)
    requires s.Valid() && State(s.Snapshot(), s.NextIds()) == ImportAll(st0, user, items)
    modifies s
    ensures s.Valid() && s.events == old(s.events) && NotBehind(s.NextIds(), old(s.NextIds()))
    ensures check == CheckRow(row, parseFloat, numberToString)
    ensures check.Complete? ==> State(s.Snapshot(), s.NextIds()) == ImportAll(st0, user, items + [check.item])
  {
    if MissingRequired(row) {
      return Incomplete(MissingFields);
    }
    var path := RowPath(row, numberToString);
    ghost var before := State(s.Snapshot(), s.NextIds());
    var v := WalkRow(s, user, path);
    var description := DescriptionOf(row.description);
    if description.Refused? {
      return Incomplete(DescriptionRefused);
    }
    var t := Transaction(parseFloat(row.amount.value), description.value, v);
    var tid := s.InsertTransaction(t);
    check := Complete(Item(path, t.amount, t.description));
    ImportAllSnoc(st0, user, items, check.item);
  }

  /**
   * The loop of the database transaction: the rows in order, each walked and
   * given its transaction, until one fails; a failure rolls the tables back.
   */
  method ImportRows(s: Store, user: UserId, rows: seq<Row>, parseFloat: Cell -> Amount, numberToString: real -> string)
    returns (failure: Option<Failure>)
    requires s.Valid()
    modifies s
    ensures s.Valid() && s.events == old(s.events) && NotBehind(s.NextIds(), old(s.NextIds()))
    ensures failure == FirstFailure(Checks(rows, parseFloat, numberToString))
    ensures failure.Some? ==> s.Snapshot() == old(s.Snapshot())
    ensures failure.None? ==> (CheckRows(rows, parseFloat, numberToString).Some?
      && State(s.Snapshot(), s.NextIds())
         == ImportAll(State(old(s.Snapshot()), old(s.NextIds())), user, CheckRows(rows, parseFloat, numberToString).value))
  {
    ghost var checks := Checks(rows, parseFloat, numberToString);
    var db0 := s.Snapshot();
    ghost var st0 := State(db0, s.NextIds());
    ghost var items: seq<Item> := [];
    var i := 0;
    while i < |rows|
      invariant 0 <= i <= |rows|
      invariant s.Valid() && s.events == old(s.events) && NotBehind(s.NextIds(), st0.next)
      invariant Collect(checks[..i]) == Some(items)
      invariant State(s.Snapshot(), s.NextIds()) == ImportAll(st0, user, items)
    {
      var check := ImportRow(s, user, rows[i], parseFloat, numberToString, st0, items);
      assert check == checks[i];
      if check.Incomplete? {
        s.Restore(db0);
        FirstFailureAfterCollected(checks, i);
        return Some(check.failure);
      }
      CollectPrefix(checks, i);
      items := items + [check.item];
      i := i + 1;
    }
    assert checks[..i] == checks;
    FirstFailureIffNotCollected(checks);
    failure := None;
  }

  // ---------------------------------------------------------------------------
  // The handler

  /**
   * `uploadBudgetData`. `fileRemoved` records whether the stored upload is
   * unlinked before the handler answers.
   */
  method UploadBudgetData(s: Store, user: UserId, file: Option<UploadedFile>,
                          parseFloat: Cell -> Amount, numberToString: real -> string)
    returns (status: int, failure: Option<Failure>, ghost fileRemoved: bool)
    requires s.Valid()
    modifies s
    ensures s.Valid() && s.events == old(s.events) && NotBehind(s.NextIds(), old(s.NextIds()))
    ensures file.None? ==> (status == Http.BadRequest && failure == None && !fileRemoved
      && s.Snapshot() == old(s.Snapshot()) && s.NextIds() == old(s.NextIds()))
    ensures file.Some? ==> (fileRemoved && failure == UploadFailure(file.value, parseFloat, numberToString)
      && status == (if failure.None? then Http.OK else Http.ServerError))
    ensures status == Http.ServerError ==> s.Snapshot() == old(s.Snapshot())
    ensures status == Http.OK ==> (UploadItems(file.value, parseFloat, numberToString).Some?
      && State(s.Snapshot(), s.NextIds())
         == ImportAll(State(old(s.Snapshot()), old(s.NextIds())), user, UploadItems(file.value, parseFloat, numberToString).value))
  {
    if file.None? {
      return Http.BadRequest, None, false;
    }
    // from here on the upload is unlinked on every path, after success and in the catch block alike
    fileRemoved := true;
    var parsed := ParseRows(file.value);
    if parsed.ParseFailed? {
      return Http.ServerError, Some(parsed.failure), true;
    }
    failure := ImportRows(s, user, parsed.rows, parseFloat, numberToString);
    status := if failure.None? then Http.OK else Http.ServerError;
  }

  /** An upload is accepted exactly when it is not refused. */
  lemma UploadAcceptedIffNoFailure(file: UploadedFile, parseFloat: Cell -> Amount, numberToString: real -> string)
    ensures UploadItems(file, parseFloat, numberToString).Some? <==> UploadFailure(file, parseFloat, numberToString).None?
  {
    if ParseRows(file).Rows? {
      FirstFailureIffNotCollected(Checks(ParseRows(file).rows, parseFloat, numberToString));
    }
  }
}
