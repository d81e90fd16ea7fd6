/**
 * The endpoints of main.py: `setup_sheet` and the four CRUD handlers that
 * `create_crud_endpoints` builds for each kind of record. A handler looks
 * the signed-in user up in the user table, then reads or writes the rows of
 * the kind's sheet in that user's spreadsheet.
 */
module Engine {
  import opened Wrappers
  import opened Dicts
  import opened Models
  import opened SheetsApi
  import opened Mapper
  import opened Database

  /** The HTTP errors a handler answers with. */
  datatype Fault = BadRequest | NotFound | Unprocessable | ServerError

  function StatusCode(f: Fault): nat {
    match f
    case BadRequest => 400
    case NotFound => 404
    case Unprocessable => 422
    case ServerError => 500
  }

  /** `get_user_by_email` on the table's contents. */
  function Lookup(rows: map<string, UserRow>, email: string): Option<UserRow> {
    if email in rows then Some(rows[email]) else None
  }

  /** The shortest spreadsheet id `get_spreadsheet_id` accepts. */
  const MinSpreadsheetIdLength := 30

  /**
   * `get_spreadsheet_id` (main.py:59-70): the stored id when it has at least
   * 30 characters, 400 otherwise; a user missing from the table fails with
   * 500 (`.get` on None).
   */
  function SpreadsheetIdOf(user: Option<UserRow>): (r: Result<string, Fault>)
    ensures user.None? ==> r == Err(ServerError)
    ensures user.Some? ==> (r.Ok? <==> user.value.spreadsheetId.Some?
                                       && |user.value.spreadsheetId.value| >= MinSpreadsheetIdLength)
    ensures user.Some? && r.Err? ==> r.error == BadRequest
    ensures r.Ok? ==> user.Some? && user.value.spreadsheetId == Some(r.value)
  {
    match user
    case None => Err(ServerError)
    case Some(u) =>
      match u.spreadsheetId
      case None => Err(BadRequest)
      case Some(id) => if |id| < MinSpreadsheetIdLength then Err(BadRequest) else Ok(id)
  }

  /**
   * What every CRUD handler does first (main.py:171-172, 179-180, 186-187,
   * 201-202): find the spreadsheet id, then build credentials from the
   * stored token, which fails with 500 when it does not decrypt.
   */
  function Target(rows: map<string, UserRow>, email: string, tokenDecrypts: bool): (r: Result<string, Fault>)
    ensures r.Ok? ==> tokenDecrypts && SpreadsheetIdOf(Lookup(rows, email)) == Ok(r.value)
    ensures SpreadsheetIdOf(Lookup(rows, email)).Err? ==> r == SpreadsheetIdOf(Lookup(rows, email))
    ensures SpreadsheetIdOf(Lookup(rows, email)).Ok? && !tokenDecrypts ==> r == Err(ServerError)
  {
    match SpreadsheetIdOf(Lookup(rows, email))
    case Err(f) => Err(f)
    case Ok(id) => if tokenDecrypts then Ok(id) else Err(ServerError)
  }

  /** A spreadsheet id too short for the CRUD handlers is still "already set up" for `setup_sheet`. */
  lemma {:induction false} ShortIdIsStuck(u: UserRow)
    requires u.spreadsheetId.Some? && 0 < |u.spreadsheetId.value| < MinSpreadsheetIdLength
    ensures SpreadsheetIdOf(Some(u)) == Err(BadRequest)
    ensures AlreadySetUp(u)
  {
  }

  /** `if user_data.get('spreadsheet_id')`: a non-empty stored id. */
  predicate AlreadySetUp(u: UserRow) {
    u.spreadsheetId.Some? && u.spreadsheetId.value != ""
  }

  datatype SetupOutcome = Existing(id: string) | Created(id: string)

  /** The title `setup_sheet` gives a user's spreadsheet. */
  function SpreadsheetTitle(email: string): string {
    "ERP Data - " + email
  }

  /** A new spreadsheet can always be provisioned: it has sheet 0 and none of the ERP sheets. */
  lemma {:induction false} FreshSpreadsheetProvisions(title: string)
    ensures CanProvision(NewSpreadsheet(title), SheetStructure)
  {
    SheetStructureWellFormed();
    var doc := NewSpreadsheet(title);
    assert doc.sheets["Sheet1"].sheetId == 0;
  }

  /**
   * `setup_sheet` (main.py:150-163): a user with a spreadsheet id gets it
   * back; otherwise a spreadsheet is created, its id recorded, and only then
   * its ERP sheets provisioned. `newId` is the id the service hands out, and
   * `layoutSucceeds` whether the service accepts the layout; when it does
   * not, the handler answers 500 with the new spreadsheet created and its id
   * already recorded.
   */
  method SetupSheet(db: UserTable, sheets: SheetsService, email: string, tokenDecrypts: bool,
                    newId: string, layoutSucceeds: bool)
    returns (r: Result<SetupOutcome, Fault>)
    requires db.Valid() && db.created && sheets.Valid() && newId !in sheets.files
    modifies db, sheets
    ensures db.Valid() && db.created && sheets.Valid()
    ensures email !in old(db.rows) ==> r == Err(ServerError)
    ensures email in old(db.rows) && AlreadySetUp(old(db.rows)[email]) ==>
      r == Ok(Existing(old(db.rows)[email].spreadsheetId.value))
    ensures email in old(db.rows) && !AlreadySetUp(old(db.rows)[email]) && !tokenDecrypts ==> r == Err(ServerError)
    ensures email !in old(db.rows) || AlreadySetUp(old(db.rows)[email]) || !tokenDecrypts ==>
      db.rows == old(db.rows) && sheets.files == old(sheets.files)
    ensures email in old(db.rows) && !AlreadySetUp(old(db.rows)[email]) && tokenDecrypts && !layoutSucceeds ==>
      && r == Err(ServerError)
      && db.rows == SetSpreadsheetId(old(db.rows), email, newId)
      && sheets.files == old(sheets.files)[newId := NewSpreadsheet(SpreadsheetTitle(email))]
    ensures email in old(db.rows) && !AlreadySetUp(old(db.rows)[email]) && tokenDecrypts && layoutSucceeds ==>
      && r == Ok(Created(newId))
      && db.rows == SetSpreadsheetId(old(db.rows), email, newId)
      && sheets.files.Keys == old(sheets.files).Keys + {newId}
      && (forall id :: id in old(sheets.files) ==> sheets.files[id] == old(sheets.files)[id])
      && Provisioned(NewSpreadsheet(SpreadsheetTitle(email)), sheets.files[newId], SheetStructure)
  {
    var user := db.GetUserByEmail(email);
    if user.None? {
      return Err(ServerError);
    }
    if AlreadySetUp(user.value) {
      return Ok(Existing(user.value.spreadsheetId.value));
    }
    if !tokenDecrypts {
      return Err(ServerError);
    }
    var id := sheets.CreateSpreadsheet(SpreadsheetTitle(user.value.email), newId);
    db.UpdateSpreadsheetId(user.value.email, id);
    if !layoutSucceeds {
      return Err(ServerError);
    }
    FreshSpreadsheetProvisions(SpreadsheetTitle(email));
    var setup := sheets.SetupErpSheets(id);
    if setup.Err? {
      assert false;
    }
    return Ok(Created(id));
  }

  /**
   * Once `setup_sheet` has recorded a spreadsheet id, failed or not, every
   * later call finds the user already set up and returns that id: a
   * spreadsheet whose layout failed is never laid out by a retry.
   */
  lemma {:induction false} RecordedIdIsFinal(rows: map<string, UserRow>, email: string, newId: string)
    requires email in rows && newId != ""
    ensures email in SetSpreadsheetId(rows, email, newId)
    ensures AlreadySetUp(SetSpreadsheetId(rows, email, newId)[email])
    ensures SetSpreadsheetId(rows, email, newId)[email].spreadsheetId == Some(newId)
  {
  }

  // ------------------------------------------------------------------ CRUD

  /**
   * The arguments `create_crud_endpoints` (main.py:166) is called with, as
   * the handlers use them: the sheet, the header row `map_model_to_row`
   * finds for it in `SHEET_STRUCTURE`, the header of the identifier column,
   * and the fields of the full model and of the Update model. The Create
   * model reaches `AddRecord` on its own, since its default factories are
   * evaluated per request.
   */
  datatype Crud = Crud(sheet: string, headers: seq<string>, idColumn: string, model: seq<Field>, update: seq<Field>)

  /** The five calls of `create_crud_endpoints` (main.py:211-229). */
  function CrudOf(k: Kind): Crud {
    Crud(SheetName(k), Headers(k), IdHeader(k), FullFields(k), UpdateFields(k))
  }

  /**
   * What the handlers rely on: the sheet is laid out for the full model with
   * the identifier column first, and the Update model declares only fields
   * of the full model, never the identifier.
   */
  predicate Consistent(c: Crud) {
    && Fits(c.headers, c.model)
    && c.headers[0] == c.idColumn
    && NameSet(c.update) <= NameSet(c.model)
    && Columns(c.headers)[0] !in NameSet(c.update)
  }

  /** All five endpoint groups are consistent, and each carries the header row `SHEET_STRUCTURE` gives its sheet. */
  lemma {:induction false} EveryCrudConsistent(k: Kind)
    ensures Consistent(CrudOf(k))
    ensures Get(SheetStructure, CrudOf(k).sheet) == Some(CrudOf(k).headers)
    ensures Columns(CrudOf(k).headers)[0] == IdField(k)
  {
    SheetFits(k);
    HeadersLookup(k);
    UpdateFieldsAreBaseFields(k);
    BaseFieldsInFull(k);
  }

  /** `next(r for r in rows if r.get(id_field) == item_id)`: the first record with that identifier. */
  function FirstWithId(records: seq<Dict<string>>, header: string, itemId: string): (r: Option<nat>)
    ensures r.None? <==> forall j :: 0 <= j < |records| ==> !Carries(records, j, header, itemId)
    ensures r.Some? ==> r.value < |records| && Carries(records, r.value, header, itemId)
                        && forall j :: 0 <= j < r.value ==> !Carries(records, j, header, itemId)
  {
    FirstFrom(records, header, itemId, 0)
  }

  /** The request body of `add_record` validated against the kind's Create model for this request's uuid and date. */
  function CreateModel(k: Kind, env: Env, body: map<string, Value>): Result<Instance, ValidationError>
    requires IsUuidHex(env.uuidHex)
  {
    CreateMatchesFull(k, env);
    Validate(CreateFields(k, env), body)
  }

  /**
   * `add_record` (main.py:169-175): the body is validated against the
   * Create model `create` (422 when it does not validate), the instance is
   * written as a new last row, and returned.
   */
  method AddRecord(c: Crud, create: seq<Field>, db: UserTable, sheets: SheetsService, email: string,
                   tokenDecrypts: bool, body: map<string, Value>)
    returns (r: Result<Instance, Fault>)
    requires DistinctNames(create)
    requires db.Valid() && db.created && sheets.Valid()
    modifies sheets
    ensures sheets.Valid()
    ensures var created := Validate(create, body);
      var target := Target(db.rows, email, tokenDecrypts);
      && (created.Err? ==> r == Err(Unprocessable))
      && (created.Ok? && target.Err? ==> r == Err(target.error))
      && (created.Ok? && target.Ok? ==>
            var grid := Read(old(sheets.files), target.value, c.sheet);
            && (grid.Err? ==> r == Err(ServerError))
            && (grid.Ok? ==>
                  && r == Ok(created.value)
                  && sheets.files == WithRows(old(sheets.files), target.value, c.sheet,
                                              grid.value + [MapModelToRow(created.value, c.headers)])))
    ensures r.Err? ==> sheets.files == old(sheets.files)
  {
    var created := Validate(create, body);
    if created.Err? {
      return Err(Unprocessable);
    }
    var user := db.GetUserByEmail(email);
    var id := SpreadsheetIdOf(user);
    if id.Err? {
      return Err(id.error);
    }
    if !tokenDecrypts {
      return Err(ServerError);
    }
    var row := MapModelToRow(created.value, c.headers);
    var appended := sheets.AppendRow(id.value, c.sheet, row);
    if appended.Err? {
      return Err(ServerError);
    }
    return Ok(created.value);
  }

  /**
   * `get_records` (main.py:177-182): every record of the sheet, instantiated
   * as the full model; a record that does not validate fails the whole
   * request with 500.
   */
  method GetRecords(c: Crud, db: UserTable, sheets: SheetsService, email: string, tokenDecrypts: bool)
    returns (r: Result<seq<Instance>, Fault>)
    requires DistinctNames(c.model)
    requires db.Valid() && db.created
    ensures var target := Target(db.rows, email, tokenDecrypts);
      && (target.Err? ==> r == Err(target.error))
      && (target.Ok? ==>
            var grid := Read(sheets.files, target.value, c.sheet);
            && (grid.Err? ==> r == Err(ServerError))
            && (grid.Ok? ==>
                  var records := Records(grid.value);
                  && (r.Ok? <==> forall i :: 0 <= i < |records| ==> MapRowToModel(c.model, records[i]).Ok?)
                  && (r.Err? ==> r.error == ServerError)
                  && (r.Ok? ==> |r.value| == |records|
                                && forall i :: 0 <= i < |records| ==> Ok(r.value[i]) == MapRowToModel(c.model, records[i]))))
  {
    var user := db.GetUserByEmail(email);
    var id := SpreadsheetIdOf(user);
    if id.Err? {
      return Err(id.error);
    }
    if !tokenDecrypts {
      return Err(ServerError);
    }
    var rows := sheets.GetAllRows(id.value, c.sheet);
    if rows.Err? {
      return Err(ServerError);
    }
    r := InstantiateAll(rows.value, c.model);
  }

  /**
   * `[map_row_to_model(row, model) for row in rows]` for a model declaring
   * `fields`: the first record that does not validate fails with 500.
   */
  method InstantiateAll(records: seq<Dict<string>>, fields: seq<Field>) returns (r: Result<seq<Instance>, Fault>)
    requires DistinctNames(fields)
    ensures r.Ok? <==> forall i :: 0 <= i < |records| ==> MapRowToModel(fields, records[i]).Ok?
    ensures r.Err? ==> r.error == ServerError
    ensures r.Ok? ==> |r.value| == |records|
                      && forall i :: 0 <= i < |records| ==> Ok(r.value[i]) == MapRowToModel(fields, records[i])
  {
    var models: seq<Instance> := [];
    var i := 0;
    while i < |records|
      invariant 0 <= i <= |records| && |models| == i
      invariant forall j :: 0 <= j < i ==> Ok(models[j]) == MapRowToModel(fields, records[j])
    {
      var m := MapRowToModel(fields, records[i]);
      if m.Err? {
        assert !MapRowToModel(fields, records[i]).Ok?;
        return Err(ServerError);
      }
      models := models + [m.value];
      assert models[i] == m.value;
      i := i + 1;
    }
    return Ok(models);
  }

  /**
   * `update_record` (main.py:184-197): the body is validated against the
   * Update model (422 when it does not validate), the first record with the
   * identifier is instantiated, the fields the body set are copied over it,
   * and the row `find_row_index` picks is overwritten with the result. No
   * record: 404; any failure of the store or of instantiation: 500.
   */
  method UpdateRecord(c: Crud, db: UserTable, sheets: SheetsService, email: string, tokenDecrypts: bool,
                      itemId: string, body: map<string, Value>)
    returns (r: Result<Instance, Fault>)
    requires DistinctNames(c.model) && DistinctNames(c.update)
    requires db.Valid() && db.created && sheets.Valid()
    modifies sheets
    ensures sheets.Valid()
    ensures r.Err? ==> sheets.files == old(sheets.files)
    ensures Validate(c.update, body).Err? ==> r == Err(Unprocessable)
    ensures var target := Target(db.rows, email, tokenDecrypts);
      Validate(c.update, body).Ok? ==>
      && (target.Err? ==> r == Err(target.error))
      && (target.Ok? ==> Updated(old(sheets.files), sheets.files, target.value, c, itemId, body, r))
  {
    var patch := Validate(c.update, body);
    if patch.Err? {
      return Err(Unprocessable);
    }
    var user := db.GetUserByEmail(email);
    var id := SpreadsheetIdOf(user);
    if id.Err? {
      return Err(id.error);
    }
    if !tokenDecrypts {
      return Err(ServerError);
    }
    r := UpdateIn(c, sheets, id.value, itemId, body);
  }

  /**
   * What `update_record` does to spreadsheet `id` once the user's
   * credentials are built: reading the sheet fails with 500; the selected
   * record's failure is answered as is; otherwise the merged instance is
   * written back as `WrittenBack` says.
   */
  ghost predicate Updated(before: map<string, Spreadsheet>, after: map<string, Spreadsheet>, id: string, c: Crud,
                          itemId: string, body: map<string, Value>, r: Result<Instance, Fault>)
    requires DistinctNames(c.model)
  {
    var grid := Read(before, id, c.sheet);
    && (grid.Err? ==> r == Err(ServerError) && after == before)
    && (grid.Ok? ==>
          var existing := Selected(Records(grid.value), c.model, c.idColumn, itemId);
          && (existing.Err? ==> r == Err(existing.error) && after == before)
          && (existing.Ok? ==> WrittenBack(before, after, id, c, itemId, Merge(existing.value, Patch(c.update, body)), r)))
  }

  /**
   * The end of `update_record` (main.py:193-197): the row `find_row_index`
   * picks is overwritten with `updated`, and `updated` is the answer; when
   * the sheet cannot be read or no row carries the identifier, nothing is
   * written and the answer is 500.
   */
  ghost predicate WrittenBack(before: map<string, Spreadsheet>, after: map<string, Spreadsheet>, id: string, c: Crud,
                              itemId: string, updated: Instance, r: Result<Instance, Fault>)
  {
    var grid := Read(before, id, c.sheet);
    var pos := if grid.Err? then Err(grid.error) else FindRow(grid.value, itemId, c.idColumn);
    && (pos.Err? ==> r == Err(ServerError) && after == before)
    && (pos.Ok? ==>
          && r == Ok(updated)
          && after == WithRows(before, id, c.sheet,
                               grid.value[pos.value - 1 := Overlay(grid.value[pos.value - 1],
                                                                  MapModelToRow(updated, c.headers))]))
  }

  method UpdateIn(c: Crud, sheets: SheetsService, id: string, itemId: string, body: map<string, Value>)
    returns (r: Result<Instance, Fault>)
    requires DistinctNames(c.model)
    requires sheets.Valid()
    modifies sheets
    ensures sheets.Valid()
    ensures Updated(old(sheets.files), sheets.files, id, c, itemId, body, r)
  {
    var rows := sheets.GetAllRows(id, c.sheet);
    if rows.Err? {
      return Err(ServerError);
    }
    var existing := SelectExisting(rows.value, c.model, c.idColumn, itemId);
    if existing.Err? {
      return Err(existing.error);
    }
    r := WriteBack(c, sheets, id, itemId, Merge(existing.value, Patch(c.update, body)));
  }

  /** Writes `updated` over the row `find_row_index` picks; 500 when there is none. */
  method WriteBack(c: Crud, sheets: SheetsService, id: string, itemId: string, updated: Instance)
    returns (r: Result<Instance, Fault>)
    requires sheets.Valid()
    modifies sheets
    ensures sheets.Valid()
    ensures WrittenBack(old(sheets.files), sheets.files, id, c, itemId, updated, r)
  {
    var written := sheets.UpdateRow(id, c.sheet, itemId, c.idColumn, MapModelToRow(updated, c.headers));
    r := if written.Err? then Err(ServerError) else Ok(updated);
  }

  /**
   * The record `update_record` edits (main.py:189-191): the first record
   * whose `column` holds the identifier, instantiated as the model declaring
   * `fields`; 404 when there is none, 500 when it does not validate.
   */
  function Selected(records: seq<Dict<string>>, fields: seq<Field>, column: string, itemId: string): (r: Result<Instance, Fault>)
    requires DistinctNames(fields)
    ensures r == Err(NotFound) <==> FirstWithId(records, column, itemId).None?
    ensures r.Err? ==> r.error in {NotFound, ServerError}
    ensures r.Ok? ==> var j := FirstWithId(records, column, itemId);
      j.Some? && MapRowToModel(fields, records[j.value]) == Ok(r.value)
    ensures r == Err(ServerError) ==> var j := FirstWithId(records, column, itemId);
      j.Some? && MapRowToModel(fields, records[j.value]).Err?
  {
    match FirstWithId(records, column, itemId)
    case None => Err(NotFound)
    case Some(j) =>
      match MapRowToModel(fields, records[j])
      case Err(_) => Err(ServerError)
      case Ok(m) => Ok(m)
  }

  method SelectExisting(records: seq<Dict<string>>, fields: seq<Field>, column: string, itemId: string)
    returns (r: Result<Instance, Fault>)
    requires DistinctNames(fields)
    ensures r == Selected(records, fields, column, itemId)
  {
    var found := FindRecord(records, column, itemId);
    if found.None? {
      return Err(NotFound);
    }
    var m := MapRowToModel(fields, records[found.value]);
    if m.Err? {
      return Err(ServerError);
    }
    return Ok(m.value);
  }
  /** The lazy search of `next(...)`: records are tried in order until one carries the identifier. */
  method FindRecord(records: seq<Dict<string>>, header: string, itemId: string) returns (r: Option<nat>)
    ensures r == FirstWithId(records, header, itemId)
  {
    var i := 0;
    while i < |records| && Get(records[i], header) != Some(itemId)
      invariant 0 <= i <= |records|
      invariant FirstWithId(records, header, itemId) == FirstFrom(records, header, itemId, i)
    {
      i := i + 1;
    }
    if i == |records| {
      return None;
    }
    return Some(i);
  }

  /** The first record at or after `from` with the identifier, searched the way `FirstWithId` does. */
  function FirstFrom(records: seq<Dict<string>>, header: string, itemId: string, from: nat): (r: Option<nat>)
    requires from <= |records|
    ensures r.None? <==> forall j :: from <= j < |records| ==> !Carries(records, j, header, itemId)
    ensures r.Some? ==> from <= r.value < |records| && Carries(records, r.value, header, itemId)
                        && forall j :: from <= j < r.value ==> !Carries(records, j, header, itemId)
    decreases |records| - from
  {
    if from == |records| then None
    else if Carries(records, from, header, itemId) then Some(from)
    else FirstFrom(records, header, itemId, from + 1)
  }

  /**
   * `delete_record` (main.py:199-207): the row `find_row_index` picks is
   * removed; the store's ValueError (no such sheet, empty sheet, no such
   * column, no such record) becomes 404, any other failure 500.
   */
  method DeleteRecord(c: Crud, db: UserTable, sheets: SheetsService, email: string, tokenDecrypts: bool, itemId: string)
    returns (r: Result<(), Fault>)
    requires db.Valid() && db.created && sheets.Valid()
    modifies sheets
    ensures sheets.Valid()
    ensures r.Err? ==> sheets.files == old(sheets.files)
    ensures var target := Target(db.rows, email, tokenDecrypts);
      && (target.Err? ==> r == Err(target.error))
      && (target.Ok? && target.value !in old(sheets.files) ==> r == Err(ServerError))
      && (target.Ok? && target.value in old(sheets.files) && c.sheet !in old(sheets.files)[target.value].sheets ==>
            r == Err(NotFound))
      && (target.Ok? && target.value in old(sheets.files) && c.sheet in old(sheets.files)[target.value].sheets ==>
            var grid := old(sheets.files)[target.value].sheets[c.sheet].rows;
            var pos := FindRow(grid, itemId, c.idColumn);
            && (pos.Err? ==> r == Err(NotFound))
            && (pos.Ok? ==>
                  && r == Ok(())
                  && sheets.files == WithRows(old(sheets.files), target.value, c.sheet, RemoveRow(grid, pos.value))))
  {
    var user := db.GetUserByEmail(email);
    var id := SpreadsheetIdOf(user);
    if id.Err? {
      return Err(id.error);
    }
    if !tokenDecrypts {
      return Err(ServerError);
    }
    var deleted := sheets.DeleteRow(id.value, c.sheet, itemId, c.idColumn);
    if deleted.Err? {
      return Err(if deleted.error.ValueError? then NotFound else ServerError);
    }
    return Ok(());
  }


  // ----------------------------------------------------- what the handlers keep

  /** A created instance carries exactly the fields of the full model. */
  lemma {:induction false} CreatedHasFullFields(k: Kind, env: Env, body: map<string, Value>)
    requires IsUuidHex(env.uuidHex) && CreateModel(k, env, body).Ok?
    ensures CreateModel(k, env, body).value.Keys == NameSet(FullFields(k))
  {
    CreateMatchesFull(k, env);
    SameNameSet(CreateFields(k, env), FullFields(k));
  }

  /**
   * After `add_record` appends the created instance to a sheet laid out as
   * the kind's headers, `get_records` sees one more record, the last one. It
   * instantiates exactly when the created instance is readable (no date or
   * number left None), and then as the created instance with every value as
   * text.
   */
  lemma {:induction false} AddedRecordReadsBack(k: Kind, env: Env, body: map<string, Value>, grid: Grid)
    requires IsUuidHex(env.uuidHex) && CreateModel(k, env, body).Ok?
    requires grid != [] && grid[0] == Headers(k)
    ensures DistinctNames(FullFields(k))
    ensures var created := CreateModel(k, env, body).value;
      var after := Records(grid + [MapModelToRow(created, Headers(k))]);
      && after[..|after| - 1] == Records(grid)
      && (MapRowToModel(FullFields(k), after[|after| - 1]).Ok? <==> Readable(FullFields(k), created))
      && (Readable(FullFields(k), created) ==> MapRowToModel(FullFields(k), after[|after| - 1]) == Ok(AsText(created)))
  {
    var created := CreateModel(k, env, body).value;
    var row := MapModelToRow(created, Headers(k));
    AppendAddsRecord(grid, row);
    CreatedHasFullFields(k, env, body);
    SheetRoundTrip(k, created);
  }

  /**
   * Adding a Book that leaves `issue_date` out stores None as the text
   * "None": the Library sheet then holds a record that does not instantiate,
   * so `get_records` answers 500 for the whole sheet from then on.
   */
  lemma {:induction false} DefaultBookBreaksListing(env: Env, body: map<string, Value>, grid: Grid)
    requires IsUuidHex(env.uuidHex) && CreateModel(Book, env, body).Ok?
    requires "issue_date" !in body
    requires grid != [] && grid[0] == Headers(Book)
    ensures DistinctNames(FullFields(Book))
    ensures var after := Records(grid + [MapModelToRow(CreateModel(Book, env, body).value, Headers(Book))]);
      0 < |after| && MapRowToModel(FullFields(Book), after[|after| - 1]).Err?
  {
    var created := CreateModel(Book, env, body).value;
    AddedRecordReadsBack(Book, env, body, grid);
    CreatedIssueDateIsNull(env, body);
    CreatedHasFullFields(Book, env, body);
    NullIssueDateUnreadable(created);
  }

  /** A Book created without `issue_date` holds None there. */
  lemma {:induction false} CreatedIssueDateIsNull(env: Env, body: map<string, Value>)
    requires IsUuidHex(env.uuidHex) && CreateModel(Book, env, body).Ok?
    requires "issue_date" !in body
    ensures "issue_date" in CreateModel(Book, env, body).value
    ensures CreateModel(Book, env, body).value["issue_date"] == Null
  {
    var c := CreateFields(Book, env);
    CreateMatchesFull(Book, env);
    BookFieldsAt();
    assert c[9] == FullFields(Book)[9];
    FieldResolved(c, body, 9);
  }

  /**
   * `update_record` and `delete_record` locate the record the same way the
   * first matching record is chosen: for an identifier that is neither ''
   * nor the searched column's own header, `find_row_index` answers the row
   * of the first record carrying it.
   */
  lemma {:induction false} FoundRowIsFirstRecord(grid: Grid, column: string, itemId: string)
    requires 2 <= |grid| && Distinct(grid[0]) && column in grid[0]
    requires itemId != "" && itemId != column
    requires FirstWithId(Records(grid), column, itemId).Some?
    ensures FindRow(grid, itemId, column) == Ok(FirstWithId(Records(grid), column, itemId).value + 2)
  {
    RecordPosition(grid, column, itemId, FirstWithId(Records(grid), column, itemId).value);
  }

  /** The instance `update_record` writes: the selected record with the patch applied. */
  function UpdatedInstance(records: seq<Dict<string>>, c: Crud, itemId: string, body: map<string, Value>): (r: Instance)
    requires DistinctNames(c.model) && Selected(records, c.model, c.idColumn, itemId).Ok?
    ensures var existing := Selected(records, c.model, c.idColumn, itemId).value;
      && r.Keys == existing.Keys + (body.Keys * NameSet(c.update))
      && (forall f :: f in r && f in body && f in NameSet(c.update) ==> r[f] == body[f])
      && (forall f :: f in r && f !in NameSet(c.update) ==> r[f] == existing[f])
  {
    Merge(Selected(records, c.model, c.idColumn, itemId).value, Patch(c.update, body))
  }

  /**
   * On a sheet laid out for the model, the selected record instantiates
   * with all of the model's fields, and its identifier field holds the
   * identifier it was looked up by.
   */
  lemma {:induction false} SelectedCarriesId(grid: Grid, fields: seq<Field>, itemId: string)
    requires 2 <= |grid| && Fits(grid[0], fields)
    requires Selected(Records(grid), fields, grid[0][0], itemId).Ok?
    ensures var existing := Selected(Records(grid), fields, grid[0][0], itemId).value;
      && existing.Keys == NameSet(fields)
      && Columns(grid[0])[0] in existing && existing[Columns(grid[0])[0]] == Text(itemId)
  {
    var records := Records(grid);
    var j := FirstWithId(records, grid[0][0], itemId).value;
    var rec := records[j];
    assert Carries(records, j, grid[0][0], itemId);
    assert rec == RowRecord(grid[0], grid[j + 1]);
    assert MapRowToModel(fields, rec) == Ok(Selected(records, fields, grid[0][0], itemId).value);
    RecordIdentity(grid[0], fields, grid[j + 1], itemId);
  }

  /**
   * The patch never touches the identifier or adds a field: applied to an
   * instance of the full model, it leaves an instance of the full model
   * with the same identifier.
   */
  lemma {:induction false} PatchKeepsIdentity(c: Crud, existing: Instance, body: map<string, Value>)
    requires Consistent(c)
    requires existing.Keys == NameSet(c.model) && Columns(c.headers)[0] in existing
    ensures var updated := Merge(existing, Patch(c.update, body)); var id := Columns(c.headers)[0];
      updated.Keys == NameSet(c.model) && id in updated && updated[id] == existing[id]
  {
  }

  /** The instance `update_record` writes has the full model's fields and the identifier it was looked up by. */
  lemma {:induction false} UpdateKeepsIdentity(c: Crud, grid: Grid, itemId: string, body: map<string, Value>)
    requires Consistent(c) && 2 <= |grid| && grid[0] == c.headers
    requires Selected(Records(grid), c.model, c.idColumn, itemId).Ok?
    ensures var updated := UpdatedInstance(Records(grid), c, itemId, body); var id := Columns(c.headers)[0];
      updated.Keys == NameSet(c.model) && id in updated && updated[id] == Text(itemId)
  {
    SelectedCarriesId(grid, c.model, itemId);
    PatchKeepsIdentity(c, Selected(Records(grid), c.model, c.idColumn, itemId).value, body);
  }

  /**
   * Overwriting the row `find_row_index` picks with a full instance of the
   * model: no other record changes, and that record reads back exactly
   * when the instance is readable, then as the instance.
   */
  lemma {:induction false} OverwriteRewritesRecord(grid: Grid, fields: seq<Field>, itemId: string, inst: Instance)
    requires 2 <= |grid| && Fits(grid[0], fields)
    requires itemId != "" && itemId != grid[0][0]
    requires FirstWithId(Records(grid), grid[0][0], itemId).Some?
    requires inst.Keys == NameSet(fields)
    ensures var j := FirstWithId(Records(grid), grid[0][0], itemId).value;
      var written := grid[j + 1 := Overlay(grid[j + 1], MapModelToRow(inst, grid[0]))];
      && FindRow(grid, itemId, grid[0][0]) == Ok(j + 2)
      && |Records(written)| == |Records(grid)|
      && (forall i :: 0 <= i < |Records(grid)| && i != j ==> Records(written)[i] == Records(grid)[i])
      && (MapRowToModel(fields, Records(written)[j]).Ok? <==> Readable(fields, inst))
      && (Readable(fields, inst) ==> MapRowToModel(fields, Records(written)[j]) == Ok(AsText(inst)))
  {
    var j := FirstWithId(Records(grid), grid[0][0], itemId).value;
    var row := MapModelToRow(inst, grid[0]);
    FoundRowIsFirstRecord(grid, grid[0][0], itemId);
    OverlayReplacesRecord(grid, j, row);
    OverlaidRowRoundTrip(fields, grid[0], inst, grid[j + 1]);
    var written := grid[j + 1 := Overlay(grid[j + 1], row)];
    forall i | 0 <= i < |Records(grid)| && i != j ensures Records(written)[i] == Records(grid)[i] {
    }
  }

  /**
   * The row `update_record` overwrites holds the selected record: after the
   * write no other record changes, and that record reads back exactly when
   * the updated instance is readable (the patch set no date or number to
   * None), then as the updated instance.
   */
  lemma {:induction false} UpdateRewritesSelectedRecord(c: Crud, grid: Grid, itemId: string, body: map<string, Value>)
    requires Consistent(c) && 2 <= |grid| && grid[0] == c.headers
    requires itemId != "" && itemId != c.idColumn
    requires Selected(Records(grid), c.model, c.idColumn, itemId).Ok?
    ensures var j := FirstWithId(Records(grid), c.idColumn, itemId).value;
      var updated := UpdatedInstance(Records(grid), c, itemId, body);
      var written := grid[j + 1 := Overlay(grid[j + 1], MapModelToRow(updated, c.headers))];
      && FindRow(grid, itemId, c.idColumn) == Ok(j + 2)
      && |Records(written)| == |Records(grid)|
      && (forall i :: 0 <= i < |Records(grid)| && i != j ==> Records(written)[i] == Records(grid)[i])
      && (MapRowToModel(c.model, Records(written)[j]).Ok? <==> Readable(c.model, updated))
      && (Readable(c.model, updated) ==> MapRowToModel(c.model, Records(written)[j]) == Ok(AsText(updated)))
  {
    UpdateKeepsIdentity(c, grid, itemId, body);
    OverwriteRewritesRecord(grid, c.model, itemId, UpdatedInstance(Records(grid), c, itemId, body));
  }

  /** `delete_record` removes the first record carrying the identifier and keeps the others in order. */
  lemma {:induction false} DeleteRemovesSelectedRecord(grid: Grid, column: string, itemId: string)
    requires 2 <= |grid| && Distinct(grid[0]) && column in grid[0]
    requires itemId != "" && itemId != column
    requires FirstWithId(Records(grid), column, itemId).Some?
    ensures var j := FirstWithId(Records(grid), column, itemId).value;
      && FindRow(grid, itemId, column) == Ok(j + 2)
      && Records(RemoveRow(grid, j + 2)) == Records(grid)[..j] + Records(grid)[j + 1..]
  {
    var records := Records(grid);
    var j := FirstWithId(records, column, itemId).value;
    FoundRowIsFirstRecord(grid, column, itemId);
    RemoveDropsRecord(grid, j);
  }

  /**
   * An identifier equal to the identifier column's header matches the
   * header row itself: `delete_record` then removes the header, the first
   * data row takes its place, and that row's record is gone.
   */
  lemma {:induction false} DeleteByHeaderNameDropsHeader(c: Crud, grid: Grid)
    requires Consistent(c) && 3 <= |grid| && grid[0] == c.headers
    ensures FindRow(grid, c.idColumn, c.idColumn) == Ok(1)
    ensures Records(RemoveRow(grid, 1)) == Records(grid[1..])
    ensures |Records(RemoveRow(grid, 1))| == |Records(grid)| - 1
  {
    HeaderRowMatchesItsColumn(grid, c.idColumn);
    RemoveHeaderShiftsRecords(grid);
  }
}
