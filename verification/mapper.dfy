/**
 * The two translations of main.py between a model instance and a sheet row.
 * A header such as "Parent/Guardian Name" names the field
 * `parent_guardian_name`: it is lower-cased and its spaces and slashes become
 * underscores. Writing looks each header's field up in the instance;
 * reading normalises the record's keys and instantiates the full model.
 */
module Mapper {
  import opened Wrappers
  import opened Dicts
  import opened Text
  import opened Models
  import opened SheetsApi

  /** The sheet each kind of record lives in (main.py:211-229). */
  function SheetIndex(k: Kind): (i: nat)
    ensures i < |SheetStructure|
  {
    match k
    case Admission => 0
    case Book => 1
    case HostelOccupancy => 2
    case FeeReceipt => 3
    case AppUser => 4
  }

  function SheetName(k: Kind): string {
    SheetStructure[SheetIndex(k)].0
  }

  function Headers(k: Kind): seq<string> {
    SheetStructure[SheetIndex(k)].1
  }

  /** The header of the column the CRUD endpoints search by (main.py:212, 216, 220, 224, 228). */
  function IdHeader(k: Kind): string {
    match k
    case Admission => "Admission ID"
    case Book => "Book ID"
    case HostelOccupancy => "Occupancy ID"
    case FeeReceipt => "Receipt ID"
    case AppUser => "User ID"
  }

  /** `SHEET_STRUCTURE[sheet_name]` finds the kind's headers, and the five kinds use five different sheets. */
  lemma {:induction false} HeadersLookup(k: Kind)
    ensures Get(SheetStructure, SheetName(k)) == Some(Headers(k))
    ensures forall k' :: k' != k ==> SheetName(k') != SheetName(k)
  {
    SheetStructureWellFormed();
    GetAt(SheetStructure, SheetIndex(k));
  }

  /** `key.lower().replace(' ', '_').replace('/', '_')` for every header. */
  function Columns(headers: seq<string>): (cs: seq<string>)
    ensures |cs| == |headers|
    ensures forall i :: 0 <= i < |headers| ==> cs[i] == NormalizeHeader(headers[i])
  {
    seq(|headers|, i requires 0 <= i < |headers| => NormalizeHeader(headers[i]))
  }

  /** The columns name exactly the fields, each one at least once. */
  predicate SameNames(cs: seq<string>, fields: seq<Field>) {
    (forall c :: c in cs ==> c in Names(fields)) && (forall c :: c in Names(fields) ==> c in cs)
  }

  // The normalised headers of each sheet, in column order.
  const AdmissionColumns: seq<string> := [
    "admission_id", "student_name", "date_of_birth", "gender", "contact_number", "email",
    "address", "course_applied", "department", "admission_date", "admission_status",
    "parent_guardian_name", "parent_guardian_contact", "nationality", "category", "remarks"]
  const BookColumns: seq<string> := [
    "book_id", "title", "author", "genre", "publisher", "edition_year", "isbn", "shelf_location",
    "availability_status", "issued_to", "issue_date", "return_date", "fine_rate", "fine_accrued"]
  const HostelOccupancyColumns: seq<string> := [
    "occupancy_id", "hostel_id", "room_type", "fee_status", "room_number", "occupied_beds",
    "vacant_beds", "student_id", "student_name", "check_in_date", "check_out_date", "status"]
  const FeeReceiptColumns: seq<string> := [
    "receipt_id", "student_id", "student_name", "course", "semester_year", "fee_type", "amount",
    "payment_mode", "transaction_id", "payment_date", "status", "remarks"]
  const AppUserColumns: seq<string> := [
    "user_id", "username", "password", "role"]

  lemma {:induction false} NormalizeAdmissionsHeaders1()
    ensures NormalizeHeader("Admission ID") == "admission_id"
    ensures NormalizeHeader("Student Name") == "student_name"
    ensures NormalizeHeader("Date of Birth") == "date_of_birth"
    ensures NormalizeHeader("Gender") == "gender"
  {
    NormalizeCharwise("Admission ID");
    NormalizeCharwise("Student Name");
    NormalizeCharwise("Date of Birth");
    NormalizeCharwise("Gender");
  }

  lemma {:induction false} NormalizeAdmissionsHeaders2()
    ensures NormalizeHeader("Contact Number") == "contact_number"
    ensures NormalizeHeader("Email") == "email"
    ensures NormalizeHeader("Address") == "address"
    ensures NormalizeHeader("Course Applied") == "course_applied"
  {
    NormalizeCharwise("Contact Number");
    NormalizeCharwise("Email");
    NormalizeCharwise("Address");
    NormalizeCharwise("Course Applied");
  }

  lemma {:induction false} NormalizeAdmissionsHeaders3()
    ensures NormalizeHeader("Department") == "department"
    ensures NormalizeHeader("Admission Date") == "admission_date"
    ensures NormalizeHeader("Admission Status") == "admission_status"
  {
    NormalizeCharwise("Department");
    NormalizeCharwise("Admission Date");
    NormalizeCharwise("Admission Status");
  }

  lemma {:induction false} NormalizeAdmissionsHeaders4()
    ensures NormalizeHeader("Parent/Guardian Name") == "parent_guardian_name"
    ensures NormalizeHeader("Parent/Guardian Contact") == "parent_guardian_contact"
  {
    NormalizeCharwise("Parent/Guardian Name");
    NormalizeCharwise("Parent/Guardian Contact");
  }

  lemma {:induction false} NormalizeAdmissionsHeaders5()
    ensures NormalizeHeader("Nationality") == "nationality"
    ensures NormalizeHeader("Category") == "category"
    ensures NormalizeHeader("Remarks") == "remarks"
  {
    NormalizeCharwise("Nationality");
    NormalizeCharwise("Category");
    NormalizeCharwise("Remarks");
  }

  /** The Admissions sheet's headers normalise to the Admission columns. */
  lemma {:induction false} AdmissionColumnsOfSheet()
    ensures Columns(SheetStructure[0].1) == AdmissionColumns
  {
    NormalizeAdmissionsHeaders1();
    NormalizeAdmissionsHeaders2();
    NormalizeAdmissionsHeaders3();
    NormalizeAdmissionsHeaders4();
    NormalizeAdmissionsHeaders5();
  }

  lemma {:induction false} AdmissionFieldsAgree()
    ensures Distinct(AdmissionColumns)
    ensures Names(FullFields(Admission)) == ["student_name", "date_of_birth", "gender", "contact_number", "email", "address", "course_applied", "department", "admission_status", "parent_guardian_name", "parent_guardian_contact", "nationality", "category", "remarks", "admission_id", "admission_date"]
    ensures SameNames(AdmissionColumns, FullFields(Admission))
  {
    AdmissionNames();
    AdmissionColumnsDistinct();
  }

  /** No two columns of the Admissions sheet normalise to the same name. */
  lemma AdmissionColumnsDistinct()
    ensures Distinct(AdmissionColumns)
  {
  }

  /** The field names of the full Admission model, in declaration order. */
  lemma AdmissionNames()
    ensures Names(FullFields(Admission)) == ["student_name", "date_of_birth", "gender", "contact_number", "email", "address", "course_applied", "department", "admission_status", "parent_guardian_name", "parent_guardian_contact", "nationality", "category", "remarks", "admission_id", "admission_date"]
  {
  }

  lemma {:induction false} NormalizeLibraryHeaders1()
    ensures NormalizeHeader("Book ID") == "book_id"
    ensures NormalizeHeader("Title") == "title"
    ensures NormalizeHeader("Author") == "author"
    ensures NormalizeHeader("Genre") == "genre"
    ensures NormalizeHeader("Publisher") == "publisher"
    ensures NormalizeHeader("Edition/Year") == "edition_year"
    ensures NormalizeHeader("ISBN") == "isbn"
  {
    NormalizeCharwise("Book ID");
    NormalizeCharwise("Title");
    NormalizeCharwise("Author");
    NormalizeCharwise("Genre");
    NormalizeCharwise("Publisher");
    NormalizeCharwise("Edition/Year");
    NormalizeCharwise("ISBN");
  }

  lemma {:induction false} NormalizeLibraryHeaders2()
    ensures NormalizeHeader("Shelf Location") == "shelf_location"
    ensures NormalizeHeader("Availability Status") == "availability_status"
    ensures NormalizeHeader("Issued To") == "issued_to"
  {
    NormalizeCharwise("Shelf Location");
    NormalizeCharwise("Availability Status");
    NormalizeCharwise("Issued To");
  }

  lemma {:induction false} NormalizeLibraryHeaders3()
    ensures NormalizeHeader("Issue Date") == "issue_date"
    ensures NormalizeHeader("Return Date") == "return_date"
    ensures NormalizeHeader("Fine Rate") == "fine_rate"
    ensures NormalizeHeader("Fine Accrued") == "fine_accrued"
  {
    NormalizeCharwise("Issue Date");
    NormalizeCharwise("Return Date");
    NormalizeCharwise("Fine Rate");
    NormalizeCharwise("Fine Accrued");
  }

  /** The Library sheet's headers normalise to the Book columns. */
  lemma {:induction false} BookColumnsOfSheet()
    ensures Columns(SheetStructure[1].1) == BookColumns
  {
    NormalizeLibraryHeaders1();
    NormalizeLibraryHeaders2();
    NormalizeLibraryHeaders3();
  }

  lemma {:induction false} BookFieldsAgree()
    ensures Distinct(BookColumns)
    ensures Names(FullFields(Book)) == ["title", "author", "genre", "publisher", "edition_year", "isbn", "shelf_location", "availability_status", "issued_to", "issue_date", "return_date", "fine_rate", "fine_accrued", "book_id"]
    ensures SameNames(BookColumns, FullFields(Book))
  {
    BookNames();
    BookColumnsDistinct();
  }

  /** No two columns of the Library sheet normalise to the same name. */
  lemma BookColumnsDistinct()
    ensures Distinct(BookColumns)
  {
  }

  /** The field names of the full Book model, in declaration order. */
  lemma BookNames()
    ensures Names(FullFields(Book)) == ["title", "author", "genre", "publisher", "edition_year", "isbn", "shelf_location", "availability_status", "issued_to", "issue_date", "return_date", "fine_rate", "fine_accrued", "book_id"]
  {
  }

  lemma {:induction false} NormalizeHostelHeaders1()
    ensures NormalizeHeader("Occupancy ID") == "occupancy_id"
    ensures NormalizeHeader("Hostel ID") == "hostel_id"
    ensures NormalizeHeader("Room Type") == "room_type"
    ensures NormalizeHeader("Fee Status") == "fee_status"
  {
    NormalizeCharwise("Occupancy ID");
    NormalizeCharwise("Hostel ID");
    NormalizeCharwise("Room Type");
    NormalizeCharwise("Fee Status");
  }

  lemma {:induction false} NormalizeHostelHeaders2()
    ensures NormalizeHeader("Room Number") == "room_number"
    ensures NormalizeHeader("Occupied Beds") == "occupied_beds"
    ensures NormalizeHeader("Vacant Beds") == "vacant_beds"
    ensures NormalizeHeader("Student ID") == "student_id"
  {
    NormalizeCharwise("Room Number");
    NormalizeCharwise("Occupied Beds");
    NormalizeCharwise("Vacant Beds");
    NormalizeCharwise("Student ID");
  }

  lemma {:induction false} NormalizeHostelHeaders3()
    ensures NormalizeHeader("Student Name") == "student_name"
    ensures NormalizeHeader("Check IN Date") == "check_in_date"
    ensures NormalizeHeader("Check Out Date") == "check_out_date"
    ensures NormalizeHeader("Status") == "status"
  {
    NormalizeCharwise("Student Name");
    NormalizeCharwise("Check IN Date");
    NormalizeCharwise("Check Out Date");
    NormalizeCharwise("Status");
  }

  /** The Hostel sheet's headers normalise to the HostelOccupancy columns. */
  lemma {:induction false} HostelOccupancyColumnsOfSheet()
    ensures Columns(SheetStructure[2].1) == HostelOccupancyColumns
  {
    NormalizeHostelHeaders1();
    NormalizeHostelHeaders2();
    NormalizeHostelHeaders3();
  }

  lemma {:induction false} HostelOccupancyFieldsAgree()
    ensures Distinct(HostelOccupancyColumns)
    ensures Names(FullFields(HostelOccupancy)) == ["hostel_id", "room_type", "fee_status", "room_number", "occupied_beds", "vacant_beds", "student_id", "student_name", "check_in_date", "check_out_date", "status", "occupancy_id"]
    ensures SameNames(HostelOccupancyColumns, FullFields(HostelOccupancy))
  {
  }

  lemma {:induction false} NormalizeFeesHeaders1()
    ensures NormalizeHeader("Receipt ID") == "receipt_id"
    ensures NormalizeHeader("Student ID") == "student_id"
    ensures NormalizeHeader("Student Name") == "student_name"
    ensures NormalizeHeader("Course") == "course"
  {
    NormalizeCharwise("Receipt ID");
    NormalizeCharwise("Student ID");
    NormalizeCharwise("Student Name");
    NormalizeCharwise("Course");
  }

  lemma {:induction false} NormalizeFeesHeaders2()
    ensures NormalizeHeader("Semester/Year") == "semester_year"
    ensures NormalizeHeader("Fee Type") == "fee_type"
    ensures NormalizeHeader("Amount") == "amount"
    ensures NormalizeHeader("Payment Mode") == "payment_mode"
  {
    NormalizeCharwise("Semester/Year");
    NormalizeCharwise("Fee Type");
    NormalizeCharwise("Amount");
    NormalizeCharwise("Payment Mode");
  }

  lemma {:induction false} NormalizeFeesHeaders3()
    ensures NormalizeHeader("Transaction ID") == "transaction_id"
    ensures NormalizeHeader("Payment Date") == "payment_date"
    ensures NormalizeHeader("Status") == "status"
    ensures NormalizeHeader("Remarks") == "remarks"
  {
    NormalizeCharwise("Transaction ID");
    NormalizeCharwise("Payment Date");
    NormalizeCharwise("Status");
    NormalizeCharwise("Remarks");
  }

  /** The Fees sheet's headers normalise to the FeeReceipt columns. */
  lemma {:induction false} FeeReceiptColumnsOfSheet()
    ensures Columns(SheetStructure[3].1) == FeeReceiptColumns
  {
    NormalizeFeesHeaders1();
    NormalizeFeesHeaders2();
    NormalizeFeesHeaders3();
  }

  lemma {:induction false} FeeReceiptFieldsAgree()
    ensures Distinct(FeeReceiptColumns)
    ensures Names(FullFields(FeeReceipt)) == ["student_id", "student_name", "course", "semester_year", "fee_type", "amount", "payment_mode", "transaction_id", "status", "remarks", "receipt_id", "payment_date"]
    ensures SameNames(FeeReceiptColumns, FullFields(FeeReceipt))
  {
  }

  lemma {:induction false} NormalizeUsersHeaders1()
    ensures NormalizeHeader("User ID") == "user_id"
    ensures NormalizeHeader("Username") == "username"
    ensures NormalizeHeader("Password") == "password"
    ensures NormalizeHeader("Role") == "role"
  {
    NormalizeCharwise("User ID");
    NormalizeCharwise("Username");
    NormalizeCharwise("Password");
    NormalizeCharwise("Role");
  }

  /** The Users sheet's headers normalise to the AppUser columns. */
  lemma {:induction false} AppUserColumnsOfSheet()
    ensures Columns(SheetStructure[4].1) == AppUserColumns
  {
    NormalizeUsersHeaders1();
  }

  lemma {:induction false} AppUserFieldsAgree()
    ensures Distinct(AppUserColumns)
    ensures Names(FullFields(AppUser)) == ["username", "role", "password", "user_id"]
    ensures SameNames(AppUserColumns, FullFields(AppUser))
  {
  }

  /**
   * Every sheet's headers normalise to distinct names, which are exactly the
   * fields of the kind's full model; the first header is the identifier.
   */
  lemma {:induction false} SheetMatchesModel(k: Kind)
    ensures Distinct(Columns(Headers(k))) && SameNames(Columns(Headers(k)), FullFields(k))
    ensures Headers(k)[0] == IdHeader(k) && NormalizeHeader(IdHeader(k)) == IdField(k)
  {
    match k
    case Admission => AdmissionColumnsOfSheet(); AdmissionFieldsAgree();
    case Book => BookColumnsOfSheet(); BookFieldsAgree();
    case HostelOccupancy => HostelOccupancyColumnsOfSheet(); HostelOccupancyFieldsAgree();
    case FeeReceipt => FeeReceiptColumnsOfSheet(); FeeReceiptFieldsAgree();
    case AppUser => AppUserColumnsOfSheet(); AppUserFieldsAgree();
  }

  // ------------------------------------------------------------ translation

  /** `str(v)` of a field dumped in JSON mode: a missing value is written as the text "None". */
  function Render(v: Value): string {
    match v
    case Text(t) => t
    case Null => "None"
  }

  /**
   * `map_model_to_row` (main.py:79-84): one cell per header, holding the
   * field the header names, or '' when the instance has no such field.
   */
  function MapModelToRow(inst: Instance, headers: seq<string>): (row: Row)
    ensures |row| == |headers|
  {
    seq(|headers|, i requires 0 <= i < |headers| =>
      var field := NormalizeHeader(headers[i]);
      if field in inst then Render(inst[field]) else "")
  }

  /** The dict comprehension of `map_row_to_model` (main.py:76): every key normalised, a later key winning a clash. */
  function NormalizeKeys(record: Dict<string>): (r: Dict<string>)
    ensures Keys(r) == set i | 0 <= i < |record| :: NormalizeHeader(record[i].0)
  {
    ZipDict(NormalizedNames(record), Values(record))
  }

  /** The record's keys, normalised, in order. */
  function NormalizedNames(record: Dict<string>): (ks: seq<string>)
    ensures |ks| == |record| && forall i :: 0 <= i < |record| ==> ks[i] == NormalizeHeader(record[i].0)
  {
    seq(|record|, i requires 0 <= i < |record| => NormalizeHeader(record[i].0))
  }

  /** The record's values, in order. */
  function Values(record: Dict<string>): (vs: seq<string>)
    ensures |vs| == |record| && forall i :: 0 <= i < |record| ==> vs[i] == record[i].1
  {
    seq(|record|, i requires 0 <= i < |record| => record[i].1)
  }

  /** The keyword arguments of `model(**mapped_data)`: every cell is a string. */
  function Body(d: Dict<string>): (body: map<string, Value>)
    ensures body.Keys == Keys(d)
    ensures forall key :: key in body ==> body[key] == Text(Get(d, key).value)
  {
    map key | key in Keys(d) :: Text(Get(d, key).value)
  }

  /** `map_row_to_model` (main.py:73-77): the model declaring `fields` instantiated from a sheet record. */
  function MapRowToModel(fields: seq<Field>, record: Dict<string>): Result<Instance, ValidationError>
    requires DistinctNames(fields)
  {
    Validate(fields, Body(NormalizeKeys(record)))
  }

  /** What a stored instance reads back as: every value as the text it was written as. */
  function AsText(inst: Instance): (r: Instance)
    ensures r.Keys == inst.Keys
    ensures forall f :: f in inst ==> r[f] == Text(Render(inst[f]))
  {
    map f | f in inst :: Text(Render(inst[f]))
  }

  /**
   * Every field of `inst` is stored as text pydantic reads back for the
   * field's type: no date or number field holds None (stored as "None") or
   * the empty text.
   */
  predicate Readable(fields: seq<Field>, inst: Instance) {
    forall i :: 0 <= i < |fields| ==> TextParses(fields, i, AsText(inst))
  }

  /**
   * The text form of a full instance validates exactly when the instance is
   * readable, and then to itself.
   */
  lemma {:induction false} ReadBackValidates(fields: seq<Field>, inst: Instance)
    requires DistinctNames(fields) && inst.Keys == NameSet(fields)
    ensures Validate(fields, AsText(inst)).Ok? <==> Readable(fields, inst)
    ensures Readable(fields, inst) ==> Validate(fields, AsText(inst)) == Ok(AsText(inst))
  {
    var body := AsText(inst);
    if Readable(fields, inst) {
      ValidateComplete(fields, body);
    } else {
      var i :| 0 <= i < |fields| && !TextParses(fields, i, body);
      assert !Outcome(fields, i, body).Ok?;
    }
  }

  lemma {:induction false} NameSetIsNames(fields: seq<Field>, x: string)
    ensures x in NameSet(fields) <==> x in Names(fields)
  {
    if x in Names(fields) {
      var i :| 0 <= i < |fields| && Names(fields)[i] == x;
      assert fields[i].name == x;
    }
  }

  /**
   * Reading a row back through normalised keys: under duplicate-free
   * normalised headers, a row's record gives each column's cell (or '' past
   * the row's end) under that column's normalised header.
   */
  lemma {:induction false} NormalizedRecord(headers: seq<string>, row: Row, i: nat)
    requires Distinct(Columns(headers)) && i < |headers|
    ensures Get(NormalizeKeys(RowRecord(headers, row)), Columns(headers)[i]) == Some(if i < |row| then row[i] else "")
  {
    var cs := Columns(headers);
    var rec := RowRecord(headers, row);
    var names := NormalizedNames(rec);
    // The entry of `rec` that holds header i.
    assert headers[i] in Keys(rec);
    var j :| 0 <= j < |rec| && rec[j].0 == headers[i];
    GetAt(rec, j);
    DistinctBeforeNormalizing(headers);
    RecordCell(headers, row, i);
    assert rec[j].1 == if i < |row| then row[i] else "";
    // Normalisation keeps the record's keys apart.
    forall j' | j < j' < |rec| ensures names[j'] != names[j] {
      assert rec[j'].0 in Keys(rec);
      var i' :| 0 <= i' < |headers| && headers[i'] == rec[j'].0;
      KeysApart(rec, j, j');
      Apart(cs, i', i);
    }
    ZipDictAt(names, Values(rec), j);
  }

  /** Headers that normalise to distinct names are themselves distinct. */
  lemma {:induction false} DistinctBeforeNormalizing(headers: seq<string>)
    requires Distinct(Columns(headers))
    ensures Distinct(headers)
  {
    var cs := Columns(headers);
    forall a, b | 0 <= a < b < |headers| ensures Entry(headers, a) != Entry(headers, b) {
      Apart(cs, a, b);
    }
  }

  /** The normalised keys of a record are the normalised headers. */
  lemma {:induction false} NormalizedKeys(headers: seq<string>, row: Row)
    ensures forall x :: x in Keys(NormalizeKeys(RowRecord(headers, row))) <==> x in Columns(headers)
  {
    var rec := RowRecord(headers, row);
    var cs := Columns(headers);
    forall x | x in cs ensures x in Keys(NormalizeKeys(rec)) {
      var i :| 0 <= i < |cs| && cs[i] == x;
      assert headers[i] in Keys(rec);
      var j :| 0 <= j < |rec| && rec[j].0 == headers[i];
      assert NormalizeHeader(rec[j].0) == x;
    }
    forall x | x in Keys(NormalizeKeys(rec)) ensures x in cs {
      var j :| 0 <= j < |rec| && NormalizeHeader(rec[j].0) == x;
      assert rec[j].0 in Keys(rec);
      var i :| 0 <= i < |headers| && headers[i] == rec[j].0;
      assert cs[i] == x;
    }
  }

  /**
   * The body read back from a row that starts with the cells written for
   * `inst`: one text value per column, the one written for it. Cells past
   * the header width are never read.
   */
  lemma {:induction false} BodyOfWrittenRow(headers: seq<string>, inst: Instance, row: Row)
    requires Distinct(Columns(headers))
    requires forall c :: c in Columns(headers) ==> c in inst
    requires |headers| <= |row| && row[..|headers|] == MapModelToRow(inst, headers)
    ensures var body := Body(NormalizeKeys(RowRecord(headers, row)));
      && (forall x :: x in body <==> x in Columns(headers))
      && (forall x :: x in body ==> body[x] == Text(Render(inst[x])))
  {
    var cs := Columns(headers);
    var body := Body(NormalizeKeys(RowRecord(headers, row)));
    NormalizedKeys(headers, row);
    forall x | x in body ensures body[x] == Text(Render(inst[x])) {
      var i :| 0 <= i < |cs| && cs[i] == x;
      NormalizedRecord(headers, row, i);
      assert row[i] == row[..|headers|][i];
    }
  }

  /**
   * Writing an instance as a row and reading the row back, for any header
   * row whose normalised names are distinct and are exactly the model's
   * fields: it reads back exactly when the instance is `Readable`, and then
   * as the instance again with every value as text. The row may run on past
   * the headers (a row overwritten in place keeps its later cells); only its
   * first `|headers|` cells are read.
   */
  lemma {:induction false} RowRoundTrip(fields: seq<Field>, headers: seq<string>, inst: Instance, row: Row)
    requires DistinctNames(fields)
    requires Distinct(Columns(headers)) && SameNames(Columns(headers), fields)
    requires inst.Keys == NameSet(fields)
    requires |headers| <= |row| && row[..|headers|] == MapModelToRow(inst, headers)
    ensures MapRowToModel(fields, RowRecord(headers, row)).Ok? <==> Readable(fields, inst)
    ensures Readable(fields, inst) ==> MapRowToModel(fields, RowRecord(headers, row)) == Ok(AsText(inst))
  {
    WrittenBodyIsText(fields, headers, inst, row);
    ReadBackValidates(fields, inst);
  }

  /**
   * A row overwritten from its first cell on with a full instance reads back
   * as that instance, whatever it held before, exactly when the instance is
   * `Readable`.
   */
  lemma {:induction false} OverlaidRowRoundTrip(fields: seq<Field>, headers: seq<string>, inst: Instance, row: Row)
    requires DistinctNames(fields)
    requires Distinct(Columns(headers)) && SameNames(Columns(headers), fields)
    requires inst.Keys == NameSet(fields)
    ensures var read := MapRowToModel(fields, RowRecord(headers, Overlay(row, MapModelToRow(inst, headers))));
      && (read.Ok? <==> Readable(fields, inst))
      && (Readable(fields, inst) ==> read == Ok(AsText(inst)))
  {
    var values := MapModelToRow(inst, headers);
    var o := Overlay(row, values);
    assert o[..|headers|] == values;
    RowRoundTrip(fields, headers, inst, o);
  }

  /** The body read back from a row written for a full instance is that instance as text. */
  lemma {:induction false} WrittenBodyIsText(fields: seq<Field>, headers: seq<string>, inst: Instance, row: Row)
    requires Distinct(Columns(headers)) && SameNames(Columns(headers), fields)
    requires inst.Keys == NameSet(fields)
    requires |headers| <= |row| && row[..|headers|] == MapModelToRow(inst, headers)
    ensures var body := Body(NormalizeKeys(RowRecord(headers, row)));
      body == AsText(inst) && body.Keys == NameSet(fields)
  {
    var cs := Columns(headers);
    forall c | c in cs ensures c in inst {
      NameSetIsNames(fields, c);
    }
    BodyOfWrittenRow(headers, inst, row);
    TextBody(fields, cs, inst, Body(NormalizeKeys(RowRecord(headers, row))));
  }

  lemma {:induction false} TextBody(fields: seq<Field>, cs: seq<string>, inst: Instance, body: map<string, Value>)
    requires SameNames(cs, fields) && inst.Keys == NameSet(fields)
    requires forall x :: x in body <==> x in cs
    requires forall x :: x in body ==> body[x] == Text(Render(inst[x]))
    ensures body == AsText(inst) && body.Keys == NameSet(fields)
  {
    forall x ensures x in cs <==> x in NameSet(fields) {
      NameSetIsNames(fields, x);
    }
  }

  /**
   * A header row laid out for a model: non-empty, without repeated headers,
   * and normalising to distinct names that are exactly the model's fields.
   * Its first header is the identifier column.
   */
  predicate Fits(headers: seq<string>, fields: seq<Field>) {
    && 0 < |headers|
    && Distinct(headers)
    && Distinct(Columns(headers))
    && SameNames(Columns(headers), fields)
    && DistinctNames(fields)
  }

  /** Every sheet is laid out for its kind's full model, its identifier column first. */
  lemma {:induction false} SheetFits(k: Kind)
    ensures Fits(Headers(k), FullFields(k))
    ensures Headers(k)[0] == IdHeader(k) && Columns(Headers(k))[0] == IdField(k)
  {
    SheetMatchesModel(k);
    SheetStructureWellFormed();
    assert SheetIndex(k) < |SheetStructure|;
    FullFieldsDistinct(k);
  }

  /** Every sheet round-trips exactly the readable records of its kind. */
  lemma {:induction false} SheetRoundTrip(k: Kind, inst: Instance)
    requires inst.Keys == NameSet(FullFields(k))
    ensures DistinctNames(FullFields(k))
    ensures var read := MapRowToModel(FullFields(k), RowRecord(Headers(k), MapModelToRow(inst, Headers(k))));
      && (read.Ok? <==> Readable(FullFields(k), inst))
      && (Readable(FullFields(k), inst) ==> read == Ok(AsText(inst)))
  {
    var row := MapModelToRow(inst, Headers(k));
    SheetFits(k);
    assert row[..|Headers(k)|] == row;
    RowRoundTrip(FullFields(k), Headers(k), inst, row);
  }

  /**
   * A Book whose `issue_date` is None, its default, is written with the text
   * "None" in its Issue Date cell, which is not a date: the row written for
   * it does not read back.
   */
  lemma {:induction false} NullIssueDateUnreadable(inst: Instance)
    requires inst.Keys == NameSet(FullFields(Book))
    requires "issue_date" in inst && inst["issue_date"] == Null
    ensures !Readable(FullFields(Book), inst)
    ensures DistinctNames(FullFields(Book))
    ensures MapRowToModel(FullFields(Book), RowRecord(Headers(Book), MapModelToRow(inst, Headers(Book)))).Err?
  {
    BookFieldsAt();
    NullUnreadable(FullFields(Book), inst, 9);
    SheetRoundTrip(Book, inst);
  }

  /** An instance holding None in a field that is not a `str` is not readable. */
  lemma {:induction false} NullUnreadable(fields: seq<Field>, inst: Instance, i: nat)
    requires i < |fields| && fields[i].typ != Str
    requires fields[i].name in inst && inst[fields[i].name] == Null
    ensures !Readable(fields, inst)
  {
    assert !TextParses(fields, i, AsText(inst));
  }

  /**
   * A record found by its identifier cell instantiates a model whose
   * identifier field is that identifier.
   */
  lemma {:induction false} RecordIdentity(headers: seq<string>, fields: seq<Field>, row: Row, itemId: string)
    requires Fits(headers, fields)
    requires Get(RowRecord(headers, row), headers[0]) == Some(itemId)
    requires MapRowToModel(fields, RowRecord(headers, row)).Ok?
    ensures var id := Columns(headers)[0];
      id in MapRowToModel(fields, RowRecord(headers, row)).value
      && MapRowToModel(fields, RowRecord(headers, row)).value[id] == Text(itemId)
  {
    var cs := Columns(headers);
    var body := Body(NormalizeKeys(RowRecord(headers, row)));
    RecordCell(headers, row, 0);
    NormalizedRecord(headers, row, 0);
    assert body[cs[0]] == Text(itemId);
    assert cs[0] in Names(fields);
    var i :| 0 <= i < |fields| && Names(fields)[i] == cs[0];
    FieldResolved(fields, body, i);
  }
}
