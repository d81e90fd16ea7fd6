/**
 * The row store of sheets_api.py. The remote spreadsheet service is modelled
 * in memory: a map from spreadsheet id to a document whose named sheets each
 * hold a grid of string rows (row 0 being the header). Every operation keeps
 * the source's index arithmetic: `find_row_index` answers a 1-based position
 * that counts the header row, and deleting position `k` removes the 0-based
 * range `[k-1, k)`.
 */
module SheetsApi {
  import opened Wrappers
  import opened Dicts

  type Row = seq<string>

  type Grid = seq<Row>

  /** SHEET_STRUCTURE: each sheet's header row, in declaration order (sheets_api.py:11-36). */
  const SheetStructure: Dict<seq<string>> := [
    ("Admissions", [
      "Admission ID", "Student Name", "Date of Birth", "Gender", "Contact Number",
      "Email", "Address", "Course Applied", "Department", "Admission Date",
      "Admission Status", "Parent/Guardian Name", "Parent/Guardian Contact",
      "Nationality", "Category", "Remarks"]),
    ("Library", [
      "Book ID", "Title", "Author", "Genre", "Publisher", "Edition/Year", "ISBN",
      "Shelf Location", "Availability Status", "Issued To", "Issue Date",
      "Return Date", "Fine Rate", "Fine Accrued"]),
    ("Hostel", [
      "Occupancy ID", "Hostel ID", "Room Type", "Fee Status", "Room Number",
      "Occupied Beds", "Vacant Beds", "Student ID", "Student Name",
      "Check IN Date", "Check Out Date", "Status"]),
    ("Fees", [
      "Receipt ID", "Student ID", "Student Name", "Course", "Semester/Year",
      "Fee Type", "Amount", "Payment Mode", "Transaction ID", "Payment Date",
      "Status", "Remarks"]),
    ("Users", ["User ID", "Username", "Password", "Role"])
  ]

  /** The widest row the `A:Z` ranges read. */
  const MaxColumns := 26

  /** Entry `i` of a sequence of strings. */
  function Entry(s: seq<string>, i: nat): string
    requires i < |s|
  {
    s[i]
  }

  /** No string occurs twice (stated on `Entry`, so that it is used only where a proof names the entries it compares). */
  predicate Distinct(s: seq<string>) {
    forall i, j :: 0 <= i < j < |s| ==> Entry(s, i) != Entry(s, j)
  }

  /** Two entries of a sequence without repeats differ. */
  lemma {:induction false} Apart(s: seq<string>, i: nat, j: nat)
    requires Distinct(s) && i < |s| && j < |s| && i != j
    ensures s[i] != s[j]
  {
    if i < j {
      assert Entry(s, i) != Entry(s, j);
    } else {
      assert Entry(s, j) != Entry(s, i);
    }
  }

  // One lemma per sheet keeps each proof about literal strings small.
  lemma {:induction false} AdmissionsHeadersDistinct() ensures Distinct(SheetStructure[0].1) {}
  lemma {:induction false} LibraryHeadersDistinct() ensures Distinct(SheetStructure[1].1) {}
  lemma {:induction false} HostelHeadersDistinct() ensures Distinct(SheetStructure[2].1) {}
  lemma {:induction false} FeesHeadersDistinct() ensures Distinct(SheetStructure[3].1) {}
  lemma {:induction false} UsersHeadersDistinct() ensures Distinct(SheetStructure[4].1) {}

  /**
   * SHEET_STRUCTURE names five distinct sheets, and each header row is
   * non-empty, duplicate-free and fits the `A:Z` column range.
   */
  lemma {:induction false} SheetStructureWellFormed()
    ensures |SheetStructure| == 5 && DistinctKeys(SheetStructure)
    ensures Keys(SheetStructure) == {"Admissions", "Library", "Hostel", "Fees", "Users"}
    ensures forall i :: 0 <= i < |SheetStructure| ==>
      var hs := SheetStructure[i].1; 0 < |hs| <= MaxColumns && Distinct(hs)
  {
    AdmissionsHeadersDistinct();
    LibraryHeadersDistinct();
    HostelHeadersDistinct();
    FeesHeadersDistinct();
    UsersHeadersDistinct();
    var ks := {"Admissions", "Library", "Hostel", "Fees", "Users"};
    assert Keys(SheetStructure) == ks by {
      forall x | x in ks ensures x in Keys(SheetStructure) {
        if x == "Admissions" { assert SheetStructure[0].0 == x; }
        else if x == "Library" { assert SheetStructure[1].0 == x; }
        else if x == "Hostel" { assert SheetStructure[2].0 == x; }
        else if x == "Fees" { assert SheetStructure[3].0 == x; }
        else { assert SheetStructure[4].0 == x; }
      }
    }
  }

  // ------------------------------------------------------------ the grid

  /** `row + [''] * (n - len(row))`: the row, then blank cells up to width `n` (none when it is already that wide). */
  function Pad(row: Row, n: nat): (r: Row)
    ensures |r| == if |row| < n then n else |row|
  {
    seq(if |row| < n then n else |row|, i requires 0 <= i < (if |row| < n then n else |row|) => if i < |row| then row[i] else "")
  }

  /** `dict(zip(headers, padded_row))`: one data row as a header-keyed record (sheets_api.py:164-165). */
  function RowRecord(headers: Row, row: Row): (r: Dict<string>)
    ensures DistinctKeys(r)
    ensures Keys(r) == set h | h in headers
  {
    var padded := Pad(row, |headers|);
    assert (set i | 0 <= i < |headers| && i < |padded| :: headers[i]) == set h | h in headers by {
      forall h | h in headers ensures h in set i | 0 <= i < |headers| && i < |padded| :: headers[i] {
        var j :| 0 <= j < |headers| && headers[j] == h;
      }
    }
    ZipDict(headers, padded)
  }

  /**
   * A record's value under a header: the row's cell in that column, or ''
   * when the row is too short to reach it. Cells past the header width are
   * never reachable.
   */
  lemma {:induction false} RecordCell(headers: Row, row: Row, j: nat)
    requires Distinct(headers) && j < |headers|
    ensures Get(RowRecord(headers, row), headers[j]) == Some(if j < |row| then row[j] else "")
  {
    var padded := Pad(row, |headers|);
    forall i | j < i < |headers| ensures headers[i] != headers[j] {
      Apart(headers, i, j);
    }
    ZipDictAt(headers, padded, j);
  }

  /** `get_all_rows` on a grid: nothing below two rows, else one record per row after the header. */
  function Records(grid: Grid): (rs: seq<Dict<string>>)
    ensures |grid| < 2 ==> rs == []
    ensures |grid| >= 2 ==> |rs| == |grid| - 1
    ensures forall i :: 0 <= i < |rs| ==> rs[i] == RowRecord(grid[0], grid[i + 1])
  {
    if |grid| < 2 then []
    else seq(|grid| - 1, i requires 0 <= i < |grid| - 1 => RowRecord(grid[0], grid[i + 1]))
  }

  /** Record `i` holds `value` under `column` (stated on its own, so that it is used only where a proof names the record). */
  predicate Carries(records: seq<Dict<string>>, i: nat, column: string, value: string)
    requires i < |records|
  {
    Get(records[i], column) == Some(value)
  }

  /** `list.index(x)`: the first position of `x`. */
  function IndexOf(s: seq<string>, x: string): (r: Option<nat>)
    ensures r.None? <==> x !in s
    ensures r.Some? ==> r.value < |s| && s[r.value] == x && forall j :: 0 <= j < r.value ==> Entry(s, j) != x
  {
    var r := IndexFrom(s, x, 0);
    assert x in s ==> exists i :: 0 <= i < |s| && Entry(s, i) == x by {
      if x in s {
        var i :| 0 <= i < |s| && s[i] == x;
        assert Entry(s, i) == x;
      }
    }
    r
  }

  /** The first position at or after `from` holding `x`. */
  function IndexFrom(s: seq<string>, x: string, from: nat): (r: Option<nat>)
    requires from <= |s|
    ensures r.None? <==> forall j :: from <= j < |s| ==> Entry(s, j) != x
    ensures r.Some? ==> from <= r.value < |s| && s[r.value] == x && forall j :: from <= j < r.value ==> Entry(s, j) != x
    decreases |s| - from
  {
    if from == |s| then None
    else if s[from] == x then assert Entry(s, from) == x; Some(from)
    else IndexFrom(s, x, from + 1)
  }

  /** Row `i` reaches column `c` and holds `v` there. */
  predicate Matches(grid: Grid, i: nat, c: nat, v: string)
    requires i < |grid|
  {
    c < |grid[i]| && grid[i][c] == v
  }

  /** No row before position `k` matches. */
  predicate NoMatchBefore(grid: Grid, c: nat, v: string, k: nat)
    requires k <= |grid|
  {
    forall i :: 0 <= i < k ==> !Matches(grid, i, c, v)
  }

  /** The first position at or after `from` whose row matches. */
  function FirstMatch(grid: Grid, c: nat, v: string, from: nat): (r: Option<nat>)
    requires from <= |grid|
    ensures r.None? <==> forall j :: from <= j < |grid| ==> !Matches(grid, j, c, v)
    ensures r.Some? ==> from <= r.value < |grid| && Matches(grid, r.value, c, v)
                        && forall j :: from <= j < r.value ==> !Matches(grid, j, c, v)
    decreases |grid| - from
  {
    if from == |grid| then None
    else if Matches(grid, from, c, v) then Some(from)
    else FirstMatch(grid, c, v, from + 1)
  }

  datatype LookupFailure = SheetEmpty | ColumnNotFound | RecordNotFound | SheetNotFound

  datatype HttpFailure = SpreadsheetNotFound | RangeNotFound | SheetTitleTaken | SheetIdNotFound

  /** What the row store raises: `ValueError` from its own checks, `HttpError` from the service. */
  datatype StoreError = ValueError(lookup: LookupFailure) | HttpError(http: HttpFailure)

  /**
   * `find_row_index` on a grid (sheets_api.py:193-206): the 1-based position
   * of the first row, header row included, whose cell under `column` equals
   * `value`.
   */
  function FindRow(grid: Grid, value: string, column: string): (r: Result<nat, StoreError>)
    ensures r == Err(ValueError(SheetEmpty)) <==> grid == []
    ensures r == Err(ValueError(ColumnNotFound)) <==> grid != [] && column !in grid[0]
    ensures r == Err(ValueError(RecordNotFound)) <==>
      grid != [] && column in grid[0]
      && forall j :: 0 <= j < |grid| ==> !Matches(grid, j, IndexOf(grid[0], column).value, value)
    ensures r.Ok? ==> grid != [] && column in grid[0]
    ensures r.Ok? ==> var c := IndexOf(grid[0], column).value;
      && 1 <= r.value <= |grid|
      && Matches(grid, r.value - 1, c, value)
      && forall j :: 0 <= j < r.value - 1 ==> !Matches(grid, j, c, value)
  {
    if grid == [] then Err(ValueError(SheetEmpty))
    else match IndexOf(grid[0], column)
      case None => Err(ValueError(ColumnNotFound))
      case Some(c) =>
        match FirstMatch(grid, c, value, 0)
        case None => Err(ValueError(RecordNotFound))
        case Some(i) => Ok(i + 1)
  }

  /** Writing `values` into a row starting at column A: later cells of the row are kept. */
  function Overlay(row: Row, values: Row): (r: Row)
    ensures |r| == if |row| < |values| then |values| else |row|
    ensures r[..|values|] == values
    ensures forall i :: |values| <= i < |row| ==> r[i] == row[i]
  {
    if |row| <= |values| then values else values + row[|values|..]
  }

  /** The `deleteDimension` of rows `[k-1, k)`. */
  function RemoveRow(grid: Grid, k: nat): (r: Grid)
    requires 1 <= k <= |grid|
    ensures |r| == |grid| - 1
    ensures forall i :: 0 <= i < k - 1 ==> r[i] == grid[i]
    ensures forall i :: k - 1 <= i < |r| ==> r[i] == grid[i + 1]
  {
    grid[..k - 1] + grid[k..]
  }

  /** A search for a column's own header name finds the header row, position 1. */
  lemma {:induction false} HeaderRowMatchesItsColumn(grid: Grid, column: string)
    requires grid != [] && column in grid[0]
    ensures FindRow(grid, column, column) == Ok(1)
  {
  }

  /** The first matching row, when it is known, is what the scan answers. */
  lemma {:induction false} FirstMatchAt(grid: Grid, c: nat, v: string, k: nat)
    requires k < |grid| && Matches(grid, k, c, v)
    requires forall i :: 0 <= i < k ==> !Matches(grid, i, c, v)
    ensures FirstMatch(grid, c, v, 0) == Some(k)
  {
    assert FirstMatch(grid, c, v, 0).Some?;
  }

  /** A record holds a non-empty `value` under a header exactly when its row holds it in that column. */
  lemma {:induction false} RecordHolds(grid: Grid, c: nat, value: string, i: nat)
    requires 2 <= |grid| && Distinct(grid[0]) && c < |grid[0]|
    requires value != "" && i < |grid| - 1
    ensures Carries(Records(grid), i, grid[0][c], value) <==> Matches(grid, i + 1, c, value)
  {
    RecordCell(grid[0], grid[i + 1], c);
  }

  /**
   * The row behind a record: when record `j` is the first record whose cell
   * under `column` is `value`, and `value` is neither '' nor the column's
   * own name, `find_row_index` answers `j + 2` (one for the header row, one
   * for 1-based counting).
   */
  lemma {:induction false} RecordPosition(grid: Grid, column: string, value: string, j: nat)
    requires 2 <= |grid| && Distinct(grid[0]) && column in grid[0]
    requires value != "" && value != column
    requires j < |grid| - 1
    requires Carries(Records(grid), j, column, value)
    requires forall i :: 0 <= i < j ==> !Carries(Records(grid), i, column, value)
    ensures FindRow(grid, value, column) == Ok(j + 2)
  {
    var c := IndexOf(grid[0], column).value;
    RecordHolds(grid, c, value, j);
    NoEarlierRow(grid, column, c, value, j);
    RowPosition(grid, column, c, value, j + 2);
  }

  /** The first row holding `value` in the column's cell is what `find_row_index` answers, 1-based. */
  lemma {:induction false} RowPosition(grid: Grid, column: string, c: nat, value: string, pos: nat)
    requires grid != [] && IndexOf(grid[0], column) == Some(c)
    requires 1 <= pos <= |grid| && Matches(grid, pos - 1, c, value) && NoMatchBefore(grid, c, value, pos - 1)
    ensures FindRow(grid, value, column) == Ok(pos)
  {
    FirstMatchAt(grid, c, value, pos - 1);
  }

  /** No row before the one behind record `j` holds `value` in column `c`, the header row included. */
  lemma {:induction false} NoEarlierRow(grid: Grid, column: string, c: nat, value: string, j: nat)
    requires 2 <= |grid| && Distinct(grid[0]) && c < |grid[0]| && grid[0][c] == column
    requires value != "" && value != column && j < |grid| - 1
    requires forall i :: 0 <= i < j ==> !Carries(Records(grid), i, column, value)
    ensures NoMatchBefore(grid, c, value, j + 1)
  {
    forall i | 0 <= i < j + 1 ensures !Matches(grid, i, c, value) {
      if i > 0 {
        RecordHolds(grid, c, value, i - 1);
      }
    }
  }

  /** Appending a row to a sheet that has a header adds exactly one record, built from that row. */
  lemma {:induction false} AppendAddsRecord(grid: Grid, row: Row)
    requires grid != []
    ensures Records(grid + [row]) == Records(grid) + [RowRecord(grid[0], row)]
  {
    var g := grid + [row];
    assert g[0] == grid[0];
    forall i | 0 <= i < |Records(grid)| ensures Records(g)[i] == Records(grid)[i] {
      assert g[i + 1] == grid[i + 1];
    }
    assert Records(g)[|grid| - 1] == RowRecord(grid[0], row) by {
      assert g[|grid|] == row;
    }
  }

  /** Overwriting the row of record `j` (sheet row `j + 2`) replaces that record and no other. */
  lemma {:induction false} OverlayReplacesRecord(grid: Grid, j: nat, values: Row)
    requires j + 1 < |grid|
    ensures Records(grid[j + 1 := Overlay(grid[j + 1], values)])
         == Records(grid)[j := RowRecord(grid[0], Overlay(grid[j + 1], values))]
  {
  }

  /** Removing data row `j + 2` removes record `j` and keeps the others in order. */
  lemma {:induction false} RemoveDropsRecord(grid: Grid, j: nat)
    requires j + 2 <= |grid|
    ensures Records(RemoveRow(grid, j + 2)) == Records(grid)[..j] + Records(grid)[j + 1..]
  {
    var g := RemoveRow(grid, j + 2);
    var before, after := Records(grid), Records(g);
    assert g[0] == grid[0];
    assert |after| == |before| - 1;
    forall i | 0 <= i < |after| ensures after[i] == (before[..j] + before[j + 1..])[i] {
      if i < j {
        assert g[i + 1] == grid[i + 1];
      } else {
        assert g[i + 1] == grid[i + 2];
      }
    }
  }

  /** Removing row 1 takes the header away: the next row becomes the header and its record is lost. */
  lemma {:induction false} RemoveHeaderShiftsRecords(grid: Grid)
    requires 3 <= |grid|
    ensures Records(RemoveRow(grid, 1)) == Records(grid[1..])
    ensures |Records(RemoveRow(grid, 1))| == |Records(grid)| - 1
  {
  }

  // ------------------------------------------------------ documents

  datatype Sheet = Sheet(sheetId: nat, rows: Grid)

  /** A spreadsheet: its title, its sheets by title, and the id the next added sheet gets. */
  datatype Spreadsheet = Spreadsheet(title: string, sheets: map<string, Sheet>, nextSheetId: nat)

  /** A new spreadsheet holds one empty sheet, "Sheet1", whose id is 0. */
  function NewSpreadsheet(title: string): Spreadsheet {
    Spreadsheet(title, map["Sheet1" := Sheet(0, [])], 1)
  }

  ghost predicate SheetIdsFresh(doc: Spreadsheet) {
    0 < doc.nextSheetId && forall t :: t in doc.sheets ==> doc.sheets[t].sheetId < doc.nextSheetId
  }

  /** The `'<sheet>'!A:Z` read: an unknown spreadsheet or sheet is an HttpError. */
  function Read(files: map<string, Spreadsheet>, id: string, name: string): (r: Result<Grid, StoreError>)
    ensures r == Err(HttpError(SpreadsheetNotFound)) <==> id !in files
    ensures r == Err(HttpError(RangeNotFound)) <==> id in files && name !in files[id].sheets
    ensures r.Ok? ==> id in files && name in files[id].sheets && r.value == files[id].sheets[name].rows
  {
    if id !in files then Err(HttpError(SpreadsheetNotFound))
    else if name !in files[id].sheets then Err(HttpError(RangeNotFound))
    else Ok(files[id].sheets[name].rows)
  }

  /** The store with one sheet's rows replaced and everything else as it was. */
  function WithRows(files: map<string, Spreadsheet>, id: string, name: string, rows: Grid): (r: map<string, Spreadsheet>)
    requires id in files && name in files[id].sheets
    ensures r.Keys == files.Keys
    ensures forall other :: other in files && other != id ==> r[other] == files[other]
    ensures r[id].title == files[id].title && r[id].nextSheetId == files[id].nextSheetId
    ensures r[id].sheets.Keys == files[id].sheets.Keys
    ensures r[id].sheets[name] == Sheet(files[id].sheets[name].sheetId, rows)
    ensures forall t :: t in files[id].sheets && t != name ==> r[id].sheets[t] == files[id].sheets[t]
  {
    var doc := files[id];
    files[id := doc.(sheets := doc.sheets[name := doc.sheets[name].(rows := rows)])]
  }

  /** A sheet may be added under `title` only when no sheet has that title yet. */
  function AddSheet(doc: Spreadsheet, title: string): (r: Result<Spreadsheet, StoreError>)
    ensures r.Err? <==> title in doc.sheets
    ensures r.Ok? ==> r.value.sheets == doc.sheets[title := Sheet(doc.nextSheetId, [])]
                      && r.value.nextSheetId == doc.nextSheetId + 1 && r.value.title == doc.title
  {
    if title in doc.sheets then Err(HttpError(SheetTitleTaken))
    else Ok(doc.(sheets := doc.sheets[title := Sheet(doc.nextSheetId, [])],
                 nextSheetId := doc.nextSheetId + 1))
  }

  predicate HasSheetId(doc: Spreadsheet, sheetId: nat) {
    exists t :: t in doc.sheets && doc.sheets[t].sheetId == sheetId
  }

  /** The batch `setup_erp_sheets` sends succeeds exactly when every new title is free and sheet 0 exists. */
  predicate CanProvision(doc: Spreadsheet, layout: Dict<Row>) {
    HasSheetId(doc, 0) && forall i :: 0 <= i < |layout| ==> layout[i].0 !in doc.sheets
  }

  /**
   * After `setup_erp_sheets` with the given layout: every listed sheet exists
   * with its header row as its only row, the default sheet (id 0) is gone,
   * and every other sheet is as it was.
   */
  ghost predicate Provisioned(before: Spreadsheet, after: Spreadsheet, layout: Dict<Row>) {
    && after.title == before.title
    && (forall i :: 0 <= i < |layout| ==> layout[i].0 in after.sheets && after.sheets[layout[i].0].rows == [layout[i].1])
    && (forall t :: t in before.sheets && before.sheets[t].sheetId != 0 ==>
          t in after.sheets && after.sheets[t] == before.sheets[t])
    && (forall t :: t in after.sheets ==> after.sheets[t].sheetId != 0 && (t in before.sheets || t in Keys(layout)))
  }

  /** The spreadsheet service as the application sees it. */
  class SheetsService {
    var files: map<string, Spreadsheet>

    ghost predicate Valid()
      reads this
    {
      forall id :: id in files ==> SheetIdsFresh(files[id])
    }

    constructor()
      ensures Valid() && files == map[]
    {
      files := map[];
    }

    /**
     * `create_spreadsheet` (sheets_api.py:64-82): the service picks the id,
     * here passed in as `newId`, and the new document has its default sheet.
     */
    method CreateSpreadsheet(title: string, newId: string) returns (id: string)
      requires Valid() && newId !in files
      modifies this
      ensures Valid()
      ensures id == newId && files == old(files)[newId := NewSpreadsheet(title)]
    {
      files := files[newId := NewSpreadsheet(title)];
      id := newId;
    }

    /** `append_row` (sheets_api.py:115-137): the values become a new last row of the sheet. */
    method AppendRow(id: string, name: string, values: Row) returns (r: Result<(), StoreError>)
      requires Valid()
      modifies this
      ensures Valid()
      ensures r.Err? <==> Read(old(files), id, name).Err?
      ensures r.Err? ==> r.error == Read(old(files), id, name).error && files == old(files)
      ensures r.Ok? ==> files == WithRows(old(files), id, name, Read(old(files), id, name).value + [values])
    {
      var grid := Read(files, id, name);
      if grid.Err? {
        return Err(grid.error);
      }
      files := WithRows(files, id, name, grid.value + [values]);
      return Ok(());
    }

    /**
     * `get_all_rows` (sheets_api.py:139-168): every row after the header as
     * a header-keyed record, short rows padded with ''.
     */
    method GetAllRows(id: string, name: string) returns (r: Result<seq<Dict<string>>, StoreError>)
      ensures r.Err? <==> Read(files, id, name).Err?
      ensures r.Err? ==> r.error == Read(files, id, name).error
      ensures r.Ok? ==> r.value == Records(Read(files, id, name).value)
    {
      var read := Read(files, id, name);
      if read.Err? {
        return Err(read.error);
      }
      var values := read.value;
      if |values| < 2 {
        return Ok([]);
      }
      var headers := values[0];
      var records: seq<Dict<string>> := [];
      var i := 1;
      while i < |values|
        invariant 1 <= i <= |values|
        invariant |records| == i - 1
        invariant forall j :: 0 <= j < i - 1 ==> records[j] == RowRecord(headers, values[j + 1])
      {
        var padded := Pad(values[i], |headers|);
        records := records + [ZipDict(headers, padded)];
        i := i + 1;
      }
      return Ok(records);
    }

    /**
     * `find_row_index` (sheets_api.py:170-208): scans every row, the header
     * row included, and answers the first match's 1-based position.
     */
    method FindRowIndex(id: string, name: string, value: string, column: string) returns (r: Result<nat, StoreError>)
      ensures r == (match Read(files, id, name)
                    case Err(e) => Err(e)
                    case Ok(grid) => FindRow(grid, value, column))
    {
      var read := Read(files, id, name);
      if read.Err? {
        return Err(read.error);
      }
      var values := read.value;
      if values == [] {
        return Err(ValueError(SheetEmpty));
      }
      var headers := values[0];
      var col := IndexOf(headers, column);
      if col.None? {
        return Err(ValueError(ColumnNotFound));
      }
      var c := col.value;
      var i := 0;
      while i < |values|
        invariant 0 <= i <= |values|
        invariant FirstMatch(values, c, value, 0) == FirstMatch(values, c, value, i)
      {
        if |values[i]| > c && values[i][c] == value {
          return Ok(i + 1);
        }
        i := i + 1;
      }
      return Err(ValueError(RecordNotFound));
    }

    /**
     * `update_row` (sheets_api.py:210-234): the row `find_row_index` picks
     * is overwritten from column A with the new values.
     */
    method UpdateRow(id: string, name: string, value: string, column: string, newValues: Row)
      returns (r: Result<(), StoreError>)
      requires Valid()
      modifies this
      ensures Valid()
      ensures var found := (match Read(old(files), id, name)
                            case Err(e) => Err(e)
                            case Ok(grid) => FindRow(grid, value, column));
        && (r.Err? <==> found.Err?)
        && (r.Err? ==> r.error == found.error && files == old(files))
        && (r.Ok? ==> var grid := Read(old(files), id, name).value; var k := found.value;
              files == WithRows(old(files), id, name, grid[k - 1 := Overlay(grid[k - 1], newValues)]))
    {
      var found := FindRowIndex(id, name, value, column);
      if found.Err? {
        return Err(found.error);
      }
      var grid := Read(files, id, name).value;
      var k := found.value;
      files := WithRows(files, id, name, grid[k - 1 := Overlay(grid[k - 1], newValues)]);
      return Ok(());
    }

    /**
     * `delete_row` (sheets_api.py:236-268): the sheet must be listed in the
     * spreadsheet's metadata; then the row `find_row_index` picks is removed.
     */
    method DeleteRow(id: string, name: string, value: string, column: string) returns (r: Result<(), StoreError>)
      requires Valid()
      modifies this
      ensures Valid()
      ensures id !in old(files) ==> r == Err(HttpError(SpreadsheetNotFound))
      ensures id in old(files) && name !in old(files)[id].sheets ==> r == Err(ValueError(SheetNotFound))
      ensures r.Err? ==> files == old(files)
      ensures id in old(files) && name in old(files)[id].sheets ==>
        var grid := old(files)[id].sheets[name].rows;
        && (r.Err? <==> FindRow(grid, value, column).Err?)
        && (r.Err? ==> r.error == FindRow(grid, value, column).error)
        && (r.Ok? ==> files == WithRows(old(files), id, name, RemoveRow(grid, FindRow(grid, value, column).value)))
    {
      if id !in files {
        return Err(HttpError(SpreadsheetNotFound));
      }
      if name !in files[id].sheets {
        return Err(ValueError(SheetNotFound));
      }
      var found := FindRowIndex(id, name, value, column);
      if found.Err? {
        return Err(found.error);
      }
      var grid := files[id].sheets[name].rows;
      files := WithRows(files, id, name, RemoveRow(grid, found.value));
      return Ok(());
    }

    /**
     * `setup_erp_sheets` (sheets_api.py:84-113): one batch adds a sheet per
     * SHEET_STRUCTURE entry and deletes sheet 0, all or nothing; then each
     * new sheet's header row is written at A1.
     */
    method SetupErpSheets(id: string) returns (r: Result<(), StoreError>)
      requires Valid()
      modifies this
      ensures Valid()
      ensures r.Err? ==> files == old(files)
      ensures id !in old(files) ==> r == Err(HttpError(SpreadsheetNotFound))
      ensures id in old(files) ==> (r.Ok? <==> CanProvision(old(files)[id], SheetStructure))
      ensures r.Ok? ==> id in old(files) && files.Keys == old(files).Keys
                        && Provisioned(old(files)[id], files[id], SheetStructure)
                        && forall other :: other in files && other != id ==> files[other] == old(files)[other]
    {
      if id !in files {
        return Err(HttpError(SpreadsheetNotFound));
      }
      SheetStructureWellFormed();
      var doc := Provision(files[id], SheetStructure);
      if doc.Err? {
        return Err(doc.error);
      }
      files := files[id := doc.value];
      return Ok(());
    }
  }

  /** The whole of `setup_erp_sheets` on one document, for any layout with distinct titles. */
  method Provision(doc0: Spreadsheet, layout: Dict<Row>) returns (r: Result<Spreadsheet, StoreError>)
    requires SheetIdsFresh(doc0) && DistinctKeys(layout)
    ensures r.Ok? <==> CanProvision(doc0, layout)
    ensures r.Ok? ==> SheetIdsFresh(r.value) && Provisioned(doc0, r.value, layout)
  {
    var added := AddSheets(doc0, layout);
    if added.Err? {
      return Err(added.error);
    }
    var doc1 := added.value;
    if !HasSheetId(doc1, 0) {
      return Err(HttpError(SheetIdNotFound));
    }
    assert HasSheetId(doc0, 0) by {
      var t :| t in doc1.sheets && doc1.sheets[t].sheetId == 0;
      assert t in doc0.sheets;
    }
    var doc2 := DropSheet(doc1, 0);
    var doc := WriteHeaders(doc2, layout);
    assert forall j :: 0 <= j < |layout| ==> doc2.sheets[layout[j].0] == doc1.sheets[layout[j].0];
    assert forall t :: t in doc0.sheets && doc0.sheets[t].sheetId != 0 ==> t !in Keys(layout);
    return Ok(doc);
  }

  /**
   * The `addSheet` requests of the setup batch, applied in order: the first
   * title already taken fails the whole batch.
   */
  method AddSheets(doc0: Spreadsheet, layout: Dict<Row>) returns (r: Result<Spreadsheet, StoreError>)
    requires SheetIdsFresh(doc0) && DistinctKeys(layout)
    ensures r.Err? <==> exists j :: 0 <= j < |layout| && layout[j].0 in doc0.sheets
    ensures r.Ok? ==> var doc := r.value;
      && SheetIdsFresh(doc)
      && doc.title == doc0.title
      && (forall t :: t in doc.sheets <==> t in doc0.sheets || t in Keys(layout))
      && (forall t :: t in doc0.sheets ==> doc.sheets[t] == doc0.sheets[t])
      && (forall t :: t in doc.sheets && t !in doc0.sheets ==> doc.sheets[t].sheetId >= doc0.nextSheetId)
      && (forall j :: 0 <= j < |layout| ==> doc.sheets[layout[j].0] == Sheet(doc0.nextSheetId + j, []))
  {
    var doc := doc0;
    var i := 0;
    while i < |layout|
      invariant 0 <= i <= |layout|
      invariant doc.title == doc0.title && doc.nextSheetId == doc0.nextSheetId + i
      invariant forall t :: t in doc.sheets ==> doc.sheets[t].sheetId < doc.nextSheetId
      invariant forall j :: 0 <= j < i ==> layout[j].0 !in doc0.sheets
      invariant forall t :: t in doc.sheets <==> t in doc0.sheets || t in Keys(layout[..i])
      invariant forall t :: t in doc.sheets && t !in doc0.sheets ==> doc.sheets[t].sheetId >= doc0.nextSheetId
      invariant forall t :: t in doc0.sheets ==> doc.sheets[t] == doc0.sheets[t]
      invariant forall j :: 0 <= j < i ==> doc.sheets[layout[j].0] == Sheet(doc0.nextSheetId + j, [])
    {
      var name := layout[i].0;
      assert name !in Keys(layout[..i]) by {
        forall j | 0 <= j < i ensures layout[..i][j].0 != name {
          KeysApart(layout, j, i);
        }
      }
      var added := AddSheet(doc, name);
      if added.Err? {
        return Err(added.error);
      }
      doc := added.value;
      assert layout[..i + 1] == layout[..i] + [layout[i]];
      KeysSnoc(layout[..i], layout[i]);
      i := i + 1;
    }
    assert layout[..i] == layout;
    return Ok(doc);
  }

  /** The `deleteSheet` request: the sheet with the given id is removed. */
  function DropSheet(doc: Spreadsheet, sheetId: nat): (r: Spreadsheet)
    ensures r.title == doc.title && r.nextSheetId == doc.nextSheetId
    ensures forall t :: t in r.sheets <==> t in doc.sheets && doc.sheets[t].sheetId != sheetId
    ensures forall t :: t in r.sheets ==> r.sheets[t] == doc.sheets[t]
  {
    doc.(sheets := map t | t in doc.sheets && doc.sheets[t].sheetId != sheetId :: doc.sheets[t])
  }

  /** The header writes: each listed sheet's first row becomes its header row. */
  method WriteHeaders(doc0: Spreadsheet, layout: Dict<Row>) returns (doc: Spreadsheet)
    requires DistinctKeys(layout)
    requires forall j :: 0 <= j < |layout| ==> layout[j].0 in doc0.sheets
    ensures doc.title == doc0.title && doc.nextSheetId == doc0.nextSheetId
    ensures doc.sheets.Keys == doc0.sheets.Keys
    ensures forall t :: t in doc.sheets ==> doc.sheets[t].sheetId == doc0.sheets[t].sheetId
    ensures forall t :: t in doc.sheets && (forall j :: 0 <= j < |layout| ==> layout[j].0 != t) ==> doc.sheets[t] == doc0.sheets[t]
    ensures forall j :: 0 <= j < |layout| ==>
      doc.sheets[layout[j].0].rows == WriteRow(doc0.sheets[layout[j].0].rows, layout[j].1)
  {
    doc := doc0;
    var i := 0;
    while i < |layout|
      invariant 0 <= i <= |layout|
      invariant doc.title == doc0.title && doc.nextSheetId == doc0.nextSheetId
      invariant doc.sheets.Keys == doc0.sheets.Keys
      invariant forall t :: t in doc.sheets ==> doc.sheets[t].sheetId == doc0.sheets[t].sheetId
      invariant forall t :: t in doc.sheets && (forall j :: 0 <= j < i ==> layout[j].0 != t) ==> doc.sheets[t] == doc0.sheets[t]
      invariant forall j :: 0 <= j < i ==>
        doc.sheets[layout[j].0].rows == WriteRow(doc0.sheets[layout[j].0].rows, layout[j].1)
    {
      var name := layout[i].0;
      forall j | 0 <= j < i ensures layout[j].0 != name {
        KeysApart(layout, j, i);
      }
      doc := doc.(sheets := doc.sheets[name := doc.sheets[name].(rows := WriteRow(doc.sheets[name].rows, layout[i].1))]);
      i := i + 1;
    }
  }

  /** Writing one row of values at A1: the first row is overlaid, or created when the grid is empty. */
  function WriteRow(grid: Grid, values: Row): (r: Grid)
    ensures |r| == if grid == [] then 1 else |grid|
    ensures r[0] == (if grid == [] then values else Overlay(grid[0], values))
    ensures forall i :: 1 <= i < |r| ==> r[i] == grid[i]
  {
    if grid == [] then [values] else grid[0 := Overlay(grid[0], values)]
  }
}
