# A school ERP on Google Sheets, modelled in Dafny

The system keeps a school's records in one Google spreadsheet per signed-in user. There are five kinds of record: admissions, library books, hostel occupancy, fee receipts and application users. Each kind lives in its own sheet. Row 1 of a sheet is a fixed header row, and every further row is one record. A small SQLite table maps each user's e-mail address to the id of their spreadsheet. The FastAPI application creates and lays out the spreadsheet. It then offers create, list, update and delete for each kind of record.

The model has eight modules, one file each:

- `wrappers.dfy` (`Wrappers`): `Option` and `Result`.
- `text.dfy` (`Text`): the header normalisation the application applies to every header. It lowercases, then turns every space and every `/` into `_`.
- `dicts.dfy` (`Dicts`): Python dicts with string keys, kept as insertion-ordered entries. It covers `dict(zip(...))`, dict comprehensions where a later key wins, and `.get`.
- `sheets_api.dfy` (`SheetsApi`):
  - `SHEET_STRUCTURE`.
  - The grid functions behind `get_all_rows` and `find_row_index`.
  - A `SheetsService` class whose `files` field maps spreadsheet ids to spreadsheets. Each spreadsheet maps sheet titles to a sheet id and a grid of string rows. Its methods are the module's functions: create, set up, append, read, find, update and delete.
- `models.py`'s schemas (`Models`, `models.dfy`): for each kind, the fields of the Create, full and Update models with their declared types (`str`, `date`, `int`, `float`) and defaults, and the identifier factories. `Validate` stands for pydantic instantiating a model from keyword arguments.
- `database.dfy` (`Database`): a `UserTable` class over a map keyed by e-mail address, with `init_db`, `save_or_update_user`, `update_spreadsheet_id` and `get_user_by_email`.
- `mapper.dfy` (`Mapper`): `map_model_to_row`, `map_row_to_model`, and the agreement between each sheet's headers and its model's fields.
- `engine.dfy` (`Engine`): `get_spreadsheet_id`, `setup_sheet` and the four handlers that `create_crud_endpoints` builds, as methods over a `UserTable` and a `SheetsService`.

Reading, searching and rewriting the grid are loops or in-place updates in the source, so they are methods here. Each method is proved against a function on grids: `Records` for `get_all_rows`, `FindRow` for `find_row_index`, and `Overlay`/`RemoveRow` for the writes. The lemmas prove what the handlers promise about those functions. An added record reads back as the instance written exactly when no date or number field of it is None. A Book left with its default `issue_date = None` is written with the text "None", which is not a date, so from then on listing the Library sheet answers 500. An update rewrites exactly the first record carrying the identifier, keeps the identifier and preserves every field the patch did not set. A delete removes exactly that record. `find_row_index` scanning the header row is reproduced, not corrected: a delete or update whose identifier equals the id column's header hits row 1.

## Model

| member | source | states |
|---|---|---|
| Text.LowerChar | main.py:76 | `lower()` on one character: the result is never an upper-case ASCII letter; upper-case letters move down by 32, everything else is unchanged |
| Text.Lower | main.py:76 | `str.lower()`: same length, each upper-case letter replaced by its lower-case form (code point plus 32), other characters kept in place, so no upper-case letter is left |
| Text.Replace | main.py:76 | `str.replace` of one character: same length, each occurrence of `from` becomes `to` and nothing else changes, so no `from` is left |
| Text.NormalizeHeader | main.py:84 | the normalised header has the same length and contains no space, no `/` and no upper-case letter |
| Text.NormalizeChar | main.py:76 | one character of the normalisation: an upper-case letter becomes its lower-case form, a space or `/` becomes `_`, anything else is kept; the result is never a space, `/` or upper-case letter |
| Text.NormalizeCharwise | main.py:76 | the three passes act character by character: the result is the per-character normalisation of the header |
| Text.NormalizeFixesNormalized | main.py:84 | a name that is already normalised is left unchanged |
| Text.NormalizeIdempotent | main.py:76 | normalising twice equals normalising once |
| Dicts.KeyIndex | main.py:189 | position of the first entry with the key; none exactly when the key is absent, and no earlier entry has it |
| Dicts.Get | main.py:189 | `d.get(k)`: none exactly when `k` is not a key, else a value stored under `k` |
| Dicts.GetOr | main.py:84 | `d.get(k, default)`: the default when `k` is absent, the stored value otherwise |
| Dicts.Put | main.py:76 | `d[k] = v`: the key set gains `k`, `k` now maps to `v`, every other key keeps its value, keys stay distinct |
| Dicts.ZipDict | sheets_api.py:165 | `dict(zip(keys, vals))` has distinct keys, namely the keys paired with a value |
| Dicts.ZipDictAt | sheets_api.py:165 | key `j` maps to value `j` unless a later pair repeats the key |
| Dicts.GetAt | main.py:76 | in a dict without repeated keys, looking up an entry's key gives that entry's value |
| SheetsApi.SheetStructureWellFormed | sheets_api.py:11-36 | five distinct sheet names (Admissions, Library, Hostel, Fees, Users), each header row non-empty, duplicate-free and at most 26 columns wide |
| SheetsApi.Pad | sheets_api.py:164 | `row + [''] * (n - len(row))` is `n` cells long, or the row's own length when that is longer |
| SheetsApi.RowRecord | sheets_api.py:164-165 | a data row as a record: distinct keys, exactly the headers |
| SheetsApi.RecordCell | sheets_api.py:164-165 | with distinct headers, header `j` maps to cell `j`, or `''` when the row is too short |
| SheetsApi.Records | sheets_api.py:157-166 | fewer than two rows give no records; otherwise one record per row after the header, in order, each `RowRecord(header, row)` |
| SheetsApi.IndexOf | sheets_api.py:198 | `headers.index(name)`: absent exactly when the name is not a header; otherwise the first position holding it |
| SheetsApi.FirstMatch | sheets_api.py:202-204 | the first row at or after `from` long enough to reach the column and holding the value there; none exactly when no such row exists |
| SheetsApi.FindRow | sheets_api.py:193-206 | `find_row_index`: errors exactly for an empty grid, an unknown column, or no matching row; otherwise a 1-based `k` with row `k-1` matching, no earlier row (header included) matching, and `1 <= k <= len(grid)` |
| SheetsApi.Overlay | sheets_api.py:225-232 | writing values from column A: the first cells are the new values, later cells of the old row are kept |
| SheetsApi.RemoveRow | sheets_api.py:259-264 | deleting rows `[k-1, k)`: one row fewer, rows before kept, rows after shifted up by one |
| SheetsApi.HeaderRowMatchesItsColumn | sheets_api.py:202-204 | searching for the column's own header name finds row 1, the header row |
| SheetsApi.RecordHolds | sheets_api.py:163-165 | for a non-empty value, record `i` carries it under a header exactly when grid row `i+1` holds it in that column |
| SheetsApi.RecordPosition | sheets_api.py:202-204 | when the first record carrying the value is record `j`, `find_row_index` returns `j + 2` |
| SheetsApi.AppendAddsRecord | sheets_api.py:127-135 | appending a row adds exactly one record, after the others, which are unchanged |
| SheetsApi.OverlayReplacesRecord | sheets_api.py:225-232 | overwriting data row `j` changes record `j` only |
| SheetsApi.RemoveDropsRecord | sheets_api.py:259-266 | deleting data row `j` removes record `j` and keeps the others in order |
| SheetsApi.RemoveHeaderShiftsRecords | sheets_api.py:257-266 | deleting row 1 makes the first data row the header: the records are re-read against it and one fewer |
| SheetsApi.Read | sheets_api.py:153-157 | an unknown spreadsheet or sheet is an HttpError; otherwise the sheet's rows |
| SheetsApi.WithRows | sheets_api.py:227-232 | replacing one sheet's rows leaves every other spreadsheet, every other sheet, the titles and the sheet ids unchanged |
| SheetsApi.AddSheet | sheets_api.py:97 | `addSheet` fails exactly when the title is taken; otherwise a new empty sheet under the next sheet id |
| SheetsApi.SheetsService.CreateSpreadsheet | sheets_api.py:64-82 | a new spreadsheet under the id the service picks, holding one empty sheet with id 0; nothing else changes |
| SheetsApi.SheetsService.AppendRow | sheets_api.py:115-137 | fails without change when the sheet cannot be read; otherwise the values become a new last row |
| SheetsApi.SheetsService.GetAllRows | sheets_api.py:139-168 | the loop builds exactly `Records` of the sheet, or the read error |
| SheetsApi.SheetsService.FindRowIndex | sheets_api.py:170-208 | the loop returns exactly `FindRow` of the sheet, or the read error |
| SheetsApi.SheetsService.UpdateRow | sheets_api.py:210-234 | a lookup failure is returned with nothing written; otherwise only the found row is overwritten from column A |
| SheetsApi.SheetsService.DeleteRow | sheets_api.py:236-268 | unknown spreadsheet: HttpError; unknown sheet or no match: ValueError; no change on any error; otherwise exactly the found row is removed |
| SheetsApi.SheetsService.SetupErpSheets | sheets_api.py:84-113 | succeeds exactly when the batch can apply; then the spreadsheet holds every ERP sheet with its header as only row, sheet 0 is gone, other spreadsheets are unchanged |
| SheetsApi.Provision | sheets_api.py:95-109 | the add-sheets, delete-sheet-0 and write-headers batches in sequence; succeeds exactly when every title is free and sheet 0 exists |
| SheetsApi.AddSheets | sheets_api.py:96-97 | fails exactly when a title is taken; otherwise one new empty sheet per title, with fresh consecutive ids, and old sheets unchanged |
| SheetsApi.DropSheet | sheets_api.py:99 | `deleteSheet` removes exactly the sheets with that id |
| SheetsApi.WriteHeaders | sheets_api.py:104-109 | each listed sheet gets its headers written as row 1; unlisted sheets are unchanged |
| SheetsApi.WriteRow | sheets_api.py:106 | writing at `A1` replaces (or creates) row 1 and keeps every later row |
| Models.GenerateId | models.py:25 | `PREFIX-` followed by 6 (ADM, HOC, USR) or 8 (BK, RCPT) characters, each an upper-case hex digit |
| Models.GenerateIdInjective | models.py:66 | two equal generated ids come from uuids that agree on the digits used |
| Models.Resolve | models.py:56-61 | a field's value: the supplied one, else its default; an error exactly when the field is missing and required, null and not `Optional`, or a date, int or float given the empty text or "None" |
| Models.Validate | main.py:77 | instantiating a model succeeds exactly when every field resolves; the instance has exactly the declared fields, each with its resolved value |
| Models.ValidateFrom | main.py:77 | the same for the fields from position `from` on |
| Models.ValidateComplete | main.py:77 | a body giving every declared field a text its type accepts, and nothing else, instantiates to itself |
| Models.Patch | main.py:193 | `model_dump(exclude_unset=True)`: exactly the body's fields that the Update model declares, with the body's values |
| Models.Merge | main.py:194 | `model_copy(update=...)`: patched fields take the patch's value, all others keep the existing value |
| Models.AdmissionSchema | models.py:8-46 | AdmissionBase has distinct names and AdmissionUpdate declares the same names in the same order |
| Models.BookSchema | models.py:50-84 | the same for the Book models |
| Models.HostelOccupancySchema | models.py:88-118 | the same for the HostelOccupancy models |
| Models.FeeReceiptSchema | models.py:122-152 | the same for the FeeReceipt models |
| Models.AppUserSchema | models.py:156-173 | the same for the AppUser models |
| Models.ExtraFieldsNotInBase | models.py:24-30 | the identifier and the date field are not Base fields, and they differ from each other |
| Models.BaseAndUpdateAgree | models.py:32-46 | for every kind: distinct Base names, and the Update model has the Base names |
| Models.FullFieldsDistinct | models.py:28-30 | no full model declares a name twice |
| Models.BaseFieldsInFull | models.py:68-69 | the full model contains every Base field and the identifier |
| Models.CreateMatchesFull | models.py:24-30 | each Create model has the same field names as its full model, in the same order |
| Models.UpdateFieldsOptional | models.py:71-84 | every Update field is `Optional` with default `None` |
| Models.UpdateFieldsAreBaseFields | models.py:32-46 | the Update model has exactly the Base names: never the identifier, never the admission or payment date |
| Models.CreateDefaults | models.py:25-26 | an omitted identifier is the generated id; an omitted admission or payment date is today |
| Models.BookDefaults | models.py:56-61 | an omitted `availability_status` is "Available"; omitted `isbn`, `issued_to`, `issue_date` and `return_date` are None |
| Database.Upsert | database.py:40-66 | an existing user gets the new name and token and keeps the spreadsheet id; a new user is inserted with none; other users unchanged; one row per e-mail |
| Database.SetSpreadsheetId | database.py:68-78 | only that user's spreadsheet id changes; an unknown e-mail changes nothing |
| Database.UpsertKeepsSpreadsheet | database.py:52-58 | logging in again never loses the stored spreadsheet id |
| Database.SetThenRead | database.py:74-77 | after setting, the user's spreadsheet id is the new one |
| Database.UpsertIdempotent | database.py:40-66 | saving the same user twice equals saving once |
| Database.UserTable.InitDb | database.py:23-37 | creating the table again keeps every row |
| Database.UserTable.SaveOrUpdateUser | database.py:40-66 | the table becomes `Upsert` of the old table |
| Database.UserTable.UpdateSpreadsheetId | database.py:68-78 | the table becomes `SetSpreadsheetId` of the old table |
| Database.UserTable.GetUserByEmail | database.py:80-92 | the stored row for a known e-mail, none otherwise |
| Mapper.HeadersLookup | main.py:81 | `SHEET_STRUCTURE[sheet_name]` finds the kind's headers, and different kinds use different sheets |
| Mapper.Columns | main.py:84 | one normalised name per header, in order |
| Mapper.AdmissionFieldsAgree | sheets_api.py:12-17 | the Admissions columns are distinct and are exactly the full Admission model's fields |
| Mapper.BookFieldsAgree | sheets_api.py:18-22 | the same for Library and Book |
| Mapper.HostelOccupancyFieldsAgree | sheets_api.py:23-27 | the same for Hostel and HostelOccupancy |
| Mapper.FeeReceiptFieldsAgree | sheets_api.py:28-32 | the same for Fees and FeeReceipt |
| Mapper.AppUserFieldsAgree | sheets_api.py:33-35 | the same for Users and AppUser |
| Mapper.SheetMatchesModel | main.py:212 | for every kind the sheet's columns match the model, the first header is the id header the router searches by, and it normalises to the model's identifier field |
| Mapper.MapModelToRow | main.py:79-84 | one cell per header |
| Mapper.NormalizeKeys | main.py:76 | the comprehension's keys are the record's keys, normalised |
| Mapper.Body | main.py:77 | every cell becomes a text keyword argument |
| Mapper.AsText | main.py:82 | what an instance reads back as: every value as its written text, None as "None" |
| Mapper.NormalizedRecord | main.py:76 | with distinct normalised headers, the normalised key of column `i` holds cell `i` or `''` |
| Mapper.NormalizedKeys | main.py:76 | the normalised record has exactly the sheet's normalised columns as keys |
| Mapper.BodyOfWrittenRow | main.py:84 | a row written by `map_model_to_row` yields, for every column, the text of the instance's field |
| Mapper.ReadBackValidates | main.py:77 | the text form of a full instance validates exactly when the instance is readable (no date or number stored as "None" or ''), and then to itself |
| Mapper.RowRoundTrip | main.py:73-84 | `map_row_to_model` of a row `map_model_to_row` wrote succeeds exactly when the instance is readable, and then gives the instance with its values as text |
| Mapper.OverlaidRowRoundTrip | main.py:195-196 | the same when the row is written over an older, possibly longer row |
| Mapper.SheetFits | sheets_api.py:11-36 | every sheet's header row suits its kind's full model, with the identifier column first |
| Mapper.SheetRoundTrip | main.py:173-174 | for every kind, an instance written as a row reads back exactly when it is readable, and then as the instance as text |
| Mapper.NullUnreadable | main.py:77-84 | an instance holding None in a field that is not a `str` is not readable |
| Mapper.NullIssueDateUnreadable | models.py:60 | a Book whose `issue_date` is None is written as "None" and its row does not read back |
| Mapper.RecordIdentity | main.py:189 | a record read by identifier instantiates to a model whose identifier field is that identifier |
| Engine.SpreadsheetIdOf | main.py:59-70 | the stored id when present and at least 30 characters long; 400 otherwise; 500 for a user missing from the table |
| Engine.Target | main.py:171-172 | the handlers' preamble: the spreadsheet-id guard, then 500 when the credentials cannot be built |
| Engine.ShortIdIsStuck | main.py:154 | an id shorter than 30 characters is refused by every CRUD handler, yet `setup_sheet` treats it as already set up |
| Engine.FreshSpreadsheetProvisions | sheets_api.py:96-99 | a newly created spreadsheet can always be laid out |
| Engine.SetupSheet | main.py:151-163 | an existing non-empty id is returned with nothing changed; a missing user or undecryptable token is 500 with nothing changed; otherwise a new spreadsheet is created and its id recorded, then the sheets are laid out; a refused layout is 500 with the bare spreadsheet created and its id already recorded |
| Engine.RecordedIdIsFinal | main.py:154-159 | once an id is recorded, the user counts as set up with that id, so a retry after a failed layout returns it without laying it out |
| Engine.EveryCrudConsistent | main.py:211-229 | every endpoint group's sheet, id header, full model and Update model fit together, and the Update model never declares the identifier |
| Engine.FirstWithId | main.py:189 | the first record whose id cell equals the identifier; none exactly when no record has it |
| Engine.AddRecord | main.py:170-175 | invalid body: 422; then the spreadsheet-id guard; an unreadable sheet: 500; otherwise exactly one row, `map_model_to_row` of the instance, is appended, and the instance is returned; no change on any error |
| Engine.GetRecords | main.py:178-182 | one instance per data row in order; fails with 500 exactly when some row does not instantiate |
| Engine.InstantiateAll | main.py:182 | the list comprehension: every record instantiated in order, or 500 if any fails |
| Engine.UpdateRecord | main.py:185-197 | 422 when the body does not validate against the Update model, then the spreadsheet-id guard, then `Updated`: no change on any error |
| Engine.UpdateIn | main.py:188-197 | unreadable sheet: 500; no record with the identifier: 404; a first such record that does not instantiate: 500; otherwise the merged instance is written back and returned |
| Engine.WriteBack | main.py:195-197 | the row `find_row_index` picks is overwritten with the merged instance and the instance returned; 500 with no change when there is no such row |
| Engine.Selected | main.py:189-191 | 404 exactly when no record carries the identifier; 500 when the first such record does not instantiate; otherwise that record's instance |
| Engine.SelectExisting | main.py:189-191 | computes `Selected` |
| Engine.FindRecord | main.py:189 | the loop returns exactly `FirstWithId` |
| Engine.DeleteRecord | main.py:200-207 | unknown spreadsheet: 500; unknown sheet or no match: 404; no change on error; otherwise exactly the row `find_row_index` picks is removed |
| Engine.CreatedHasFullFields | models.py:24-30 | a created instance has exactly the full model's fields |
| Engine.AddedRecordReadsBack | main.py:173-174 | after adding, the earlier records are unchanged and the new last record reads back exactly when the created instance is readable, then as that instance |
| Engine.DefaultBookBreaksListing | main.py:169-182 | after adding a Book without `issue_date`, the Library sheet's last record does not instantiate, so listing it answers 500 |
| Engine.CreatedIssueDateIsNull | models.py:60 | a Book created without `issue_date` holds None there |
| Engine.FoundRowIsFirstRecord | sheets_api.py:202-204 | for an identifier that is neither empty nor the header, `find_row_index` finds the row of the first record carrying it |
| Engine.UpdatedInstance | main.py:193-194 | the merged instance has the existing fields plus the patched ones; patched fields take the body's value, the others keep their old value |
| Engine.SelectedCarriesId | main.py:189 | the selected instance has exactly the model's fields and its identifier field is the identifier searched for |
| Engine.PatchKeepsIdentity | main.py:193-194 | a patch never changes the identifier or the set of fields |
| Engine.UpdateKeepsIdentity | main.py:193-194 | the updated instance keeps the identifier searched for |
| Engine.OverwriteRewritesRecord | main.py:195-196 | the found row holds the first record carrying the identifier; after overwriting it every other record is unchanged, and the rewritten one reads back exactly when the instance is readable, then as that instance |
| Engine.UpdateRewritesSelectedRecord | main.py:188-196 | an update rewrites exactly the record it selected, which then reads back exactly when the merged instance is readable (a patch setting a date or number to None makes it unreadable), then as the merged instance |
| Engine.DeleteRemovesSelectedRecord | main.py:204 | a delete removes exactly the first record carrying the identifier and keeps the rest in order |
| Engine.DeleteByHeaderNameDropsHeader | sheets_api.py:202-204 | deleting by the id column's header name removes the header row, and the first data row becomes the header |

## Left out

- security.py is not part of this model: Fernet encryption, JWT creation and decoding, and `get_current_user`. The signed-in user's e-mail address is a parameter of each handler.
- `get_google_credentials` reads a JSON file and decrypts the stored token. It is reduced to a boolean, `tokenDecrypts`; when it is false the handler answers 500.
- The OAuth endpoints (`login_google`, `auth_callback`, `logout`), `read_root` and `read_users_me` are not modelled. They are request, cookie and redirect plumbing around `save_or_update_user` and `get_user_by_email`, which are modelled.
- Transport failures of the Google API, such as network errors, quota errors and revoked credentials, are not modelled. The only HttpErrors are an unknown spreadsheet, an unknown sheet range, a taken sheet title and a missing sheet id.
- Several behaviours of the spreadsheet service are not modelled:
  - `valueInputOption='USER_ENTERED'` reinterpreting cell text.
  - The `A:Z` read range clipping wider rows.
  - The service trimming trailing empty cells and rows.

  The grid reads back exactly as it was written.
- Sheet ids come from a per-spreadsheet counter. The real service picks them itself, and the new spreadsheet's default sheet has id 0 as in the source.
- SQLite connections, transactions and the file `erp_users.db` are not modelled. The `users` table is a map keyed by e-mail address.
- `uuid.uuid4()` and `date.today()` are parameters (`Env`): a 32-digit lower-case hex string and the date's ISO text.
- Models.Parses: of the texts a date, int or float field can receive, only the empty text and "None" are refused. Those are the two texts the program itself writes for an absent value. Other malformed texts are accepted, and pydantic's normalisation of accepted texts (a float "1" read back as 1.0) is not modelled. Every value is the text it is serialised as, or null, so the round-trip lemmas compare texts.
- Engine.SetupSheet: a layout failure is modelled as the service refusing the first of the three batch updates. A failure after the first batch has applied, which would leave a partly laid-out spreadsheet, is not modelled.
- Text.LowerChar: lowercases ASCII letters only; Python's `str.lower()` also maps non-ASCII letters.
- Mapper.MapModelToRow: its contract states only the row length. What each cell holds is stated through the round trips `RowRoundTrip`, `OverlaidRowRoundTrip` and `SheetRoundTrip`.
- Concurrent requests are not modelled. That includes the race between `find_row_index` and the following write.
- Error message texts, FastAPI routing and response-model filtering are not modelled. Handler outcomes are reduced to the status codes 400, 404, 422 and 500.
- The descriptor `Crud` carries the sheet's header row. The source looks that row up in `SHEET_STRUCTURE` inside `map_model_to_row`, and `Mapper.HeadersLookup` proves the two agree.
- `Engine.AddRecord` receives the Create model's fields with the default factories already evaluated for this request (`Models.CreateFields` with an `Env`).
