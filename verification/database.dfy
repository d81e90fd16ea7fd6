/**
 * The user table of database.py: one row per e-mail address (the primary
 * key) holding the display name, the encrypted refresh token and, once the
 * spreadsheet has been created, its id. The SQLite file is modelled as a
 * map from e-mail to row.
 */
module Database {
  import opened Wrappers

  /** A row of the `users` table (database.py:29-36); `spreadsheet_id` may be NULL. */
  datatype UserRow = UserRow(email: string, name: string, encryptedRefreshToken: string, spreadsheetId: Option<string>)

  /** Every row is stored under its own e-mail address. */
  ghost predicate Keyed(rows: map<string, UserRow>) {
    forall e :: e in rows ==> rows[e].email == e
  }

  /**
   * `save_or_update_user` on the table's contents (database.py:40-66): a
   * known user gets the new name and token and keeps the spreadsheet id; a
   * new user is inserted with no spreadsheet id.
   */
  function Upsert(rows: map<string, UserRow>, email: string, name: string, token: string): (r: map<string, UserRow>)
    ensures r.Keys == rows.Keys + {email}
    ensures r[email].name == name && r[email].encryptedRefreshToken == token
    ensures email !in rows || rows[email].email == email ==> r[email].email == email
    ensures r[email].spreadsheetId == if email in rows then rows[email].spreadsheetId else None
    ensures forall e :: e in rows && e != email ==> r[e] == rows[e]
    ensures Keyed(rows) ==> Keyed(r)
  {
    if email in rows then rows[email := rows[email].(name := name, encryptedRefreshToken := token)]
    else rows[email := UserRow(email, name, token, None)]
  }

  /**
   * `update_spreadsheet_id` on the table's contents (database.py:68-78): an
   * UPDATE by primary key, which changes nothing when the user is unknown.
   */
  function SetSpreadsheetId(rows: map<string, UserRow>, email: string, id: string): (r: map<string, UserRow>)
    ensures r.Keys == rows.Keys
    ensures email in rows ==> r[email] == rows[email].(spreadsheetId := Some(id))
    ensures forall e :: e in rows && e != email ==> r[e] == rows[e]
    ensures Keyed(rows) ==> Keyed(r)
  {
    if email in rows then rows[email := rows[email].(spreadsheetId := Some(id))] else rows
  }

  /** Re-authenticating never loses a user's spreadsheet: the id survives any number of upserts. */
  lemma {:induction false} UpsertKeepsSpreadsheet(rows: map<string, UserRow>, email: string, name: string, token: string, id: string)
    requires email in rows && rows[email].spreadsheetId == Some(id)
    ensures Upsert(rows, email, name, token)[email].spreadsheetId == Some(id)
  {
  }

  /** Storing a spreadsheet id for a known user and reading it back gives that id. */
  lemma {:induction false} SetThenRead(rows: map<string, UserRow>, email: string, id: string)
    requires email in rows
    ensures SetSpreadsheetId(rows, email, id)[email].spreadsheetId == Some(id)
  {
  }

  /** Saving the same user twice is the same as saving once. */
  lemma {:induction false} UpsertIdempotent(rows: map<string, UserRow>, email: string, name: string, token: string)
    ensures Upsert(Upsert(rows, email, name, token), email, name, token) == Upsert(rows, email, name, token)
  {
  }

  /** The SQLite database file: whether `users` exists, and its rows. */
  class UserTable {
    var created: bool
    var rows: map<string, UserRow>

    ghost predicate Valid()
      reads this
    {
      Keyed(rows) && (!created ==> rows == map[])
    }

    /** A database file without the `users` table. */
    constructor()
      ensures Valid() && !created && rows == map[]
    {
      created := false;
      rows := map[];
    }

    /** `init_db` (database.py:23-37): CREATE TABLE IF NOT EXISTS, so existing rows are kept. */
    method InitDb()
      requires Valid()
      modifies this
      ensures Valid() && created && rows == old(rows)
    {
      created := true;
    }

    /** `save_or_update_user` (database.py:40-66). */
    method SaveOrUpdateUser(email: string, name: string, token: string)
      requires Valid() && created
      modifies this
      ensures Valid() && created
      ensures rows == Upsert(old(rows), email, name, token)
    {
      var known := email in rows;
      if known {
        rows := rows[email := rows[email].(name := name, encryptedRefreshToken := token)];
      } else {
        rows := rows[email := UserRow(email, name, token, None)];
      }
    }

    /** `update_spreadsheet_id` (database.py:68-78). */
    method UpdateSpreadsheetId(email: string, id: string)
      requires Valid() && created
      modifies this
      ensures Valid() && created
      ensures rows == SetSpreadsheetId(old(rows), email, id)
    {
      if email in rows {
        rows := rows[email := rows[email].(spreadsheetId := Some(id))];
      }
    }

    /** `get_user_by_email` (database.py:80-92): the row stored under that address, if any. */
    method GetUserByEmail(email: string) returns (r: Option<UserRow>)
      requires Valid() && created
      ensures r.None? <==> email !in rows
      ensures r.Some? ==> r.value == rows[email] && r.value.email == email
    {
      if email in rows {
        return Some(rows[email]);
      }
      return None;
    }
  }
}
