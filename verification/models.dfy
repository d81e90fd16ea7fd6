/**
 * The record schemas of models.py: for each of the five record kinds the
 * Create shape (what a POST body may carry), the full shape (what a sheet row
 * is read back as) and the Update shape (a PUT patch), with their defaults and
 * the `<PREFIX>-<HEX>` identifier factories. Instantiating a shape from a body
 * models pydantic's validation.
 */
module Models {
  import opened Wrappers

  datatype Kind = Admission | Book | HostelOccupancy | FeeReceipt | AppUser

  /**
   * A field value as `model_dump(mode='json')` yields it: text (strings, and
   * dates and numbers in their serialised form) or null.
   */
  datatype Value = Text(text: string) | Null

  datatype Default = Required | Fixed(value: Value)

  /** The type a field is declared with, `Optional[...]` aside. */
  datatype Scalar = Str | Date | Int | Float

  /** A declared field: its name, its type, whether it is `Optional[...]`, and its default. */
  datatype Field = Field(name: string, typ: Scalar, nullable: bool, default: Default)

  /** A model instance: field name to value. */
  type Instance = map<string, Value>

  /** The inputs of the default factories: `uuid.uuid4().hex` and `date.today()` in ISO form. */
  datatype Env = Env(uuidHex: string, today: string)

  /** `name: T` with no default (`str` unless another type is given). */
  function Req(name: string, typ: Scalar := Str): Field { Field(name, typ, false, Required) }

  /** `name: Optional[T] = None`. */
  function Opt(name: string, typ: Scalar := Str): Field { Field(name, typ, true, Fixed(Null)) }

  /** `name: T = value`. */
  function Def(name: string, value: string, typ: Scalar := Str): Field { Field(name, typ, false, Fixed(Text(value))) }

  function Names(fields: seq<Field>): (r: seq<string>)
    ensures |r| == |fields| && forall i :: 0 <= i < |fields| ==> r[i] == fields[i].name
  {
    seq(|fields|, i requires 0 <= i < |fields| => fields[i].name)
  }

  function NameSet(fields: seq<Field>): set<string> {
    set i | 0 <= i < |fields| :: fields[i].name
  }

  /** Fields `i` and `j` are declared under the same name. */
  predicate SameName(fields: seq<Field>, i: nat, j: nat)
    requires i < |fields| && j < |fields|
  {
    fields[i].name == fields[j].name
  }

  /** No name is declared twice (stated on `SameName`, so that it is used only where a proof names the fields it compares). */
  predicate DistinctNames(fields: seq<Field>) {
    forall i, j :: 0 <= i < j < |fields| ==> !SameName(fields, i, j)
  }

  /** Two fields of a model without repeated names have different names. */
  lemma {:induction false} NamesApart(fields: seq<Field>, i: nat, j: nat)
    requires DistinctNames(fields) && i < |fields| && j < |fields| && i != j
    ensures fields[i].name != fields[j].name
  {
    if i < j {
      assert !SameName(fields, i, j);
    } else {
      assert !SameName(fields, j, i);
    }
  }

  // ---------------------------------------------------------------- shapes

  /** The fields of AdmissionBase, BookBase, HostelOccupancyBase, FeeReceiptBase and AppUserBase, in declaration order. */
  function BaseFields(k: Kind): seq<Field> {
    match k
    case Admission => [
      Req("student_name"), Req("date_of_birth", Date), Req("gender"), Req("contact_number"),
      Req("email"), Req("address"), Req("course_applied"), Req("department"),
      Req("admission_status"), Req("parent_guardian_name"), Req("parent_guardian_contact"),
      Req("nationality"), Req("category"), Opt("remarks")]
    case Book => [
      Req("title"), Req("author"), Req("genre"), Req("publisher"), Req("edition_year"),
      Opt("isbn"), Req("shelf_location"), Def("availability_status", "Available"),
      Opt("issued_to"), Opt("issue_date", Date), Opt("return_date", Date),
      Def("fine_rate", "0.0", Float), Def("fine_accrued", "0.0", Float)]
    case HostelOccupancy => [
      Req("hostel_id"), Req("room_type"), Req("fee_status"), Req("room_number"),
      Req("occupied_beds", Int), Req("vacant_beds", Int), Req("student_id"), Req("student_name"),
      Req("check_in_date", Date), Opt("check_out_date", Date), Req("status")]
    case FeeReceipt => [
      Req("student_id"), Req("student_name"), Req("course"), Req("semester_year"),
      Req("fee_type"), Req("amount", Float), Req("payment_mode"), Opt("transaction_id"),
      Req("status"), Opt("remarks")]
    case AppUser => [Req("username"), Req("role"), Req("password")]
  }

  /** The identifier field each kind adds to its Base. */
  function IdField(k: Kind): string {
    match k
    case Admission => "admission_id"
    case Book => "book_id"
    case HostelOccupancy => "occupancy_id"
    case FeeReceipt => "receipt_id"
    case AppUser => "user_id"
  }

  /** The date field that Admission and FeeReceipt add to their Base. */
  function DateField(k: Kind): Option<string> {
    match k
    case Admission => Some("admission_date")
    case FeeReceipt => Some("payment_date")
    case _ => None
  }

  function IdPrefix(k: Kind): string {
    match k
    case Admission => "ADM"
    case Book => "BK"
    case HostelOccupancy => "HOC"
    case FeeReceipt => "RCPT"
    case AppUser => "USR"
  }

  /** How many hex digits of the uuid the identifier keeps. */
  function IdHexLength(k: Kind): nat {
    match k
    case Book | FeeReceipt => 8
    case _ => 6
  }

  /** The full models (Admission, Book, ...): Base plus the identifier and date, all required. */
  function FullFields(k: Kind): seq<Field> {
    BaseFields(k) + [Req(IdField(k))]
      + (match DateField(k) case Some(d) => [Req(d, Date)] case None => [])
  }

  /** The Create models: Base plus the identifier and date, defaulted by their factories. */
  function CreateFields(k: Kind, env: Env): seq<Field>
    requires IsUuidHex(env.uuidHex)
  {
    BaseFields(k) + [Def(IdField(k), GenerateId(k, env.uuidHex))]
      + (match DateField(k) case Some(d) => [Def(d, env.today, Date)] case None => [])
  }

  /** The Update models, every field `Optional[...] = None`. */
  function UpdateFields(k: Kind): seq<Field> {
    match k
    case Admission => [
      Opt("student_name"), Opt("date_of_birth", Date), Opt("gender"), Opt("contact_number"),
      Opt("email"), Opt("address"), Opt("course_applied"), Opt("department"),
      Opt("admission_status"), Opt("parent_guardian_name"), Opt("parent_guardian_contact"),
      Opt("nationality"), Opt("category"), Opt("remarks")]
    case Book => [
      Opt("title"), Opt("author"), Opt("genre"), Opt("publisher"), Opt("edition_year"),
      Opt("isbn"), Opt("shelf_location"), Opt("availability_status"), Opt("issued_to"),
      Opt("issue_date", Date), Opt("return_date", Date), Opt("fine_rate", Float), Opt("fine_accrued", Float)]
    case HostelOccupancy => [
      Opt("hostel_id"), Opt("room_type"), Opt("fee_status"), Opt("room_number"),
      Opt("occupied_beds", Int), Opt("vacant_beds", Int), Opt("student_id"), Opt("student_name"),
      Opt("check_in_date", Date), Opt("check_out_date", Date), Opt("status")]
    case FeeReceipt => [
      Opt("student_id"), Opt("student_name"), Opt("course"), Opt("semester_year"),
      Opt("fee_type"), Opt("amount", Float), Opt("payment_mode"), Opt("transaction_id"),
      Opt("status"), Opt("remarks")]
    case AppUser => [Opt("username"), Opt("role"), Opt("password")]
  }

  // ----------------------------------------------------------- identifiers

  predicate IsLowerHexDigit(c: char) { '0' <= c <= '9' || 'a' <= c <= 'f' }

  predicate IsUpperHexDigit(c: char) { '0' <= c <= '9' || 'A' <= c <= 'F' }

  /** What `uuid.uuid4().hex` returns: 32 lower-case hex digits. */
  predicate IsUuidHex(h: string) {
    |h| == 32 && forall i :: 0 <= i < |h| ==> IsLowerHexDigit(h[i])
  }

  /** `str.upper()` on one character (ASCII letters only). */
  function UpperChar(c: char): char {
    if 'a' <= c <= 'z' then (c as int - 32) as char else c
  }

  /** `f"{PREFIX}-{uuid.uuid4().hex[:n].upper()}"` (models.py:25, 66, 102, 135, 165). */
  function GenerateId(k: Kind, hex: string): (id: string)
    requires IsUuidHex(hex)
    ensures |id| == |IdPrefix(k)| + 1 + IdHexLength(k)
    ensures id[..|IdPrefix(k)| + 1] == IdPrefix(k) + "-"
    ensures forall i :: |IdPrefix(k)| + 1 <= i < |id| ==> IsUpperHexDigit(id[i])
  {
    var n := IdHexLength(k);
    var suffix := seq(n, i requires 0 <= i < n => UpperChar(hex[i]));
    var id := IdPrefix(k) + "-" + suffix;
    assert id[..|IdPrefix(k)| + 1] == IdPrefix(k) + "-";
    id
  }

  /** Two generated identifiers of a kind differ whenever the kept uuid digits differ. */
  lemma {:induction false} GenerateIdInjective(k: Kind, h1: string, h2: string)
    requires IsUuidHex(h1) && IsUuidHex(h2)
    requires GenerateId(k, h1) == GenerateId(k, h2)
    ensures h1[..IdHexLength(k)] == h2[..IdHexLength(k)]
  {
    var p, n := |IdPrefix(k)| + 1, IdHexLength(k);
    forall i | 0 <= i < n ensures h1[i] == h2[i] {
      assert GenerateId(k, h1)[p + i] == GenerateId(k, h2)[p + i];
    }
  }

  // ------------------------------------------------------------ validation

  datatype ValidationError = Missing(field: string) | NotNullable(field: string) | Unparsable(field: string)

  /**
   * Whether pydantic accepts the text `s` for a field of type `t`. Any text
   * is a `str`; a date, an int or a float is never the empty text nor
   * "None", the two texts the program writes for an absent value (a
   * missing cell, and `str(None)`). Which other texts parse as a date or a
   * number is not modelled: they are all accepted.
   */
  predicate Parses(t: Scalar, s: string) {
    t == Str || (s != "" && s != "None")
  }

  /**
   * The value pydantic gives one field from a body: the body's value, or the
   * default (defaults are taken as declared, not validated).
   */
  function Resolve(f: Field, body: map<string, Value>): (r: Result<Value, ValidationError>)
    ensures r.Ok? && f.name in body ==> r.value == body[f.name]
    ensures r.Ok? && f.name !in body ==> f.default == Fixed(r.value)
    ensures r.Err? <==> ((f.name in body && body[f.name] == Null && !f.nullable)
                         || (f.name in body && body[f.name].Text? && !Parses(f.typ, body[f.name].text))
                         || (f.name !in body && f.default == Required))
  {
    if f.name in body then
      match body[f.name]
      case Null => if f.nullable then Ok(Null) else Err(NotNullable(f.name))
      case Text(s) => if Parses(f.typ, s) then Ok(Text(s)) else Err(Unparsable(f.name))
    else
      match f.default
      case Required => Err(Missing(f.name))
      case Fixed(v) => Ok(v)
  }

  /** The name of declared field `i`. */
  function NameAt(fields: seq<Field>, i: nat): string
    requires i < |fields|
  {
    fields[i].name
  }

  /** The names of the fields from position `from` on. */
  function NamesFrom(fields: seq<Field>, from: nat): set<string> {
    set i | from <= i < |fields| :: NameAt(fields, i)
  }

  /** What pydantic makes of declared field `i` (stated on its own, so that it is used only where a proof names the field). */
  function Outcome(fields: seq<Field>, i: nat, body: map<string, Value>): Result<Value, ValidationError>
    requires i < |fields|
  {
    Resolve(fields[i], body)
  }

  /**
   * `Model(**body)`: each declared field takes the body's value or its
   * default; keys the model does not declare are ignored. The first field
   * that cannot be resolved is reported.
   */
  function Validate(fields: seq<Field>, body: map<string, Value>): (r: Result<Instance, ValidationError>)
    requires DistinctNames(fields)
    ensures r.Ok? <==> forall i :: 0 <= i < |fields| ==> Outcome(fields, i, body).Ok?
    ensures r.Ok? ==> r.value.Keys == NameSet(fields)
    ensures r.Ok? ==> forall i :: 0 <= i < |fields| ==> r.value[NameAt(fields, i)] == Outcome(fields, i, body).value
  {
    assert NamesFrom(fields, 0) == NameSet(fields) by {
      forall x | x in NameSet(fields) ensures x in NamesFrom(fields, 0) {
        var i :| 0 <= i < |fields| && fields[i].name == x;
        assert NameAt(fields, i) == x;
      }
    }
    ValidateFrom(fields, body, 0)
  }

  /** The fields from position `from` on, validated in order. */
  function ValidateFrom(fields: seq<Field>, body: map<string, Value>, from: nat): (r: Result<Instance, ValidationError>)
    requires from <= |fields| && DistinctNames(fields)
    ensures r.Ok? <==> forall i :: from <= i < |fields| ==> Outcome(fields, i, body).Ok?
    ensures r.Ok? ==> r.value.Keys == NamesFrom(fields, from)
    ensures r.Ok? ==> forall i :: from <= i < |fields| ==> r.value[NameAt(fields, i)] == Outcome(fields, i, body).value
    decreases |fields| - from
  {
    if from == |fields| then Ok(map[])
    else
      match Outcome(fields, from, body)
      case Err(e) => Err(e)
      case Ok(v) =>
        match ValidateFrom(fields, body, from + 1)
        case Err(e) => Err(e)
        case Ok(rest) =>
          assert NamesFrom(fields, from) == {NameAt(fields, from)} + NamesFrom(fields, from + 1);
          assert forall i :: from < i < |fields| ==> NameAt(fields, i) != NameAt(fields, from) by {
            forall i | from < i < |fields| ensures NameAt(fields, i) != NameAt(fields, from) {
              NamesApart(fields, i, from);
            }
          }
          Ok(rest[NameAt(fields, from) := v])
  }

  /** Field `i` accepts the text the body gives it, if the body gives it text. */
  predicate TextParses(fields: seq<Field>, i: nat, body: map<string, Value>)
    requires i < |fields|
  {
    fields[i].name in body && body[fields[i].name].Text? ==> Parses(fields[i].typ, body[fields[i].name].text)
  }

  /**
   * A body that gives every declared field a non-null text of the field's
   * type validates to exactly that body.
   */
  lemma {:induction false} ValidateComplete(fields: seq<Field>, body: map<string, Value>)
    requires DistinctNames(fields) && body.Keys == NameSet(fields)
    requires forall x :: x in body ==> body[x].Text?
    requires forall i :: 0 <= i < |fields| ==> TextParses(fields, i, body)
    ensures Validate(fields, body) == Ok(body)
  {
    forall i | 0 <= i < |fields| ensures Resolve(fields[i], body).Ok? {
      assert fields[i].name in NameSet(fields);
      assert body[fields[i].name].Text?;
      assert TextParses(fields, i, body);
    }
    var r := Validate(fields, body);
    assert r.Ok?;
    assert r.value.Keys == body.Keys;
    forall f | f in r.value ensures r.value[f] == body[f] {
      var i :| 0 <= i < |fields| && fields[i].name == f;
      assert r.value[fields[i].name] == Resolve(fields[i], body).value;
    }
    assert r.value == body;
  }

  /**
   * `data.model_dump(exclude_unset=True)` of an Update model: exactly the
   * Update fields the request body set, with the values it gave them
   * (an explicit null included).
   */
  function Patch(update: seq<Field>, body: map<string, Value>): (p: map<string, Value>)
    ensures p.Keys == body.Keys * NameSet(update)
    ensures forall f :: f in p ==> p[f] == body[f]
  {
    map f | f in body.Keys * NameSet(update) :: body[f]
  }

  /** `existing.model_copy(update=patch)`: the patched fields replaced, every other field kept. */
  function Merge(existing: Instance, patch: map<string, Value>): (r: Instance)
    ensures r.Keys == existing.Keys + patch.Keys
    ensures forall f :: f in patch ==> r[f] == patch[f]
    ensures forall f :: f in existing && f !in patch ==> r[f] == existing[f]
  {
    existing + patch
  }

  // ---------------------------------------------------------- schema facts

  // Per-kind facts about the literal field lists, kept one kind per lemma so
  // that each proof stays small.
  lemma {:induction false} AdmissionSchema()
    ensures DistinctNames(BaseFields(Admission)) && Names(UpdateFields(Admission)) == Names(BaseFields(Admission))
  {}

  lemma {:induction false} BookSchema()
    ensures DistinctNames(BaseFields(Book)) && Names(UpdateFields(Book)) == Names(BaseFields(Book))
  {}

  lemma {:induction false} HostelOccupancySchema()
    ensures DistinctNames(BaseFields(HostelOccupancy))
    ensures Names(UpdateFields(HostelOccupancy)) == Names(BaseFields(HostelOccupancy))
  {}

  lemma {:induction false} FeeReceiptSchema()
    ensures DistinctNames(BaseFields(FeeReceipt)) && Names(UpdateFields(FeeReceipt)) == Names(BaseFields(FeeReceipt))
  {}

  lemma {:induction false} AppUserSchema()
    ensures DistinctNames(BaseFields(AppUser)) && Names(UpdateFields(AppUser)) == Names(BaseFields(AppUser))
  {}

  /** The identifier and the date are not Base fields, and differ from each other. */
  lemma {:induction false} ExtraFieldsNotInBase(k: Kind)
    ensures IdField(k) !in NameSet(BaseFields(k))
    ensures DateField(k).Some? ==> DateField(k).value !in NameSet(BaseFields(k)) && DateField(k).value != IdField(k)
  {}

  /**
   * Each kind's Base fields have distinct names, and its Update model declares
   * exactly the Base fields, in the same order.
   */
  lemma {:induction false} BaseAndUpdateAgree(k: Kind)
    ensures DistinctNames(BaseFields(k))
    ensures Names(UpdateFields(k)) == Names(BaseFields(k))
  {
    match k
    case Admission => AdmissionSchema();
    case Book => BookSchema();
    case HostelOccupancy => HostelOccupancySchema();
    case FeeReceipt => FeeReceiptSchema();
    case AppUser => AppUserSchema();
  }

  /** The full models' fields (Base, identifier, date) have distinct names. */
  lemma {:induction false} FullFieldsDistinct(k: Kind)
    ensures DistinctNames(FullFields(k))
  {
    BaseAndUpdateAgree(k);
    ExtraFieldsNotInBase(k);
    var b, fs := BaseFields(k), FullFields(k);
    forall i, j | 0 <= i < j < |fs| ensures !SameName(fs, i, j) {
      if j < |b| {
        assert fs[i] == b[i] && fs[j] == b[j];
        NamesApart(b, i, j);
      } else if i < |b| {
        assert fs[i] == b[i];
        assert fs[i].name in NameSet(b);
      }
    }
  }

  /** Field lists with the same names, in order, declare the same set of names. */
  lemma {:induction false} SameNameSet(a: seq<Field>, b: seq<Field>)
    requires Names(a) == Names(b)
    ensures NameSet(a) == NameSet(b)
  {
    forall x | x in NameSet(a) ensures x in NameSet(b) {
      var i :| 0 <= i < |a| && a[i].name == x;
      assert Names(b)[i] == x;
    }
    forall x | x in NameSet(b) ensures x in NameSet(a) {
      var i :| 0 <= i < |b| && b[i].name == x;
      assert Names(a)[i] == x;
    }
  }

  /** Every Base field is a field of the full model. */
  lemma {:induction false} BaseFieldsInFull(k: Kind)
    ensures NameSet(BaseFields(k)) <= NameSet(FullFields(k))
    ensures IdField(k) in NameSet(FullFields(k))
  {
    var b, f := BaseFields(k), FullFields(k);
    forall x | x in NameSet(b) ensures x in NameSet(f) {
      var i :| 0 <= i < |b| && b[i].name == x;
      assert f[i] == b[i];
    }
    assert f[|b|].name == IdField(k);
  }

  /** Each Create model declares the same field names, in the same order, as its full model. */
  lemma {:induction false} CreateMatchesFull(k: Kind, env: Env)
    requires IsUuidHex(env.uuidHex)
    ensures Names(CreateFields(k, env)) == Names(FullFields(k))
    ensures DistinctNames(CreateFields(k, env))
  {
    FullFieldsDistinct(k);
    var c, f := CreateFields(k, env), FullFields(k);
    assert |c| == |f|;
    forall i | 0 <= i < |c| ensures c[i].name == f[i].name {
      if i >= |BaseFields(k)| + 1 {
        assert DateField(k).Some?;
      }
    }
    forall i, j | 0 <= i < j < |c| ensures !SameName(c, i, j) {
      NamesApart(f, i, j);
    }
  }

  /** Every field of every Update model is `Optional[...] = None`. */
  lemma {:induction false} UpdateFieldsOptional(k: Kind)
    ensures forall i :: 0 <= i < |UpdateFields(k)| ==> UpdateFields(k)[i].nullable && UpdateFields(k)[i].default == Fixed(Null)
  {
  }

  /**
   * The Update models declare exactly the Base fields: neither the identifier
   * nor the admission or payment date can be patched.
   */
  lemma {:induction false} UpdateFieldsAreBaseFields(k: Kind)
    ensures NameSet(UpdateFields(k)) == NameSet(BaseFields(k))
    ensures IdField(k) !in NameSet(UpdateFields(k))
    ensures DateField(k).Some? ==> DateField(k).value !in NameSet(UpdateFields(k))
    ensures DistinctNames(UpdateFields(k))
  {
    BaseAndUpdateAgree(k);
    ExtraFieldsNotInBase(k);
    var u, b := UpdateFields(k), BaseFields(k);
    assert forall i :: 0 <= i < |u| ==> u[i].name == Names(u)[i] == Names(b)[i] == b[i].name;
    forall i, j | 0 <= i < j < |u| ensures !SameName(u, i, j) {
      NamesApart(b, i, j);
    }
    assert NameSet(u) == NameSet(b) by {
      forall x ensures x in NameSet(u) <==> x in NameSet(b) {
        if x in NameSet(u) {
          var i :| 0 <= i < |u| && u[i].name == x;
          assert b[i].name == x;
        }
        if x in NameSet(b) {
          var i :| 0 <= i < |b| && b[i].name == x;
          assert u[i].name == x;
        }
      }
    }
  }

  /**
   * A created record that leaves out its identifier gets a generated one, and
   * one that leaves out its admission or payment date gets today's date.
   */
  lemma {:induction false} CreateDefaults(k: Kind, env: Env, body: map<string, Value>)
    requires IsUuidHex(env.uuidHex)
    requires DistinctNames(CreateFields(k, env))
    requires Validate(CreateFields(k, env), body).Ok?
    ensures IdField(k) in Validate(CreateFields(k, env), body).value
    ensures IdField(k) !in body ==> Validate(CreateFields(k, env), body).value[IdField(k)] == Text(GenerateId(k, env.uuidHex))
    ensures DateField(k).Some? ==> DateField(k).value in Validate(CreateFields(k, env), body).value
    ensures DateField(k).Some? && DateField(k).value !in body
            ==> Validate(CreateFields(k, env), body).value[DateField(k).value] == Text(env.today)
  {
    var c := CreateFields(k, env);
    var n := |BaseFields(k)|;
    assert c[n] == Def(IdField(k), GenerateId(k, env.uuidHex));
    FieldResolved(c, body, n);
    if DateField(k).Some? {
      assert c[n + 1] == Def(DateField(k).value, env.today, Date);
      FieldResolved(c, body, n + 1);
    }
  }

  /** The Book fields with defaults, by position in the full Book model. */
  lemma BookFieldsAt()
    ensures |FullFields(Book)| == 14
    ensures FullFields(Book)[5] == Opt("isbn") && FullFields(Book)[7] == Def("availability_status", "Available")
    ensures FullFields(Book)[8] == Opt("issued_to") && FullFields(Book)[9] == Opt("issue_date", Date)
    ensures FullFields(Book)[10] == Opt("return_date", Date)
  {
  }

  /**
   * BookBase: `availability_status` defaults to "Available"; `isbn`,
   * `issued_to`, `issue_date` and `return_date` default to None.
   */
  lemma {:induction false} BookDefaults(body: map<string, Value>)
    requires DistinctNames(FullFields(Book))
    requires Validate(FullFields(Book), body).Ok?
    ensures var book := Validate(FullFields(Book), body).value;
      && "availability_status" in book && "isbn" in book && "issued_to" in book
      && "issue_date" in book && "return_date" in book
      && ("availability_status" !in body ==> book["availability_status"] == Text("Available"))
      && ("isbn" !in body ==> book["isbn"] == Null)
      && ("issued_to" !in body ==> book["issued_to"] == Null)
      && ("issue_date" !in body ==> book["issue_date"] == Null)
      && ("return_date" !in body ==> book["return_date"] == Null)
  {
    var fs := FullFields(Book);
    BookFieldsAt();
    FieldResolved(fs, body, 5);
    FieldResolved(fs, body, 7);
    FieldResolved(fs, body, 8);
    FieldResolved(fs, body, 9);
    FieldResolved(fs, body, 10);
  }

  /** The value a validated instance gives its `i`-th declared field. */
  lemma {:induction false} FieldResolved(fields: seq<Field>, body: map<string, Value>, i: nat)
    requires DistinctNames(fields) && Validate(fields, body).Ok? && i < |fields|
    ensures Resolve(fields[i], body).Ok?
    ensures fields[i].name in Validate(fields, body).value
    ensures Validate(fields, body).value[fields[i].name] == Resolve(fields[i], body).value
  {
    assert fields[i].name in NameSet(fields);
    assert NameAt(fields, i) == fields[i].name && Outcome(fields, i, body) == Resolve(fields[i], body);
  }
}
