/** The user request and response records and the declarative validation
    rules attached to the request records' fields. The email-format check of
    the validator library is an oracle `isEmail`. */
module UserTypes {
  import opened Common

  datatype CreateUserRequest = CreateUserRequest(name: string, email: string, password: string, isActive: bool)

  datatype UpdateUserRequest = UpdateUserRequest(name: string, email: string)

  /** A stored user as the repository returns it; timestamps are abstract
      clock readings, with 0 standing for Go's zero `time.Time`. */
  datatype UserRecord = UserRecord(
    id: int,
    publicId: Uuid,
    name: string,
    email: string,
    passwordHash: string,
    role: string,
    isActive: bool,
    createdAt: int,
    updatedAt: int)

  /** Go's zero value of the response record (zero time written as 0). */
  const ZeroUser := UserRecord(0, "", "", "", "", "", false, 0, 0)

  /** The fields that some failure in `errs` concerns. */
  function FailedFields(errs: seq<FieldError>): set<string>
  {
    if errs == [] then {} else {errs[0].field} + FailedFields(errs[1..])
  }

  lemma {:induction false} FailedFieldsAppend(a: seq<FieldError>, b: seq<FieldError>)
    ensures FailedFields(a + b) == FailedFields(a) + FailedFields(b)
  {
    if a != [] {
      assert (a + b)[1..] == a[1..] + b;
      FailedFieldsAppend(a[1..], b);
    } else {
      assert a + b == b;
    }
  }

  /** The fields of each request record, in declaration order. */
  const CreateFields := ["Name", "Email", "Password", "IsActive"]
  const UpdateFields := ["Name", "Email"]

  /** The position of field `f` in `order`, or `|order|` when it is absent. */
  function FieldIndex(order: seq<string>, f: string): (k: nat)
    ensures k <= |order|
  {
    if order == [] then 0
    else if order[0] == f then 0
    else 1 + FieldIndex(order[1..], f)
  }

  /** The failures name their fields in strictly increasing position of
      `order`: at most one failure per field, in field order. */
  predicate InFieldOrder(errs: seq<FieldError>, order: seq<string>)
  {
    forall i, j :: 0 <= i < j < |errs| ==> FieldIndex(order, errs[i].field) < FieldIndex(order, errs[j].field)
  }

  lemma InFieldOrderAppend(a: seq<FieldError>, b: seq<FieldError>, order: seq<string>)
    requires InFieldOrder(a, order) && InFieldOrder(b, order)
    requires forall i, j :: 0 <= i < |a| && 0 <= j < |b| ==>
      FieldIndex(order, a[i].field) < FieldIndex(order, b[j].field)
    ensures InFieldOrder(a + b, order)
  {
    forall i, j | 0 <= i < j < |a + b|
      ensures FieldIndex(order, (a + b)[i].field) < FieldIndex(order, (a + b)[j].field)
    {
      if j < |a| {
      } else if i >= |a| {
        assert (a + b)[i] == b[i - |a|] && (a + b)[j] == b[j - |a|];
      } else {
        assert (a + b)[j] == b[j - |a|];
      }
    }
  }

  /** Strictly increasing positions name each field at most once, so a
      validator's failures in field order never repeat a field. */
  lemma InFieldOrderDistinct(errs: seq<FieldError>, order: seq<string>)
    requires InFieldOrder(errs, order)
    ensures forall i, j :: 0 <= i < j < |errs| ==> errs[i].field != errs[j].field
  {
  }

  /** The rules of the creation request: a name of 3 to 50 characters, a
      non-empty well-formed email, a non-empty password and `isActive` set
      (`required` rejects the zero value `false`). */
  predicate CreateUserValid(r: CreateUserRequest, isEmail: string -> bool)
  {
    && 3 <= |r.name| <= 50
    && r.email != "" && isEmail(r.email)
    && r.password != ""
    && r.isActive
  }

  /** The rules of the update request: each field may be left empty, and
      otherwise a name has 3 to 100 characters and an email is well formed. */
  predicate UpdateUserValid(r: UpdateUserRequest, isEmail: string -> bool)
  {
    && (r.name == "" || 3 <= |r.name| <= 100)
    && (r.email == "" || isEmail(r.email))
  }

  /** The first failing tag of `required,min=lo,max=hi` on a string field. */
  function RequiredLength(field: string, s: string, lo: nat, hi: nat): seq<FieldError>
  {
    if s == "" then [FieldError(field, "required")]
    else if |s| < lo then [FieldError(field, "min")]
    else if |s| > hi then [FieldError(field, "max")]
    else []
  }

  /** The first failing tag of `omitempty,min=lo,max=hi` on a string field. */
  function OptionalLength(field: string, s: string, lo: nat, hi: nat): seq<FieldError>
  {
    if s == "" then []
    else if |s| < lo then [FieldError(field, "min")]
    else if |s| > hi then [FieldError(field, "max")]
    else []
  }

  /** The first failing tag of `required,email` (or `omitempty,email`). */
  function EmailRule(field: string, s: string, optional: bool, isEmail: string -> bool): seq<FieldError>
  {
    if s == "" then (if optional then [] else [FieldError(field, "required")])
    else if !isEmail(s) then [FieldError(field, "email")]
    else []
  }

  /** What the struct validator reports for a creation request: at most one
      failure per field, in field order, and none exactly when the request
      meets the rules. */
  function ValidateCreateUser(r: CreateUserRequest, isEmail: string -> bool): (errs: seq<FieldError>)
    ensures errs == [] <==> CreateUserValid(r, isEmail)
    ensures "Name" in FailedFields(errs) <==> !(3 <= |r.name| <= 50)
    ensures "Email" in FailedFields(errs) <==> !(r.email != "" && isEmail(r.email))
    ensures "Password" in FailedFields(errs) <==> r.password == ""
    ensures "IsActive" in FailedFields(errs) <==> !r.isActive
    ensures FailedFields(errs) <= {"Name", "Email", "Password", "IsActive"}
    ensures InFieldOrder(errs, CreateFields)
  {
    CreateFailuresFields(r, isEmail);
    CreateFailuresOrdered(r, isEmail);
    CreateFailures(r, isEmail)
  }

  /** The creation rules' failures, field by field, concatenated. */
  function CreateFailures(r: CreateUserRequest, isEmail: string -> bool): seq<FieldError>
  {
    RequiredLength("Name", r.name, 3, 50)
    + EmailRule("Email", r.email, false, isEmail)
    + (if r.password == "" then [FieldError("Password", "required")] else [])
    + (if !r.isActive then [FieldError("IsActive", "required")] else [])
  }

  lemma CreateFailuresFields(r: CreateUserRequest, isEmail: string -> bool)
    ensures var errs := CreateFailures(r, isEmail);
      && (errs == [] <==> CreateUserValid(r, isEmail))
      && ("Name" in FailedFields(errs) <==> !(3 <= |r.name| <= 50))
      && ("Email" in FailedFields(errs) <==> !(r.email != "" && isEmail(r.email)))
      && ("Password" in FailedFields(errs) <==> r.password == "")
      && ("IsActive" in FailedFields(errs) <==> !r.isActive)
      && FailedFields(errs) <= {"Name", "Email", "Password", "IsActive"}
  {
    CreateFailedSet(r, isEmail);
    var errs := CreateFailures(r, isEmail);
    if errs == [] {
      assert FailedFields(errs) == {};
    } else {
      assert errs[0].field in FailedFields(errs);
    }
  }

  /** The set of failed fields, one rule at a time. */
  lemma CreateFailedSet(r: CreateUserRequest, isEmail: string -> bool)
    ensures FailedFields(CreateFailures(r, isEmail))
      == (if 3 <= |r.name| <= 50 then {} else {"Name"})
       + (if r.email != "" && isEmail(r.email) then {} else {"Email"})
       + (if r.password == "" then {"Password"} else {})
       + (if r.isActive then {} else {"IsActive"})
  {
    var name := RequiredLength("Name", r.name, 3, 50);
    var email := EmailRule("Email", r.email, false, isEmail);
    var password := if r.password == "" then [FieldError("Password", "required")] else [];
    var active := if !r.isActive then [FieldError("IsActive", "required")] else [];
    assert CreateFailures(r, isEmail) == name + email + password + active;
    assert FailedFields(name) == if 3 <= |r.name| <= 50 then {} else {"Name"};
    assert FailedFields(email) == if r.email != "" && isEmail(r.email) then {} else {"Email"};
    assert FailedFields(password) == if r.password == "" then {"Password"} else {};
    assert FailedFields(active) == if r.isActive then {} else {"IsActive"};
    FailedFieldsAppend(name, email);
    FailedFieldsAppend(name + email, password);
    FailedFieldsAppend(name + email + password, active);
  }

  lemma CreateFieldPositions()
    ensures FieldIndex(CreateFields, "Name") == 0
    ensures FieldIndex(CreateFields, "Email") == 1
    ensures FieldIndex(CreateFields, "Password") == 2
    ensures FieldIndex(CreateFields, "IsActive") == 3
  {
    var rest := ["Email", "Password", "IsActive"];
    assert CreateFields[1..] == rest && rest[1..] == ["Password", "IsActive"];
    assert FieldIndex(rest, "IsActive") == 2 by {
      assert rest[1..][1..] == ["IsActive"];
    }
  }

  lemma CreateFailuresOrdered(r: CreateUserRequest, isEmail: string -> bool)
    ensures InFieldOrder(CreateFailures(r, isEmail), CreateFields)
  {
    var name := RequiredLength("Name", r.name, 3, 50);
    var email := EmailRule("Email", r.email, false, isEmail);
    var password := if r.password == "" then [FieldError("Password", "required")] else [];
    var active := if !r.isActive then [FieldError("IsActive", "required")] else [];
    CreateFieldPositions();
    InFieldOrderAppend(name, email, CreateFields);
    InFieldOrderAppend(name + email, password, CreateFields);
    InFieldOrderAppend(name + email + password, active, CreateFields);
  }

  /** What the struct validator reports for an update request: at most one
      failure per field, in field order. */
  function ValidateUpdateUser(r: UpdateUserRequest, isEmail: string -> bool): (errs: seq<FieldError>)
    ensures errs == [] <==> UpdateUserValid(r, isEmail)
    ensures "Name" in FailedFields(errs) <==> !(r.name == "" || 3 <= |r.name| <= 100)
    ensures "Email" in FailedFields(errs) <==> !(r.email == "" || isEmail(r.email))
    ensures FailedFields(errs) <= {"Name", "Email"}
    ensures InFieldOrder(errs, UpdateFields)
  {
    var name := OptionalLength("Name", r.name, 3, 100);
    var email := EmailRule("Email", r.email, true, isEmail);
    assert FailedFields(name) == if r.name == "" || 3 <= |r.name| <= 100 then {} else {"Name"};
    assert FailedFields(email) == if r.email == "" || isEmail(r.email) then {} else {"Email"};
    FailedFieldsAppend(name, email);
    assert FieldIndex(UpdateFields, "Email") == 1 by { assert UpdateFields[1..] == ["Email"]; }
    InFieldOrderAppend(name, email, UpdateFields);
    name + email
  }

  /** A one-character name, a malformed email and an empty password are
      rejected, whatever the email check says. */
  lemma CreateExampleRejected(isEmail: string -> bool)
    requires !isEmail("invalid-email")
    ensures ValidateCreateUser(CreateUserRequest("C", "invalid-email", "", true), isEmail)
      == [FieldError("Name", "min"), FieldError("Email", "email"), FieldError("Password", "required")]
  {
  }

  /** A one-character name is rejected by the update rules. */
  lemma UpdateExampleRejected(isEmail: string -> bool)
    ensures ValidateUpdateUser(UpdateUserRequest("A", ""), isEmail) == [FieldError("Name", "min")]
  {
  }
}
