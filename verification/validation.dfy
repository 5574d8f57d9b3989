/** Required-field validation of a registration form
    (`ValidateUserInput`, src/controllers/user.go). */
module Validation {
  import opened Wrappers
  import opened Models

  /** The five required fields. */
  datatype Field = Name | Email | Phone | CollegeName | YearOfStudy

  /** The order in which the fields are checked. */
  const CheckOrder: seq<Field> := [Name, Email, Phone, CollegeName, YearOfStudy]

  function Value(u: UserInput, f: Field): string {
    match f
    case Name => u.name
    case Email => u.email
    case Phone => u.phone
    case CollegeName => u.collegeName
    case YearOfStudy => u.yearOfStudy
  }

  /** The field's name as it appears in the rejection message. */
  function Label(f: Field): string {
    match f
    case Name => "Name"
    case Email => "Email"
    case Phone => "Phone"
    case CollegeName => "CollegeName"
    case YearOfStudy => "YearOfStudy"
  }

  function RequiredMessage(f: Field): string {
    Label(f) + " is required"
  }

  /** Every field holds some text; its content is never inspected. */
  predicate Complete(u: UserInput) {
    forall f: Field :: Value(u, f) != ""
  }

  /** `ValidateUserInput`: accept with an empty message exactly when every
      field is non-empty; otherwise reject with the message of the first
      empty field in check order. */
  function ValidateUserInput(u: UserInput): (r: (bool, string))
    ensures r.0 <==> Complete(u)
    ensures r.0 ==> r.1 == ""
    ensures !r.0 ==>
      exists i :: 0 <= i < |CheckOrder|
        && Value(u, CheckOrder[i]) == ""
        && (forall j :: 0 <= j < i ==> Value(u, CheckOrder[j]) != "")
        && r.1 == RequiredMessage(CheckOrder[i])
  {
    if u.name == "" then
      assert Value(u, CheckOrder[0]) == "" && RequiredMessage(Name) == "Name is required";
      (false, "Name is required")
    else if u.email == "" then
      assert Value(u, CheckOrder[1]) == "" && RequiredMessage(Email) == "Email is required";
      (false, "Email is required")
    else if u.phone == "" then
      assert Value(u, CheckOrder[2]) == "" && RequiredMessage(Phone) == "Phone is required";
      (false, "Phone is required")
    else if u.collegeName == "" then
      assert Value(u, CheckOrder[3]) == "" && RequiredMessage(CollegeName) == "CollegeName is required";
      (false, "CollegeName is required")
    else if u.yearOfStudy == "" then
      assert Value(u, CheckOrder[4]) == "" && RequiredMessage(YearOfStudy) == "YearOfStudy is required";
      (false, "YearOfStudy is required")
    else
      (true, "")
  }

  /** Reference definition: scan `fields` left to right for an empty one. */
  function FirstMissing(u: UserInput, fields: seq<Field>): (r: Option<Field>)
    ensures r.None? <==> forall i :: 0 <= i < |fields| ==> Value(u, fields[i]) != ""
    ensures r.Some? ==> r.value in fields && Value(u, r.value) == ""
  {
    if |fields| == 0 then None
    else if Value(u, fields[0]) == "" then Some(fields[0])
    else FirstMissing(u, fields[1..])
  }

  /** The validator is the scan over the check order, with one message per
      field. */
  lemma ValidateIsFirstMissing(u: UserInput)
    ensures ValidateUserInput(u) ==
      match FirstMissing(u, CheckOrder)
      case None => (true, "")
      case Some(f) => (false, RequiredMessage(f))
  {
    var s1, s2, s3, s4 := CheckOrder[1..], CheckOrder[2..], CheckOrder[3..], CheckOrder[4..];
    assert s1[1..] == s2 && s2[1..] == s3 && s3[1..] == s4 && s4[1..] == [];
    assert FirstMissing(u, CheckOrder) == if u.name == "" then Some(Name) else FirstMissing(u, s1);
    assert FirstMissing(u, s1) == if u.email == "" then Some(Email) else FirstMissing(u, s2);
    assert FirstMissing(u, s2) == if u.phone == "" then Some(Phone) else FirstMissing(u, s3);
    assert FirstMissing(u, s3) == if u.collegeName == "" then Some(CollegeName) else FirstMissing(u, s4);
    assert FirstMissing(u, s4) == if u.yearOfStudy == "" then Some(YearOfStudy) else None;
  }

  /** A rejection message names exactly one field, and is never the empty
      message of an acceptance. */
  lemma MessageIdentifiesField(f: Field, g: Field)
    ensures RequiredMessage(f) != ""
    ensures RequiredMessage(f) == RequiredMessage(g) <==> f == g
  {
    if f != g {
      assert Label(f) != Label(g);
      assert RequiredMessage(f)[..|Label(f)|] == Label(f);
      assert RequiredMessage(g)[..|Label(g)|] == Label(g);
    }
  }

  /** An empty name is reported whatever the other fields hold. */
  lemma EmptyNameAlwaysReported(u: UserInput)
    requires u.name == ""
    ensures ValidateUserInput(u) == (false, "Name is required")
  {
  }
}
