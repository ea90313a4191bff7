/**
 The administrator's create/edit form: the field rules of the student
 schema, the field-keyed error map shown on a failed submit, and the
 pre-fill of the form from an existing record.
 */
module StudentForm {
  import opened Common
  import opened StudentTypes

  /** The schema's fields, in schema order. */
  datatype Field =
    | ClassField | RollNoField | StudentNameField | FatherNameField | MotherNameField
    | LedgerNoField | DobField | GenderField | FeeAmountField | FeeStatusField | StatusField

  const SchemaOrder: seq<Field> := [
    ClassField, RollNoField, StudentNameField, FatherNameField, MotherNameField,
    LedgerNoField, DobField, GenderField, FeeAmountField, FeeStatusField, StatusField ]

  /** The key a field's error is stored under: the record's column name. */
  function FieldName(f: Field): string {
    match f
    case ClassField => "class"
    case RollNoField => "roll_no"
    case StudentNameField => "student_name"
    case FatherNameField => "father_name"
    case MotherNameField => "mother_name"
    case LedgerNoField => "ledger_no"
    case DobField => "dob"
    case GenderField => "gender"
    case FeeAmountField => "fee_amount"
    case FeeStatusField => "fee_status"
    case StatusField => "status"
  }

  /** Distinct fields are stored under distinct keys. */
  lemma FieldNamesDistinct(f: Field, g: Field)
    ensures FieldName(f) == FieldName(g) ==> f == g
  {
  }

  const NameMax := 100
  const LedgerMax := 50

  /** The validation library's default message for a string over `max`. */
  function TooLongMessage(max: nat): string {
    if max == NameMax then "String must contain at most 100 character(s)"
    else "String must contain at most 50 character(s)"
  }

  /** The validation library's default message for a value outside an
      enumeration: the options quoted and joined by " | ", then the value
      received. */
  function EnumMessage(options: seq<string>, received: string): string {
    "Invalid enum value. Expected " + JoinQuoted(options) + ", received '" + received + "'"
  }

  function JoinQuoted(options: seq<string>): string
    decreases |options|
  {
    if |options| == 0 then ""
    else if |options| == 1 then "'" + options[0] + "'"
    else "'" + options[0] + "' | " + JoinQuoted(options[1..])
  }

  const GenderOptions: seq<string> := ["Male", "Female", "Other"]
  const FeeStatusOptions: seq<string> := ["paid", "pending"]
  const StatusOptions: seq<string> := ["active", "inactive"]

  /** A required text: at least one UTF-16 code unit, at most `max` when a
      maximum is given. */
  predicate TextWithin(t: string, min: nat, max: Option<nat>) {
    min <= Utf16Length(t) && (max.Some? ==> Utf16Length(t) <= max.value)
  }

  /** The rule each field must satisfy, stated on its own. */
  predicate FieldAccepted(fd: StudentFormData, f: Field) {
    match f
    case ClassField => TextWithin(fd.className, 1, None)
    case RollNoField => TextWithin(fd.rollNo, 1, None)
    case StudentNameField => TextWithin(fd.studentName, 1, Some(NameMax))
    case FatherNameField => TextWithin(fd.fatherName, 1, Some(NameMax))
    case MotherNameField => TextWithin(fd.motherName, 1, Some(NameMax))
    case LedgerNoField => TextWithin(fd.ledgerNo, 0, Some(LedgerMax))
    case DobField => TextWithin(fd.dob, 1, None)
    case GenderField => fd.gender in GenderOptions
    case FeeAmountField => fd.feeAmount >= 0.0
    case FeeStatusField => fd.feeStatus in FeeStatusOptions
    case StatusField => fd.status in StatusOptions
  }

  /** A required text: its message when empty, the default message when
      longer than `max`. */
  function RequiredText(t: string, requiredMessage: string, max: Option<nat>): (issue: Option<string>)
    ensures issue.None? <==> TextWithin(t, 1, max)
    ensures t == "" ==> issue == Some(requiredMessage)
  {
    if t == "" then Some(requiredMessage)
    else if max.Some? && Utf16Length(t) > max.value then Some(TooLongMessage(max.value))
    else None
  }

  function EnumIssue(options: seq<string>, t: string): (issue: Option<string>)
    ensures issue.None? <==> t in options
  {
    if t in options then None else Some(EnumMessage(options, t))
  }

  /** The message the schema reports for one field, if any. A field fails at
      most one check, so it has at most one message. */
  function FieldIssue(fd: StudentFormData, f: Field): (issue: Option<string>)
    ensures issue.None? <==> FieldAccepted(fd, f)
  {
    match f
    case ClassField => RequiredText(fd.className, "Class is required", None)
    case RollNoField => RequiredText(fd.rollNo, "Roll number is required", None)
    case StudentNameField => RequiredText(fd.studentName, "Student name is required", Some(NameMax))
    case FatherNameField => RequiredText(fd.fatherName, "Father's name is required", Some(NameMax))
    case MotherNameField => RequiredText(fd.motherName, "Mother's name is required", Some(NameMax))
    case LedgerNoField =>
      if Utf16Length(fd.ledgerNo) > LedgerMax then Some(TooLongMessage(LedgerMax)) else None
    case DobField => RequiredText(fd.dob, "Date of birth is required", None)
    case GenderField => EnumIssue(GenderOptions, fd.gender)
    case FeeAmountField => if fd.feeAmount < 0.0 then Some("Fee amount must be positive") else None
    case FeeStatusField => EnumIssue(FeeStatusOptions, fd.feeStatus)
    case StatusField => EnumIssue(StatusOptions, fd.status)
  }

  /** Zero is a valid fee, whatever the message about positive amounts says;
      only a negative amount is refused. */
  lemma ZeroFeeAccepted(fd: StudentFormData)
    ensures FieldAccepted(fd, FeeAmountField) <==> fd.feeAmount >= 0.0
    ensures fd.feeAmount == 0.0 ==> FieldIssue(fd, FeeAmountField).None?
  {
  }

  /** A ledger number may be empty; the date of birth is only checked for
      being non-empty, not for its format. */
  lemma LedgerOptionalDobUnchecked(fd: StudentFormData)
    ensures fd.ledgerNo == "" ==> FieldAccepted(fd, LedgerNoField)
    ensures FieldAccepted(fd, DobField) <==> fd.dob != ""
    ensures FieldAccepted(fd, ClassField) <==> fd.className != ""
    ensures FieldAccepted(fd, RollNoField) <==> fd.rollNo != ""
  {
  }

  /** The issues the schema reports, in schema order, as (field, message). */
  function Issues(fd: StudentFormData, fields: seq<Field>): (issues: seq<(Field, string)>)
    ensures forall p :: p in issues ==> p.0 in fields && FieldIssue(fd, p.0) == Some(p.1)
    ensures forall f :: f in fields && !FieldAccepted(fd, f) ==> (f, FieldIssue(fd, f).value) in issues
    decreases |fields|
  {
    if |fields| == 0 then []
    else
      var rest := Issues(fd, fields[1..]);
      var issue := FieldIssue(fd, fields[0]);
      if issue.Some? then [(fields[0], issue.value)] + rest else rest
  }

  /** The field names the issues mention. */
  function KeysOf(issues: seq<(Field, string)>): set<string> {
    set p | p in issues :: FieldName(p.0)
  }

  /** Issue `j` is the last one for its field. */
  predicate LastFor(issues: seq<(Field, string)>, j: int)
    requires 0 <= j < |issues|
  {
    forall l :: j < l < |issues| ==> issues[l].0 != issues[j].0
  }

  /** The map the `forEach` leaves: one key per issue's field name, and
      under it the message of the last issue for that field. */
  ghost predicate ErrorMapOf(issues: seq<(Field, string)>, errors: map<string, string>) {
    && errors.Keys == KeysOf(issues)
    && (forall j :: 0 <= j < |issues| && LastFor(issues, j) ==> errors[FieldName(issues[j].0)] == issues[j].1)
  }

  lemma KeysOfSnoc(issues: seq<(Field, string)>, n: nat)
    requires n < |issues|
    ensures KeysOf(issues[..n + 1]) == KeysOf(issues[..n]) + {FieldName(issues[n].0)}
  {
    assert issues[..n + 1] == issues[..n] + [issues[n]];
  }

  /** One turn of the `forEach`: writing issue `n` extends the map for the
      first `n` issues to the map for the first `n + 1`. */
  lemma ErrorMapStep(issues: seq<(Field, string)>, n: nat, errors: map<string, string>)
    requires n < |issues| && ErrorMapOf(issues[..n], errors)
    ensures ErrorMapOf(issues[..n + 1], errors[FieldName(issues[n].0) := issues[n].1])
  {
    var next := errors[FieldName(issues[n].0) := issues[n].1];
    var upto := issues[..n + 1];
    assert next.Keys == KeysOf(upto) by {
      KeysOfSnoc(issues, n);
    }
    forall j | 0 <= j < |upto| && LastFor(upto, j)
      ensures next[FieldName(upto[j].0)] == upto[j].1
    {
      if j < n {
        assert upto[n].0 != upto[j].0;
        FieldNamesDistinct(issues[j].0, issues[n].0);
        assert issues[..n][j] == upto[j];
        assert LastFor(issues[..n], j) by {
          forall l | j < l < n ensures issues[..n][l].0 != issues[..n][j].0 {
            assert issues[..n][l] == upto[l];
          }
        }
      }
    }
  }

  /** The `forEach` that turns the issues into the error map keyed by field
      name; a later issue for the same key overwrites an earlier one. */
  method ErrorMap(issues: seq<(Field, string)>) returns (errors: map<string, string>)
    ensures ErrorMapOf(issues, errors)
  {
    errors := map[];
    var n := 0;
    while n < |issues|
      invariant 0 <= n <= |issues|
      invariant ErrorMapOf(issues[..n], errors)
    {
      ErrorMapStep(issues, n, errors);
      errors := errors[FieldName(issues[n].0) := issues[n].1];
      n := n + 1;
    }
    assert issues[..n] == issues;
  }

  /** What a submit does: show the error map, or hand the form data on. */
  datatype SubmitResult = ShowErrors(errors: map<string, string>) | CallOnSubmit(data: StudentFormData)

  /** The error map built from the schema's issues shows each failing
      field's message under its name, and nothing else. */
  lemma ErrorsDescribeFailures(fd: StudentFormData, errors: map<string, string>)
    requires ErrorMapOf(Issues(fd, SchemaOrder), errors)
    ensures forall f :: FieldName(f) in errors <==> !FieldAccepted(fd, f)
    ensures forall f :: FieldName(f) in errors ==> errors[FieldName(f)] == FieldIssue(fd, f).value
    ensures forall k :: k in errors ==> exists f :: FieldName(f) == k
  {
    var issues := Issues(fd, SchemaOrder);
    AllFieldsListed();
    SchemaOrderDistinct();
    IssuesOnePerField(fd, SchemaOrder);
    forall f ensures FieldName(f) in errors <==> !FieldAccepted(fd, f) {
      if FieldName(f) in errors {
        var j :| 0 <= j < |issues| && FieldName(issues[j].0) == FieldName(f);
        FieldNamesDistinct(issues[j].0, f);
        assert issues[j] in issues;
      }
    }
    forall f | FieldName(f) in errors ensures errors[FieldName(f)] == FieldIssue(fd, f).value {
      var j :| 0 <= j < |issues| && FieldName(issues[j].0) == FieldName(f);
      FieldNamesDistinct(issues[j].0, f);
      assert issues[j] in issues;
    }
  }

  /** `handleSubmit`: the form data is handed on unchanged exactly when every
      field passes; otherwise each failing field's message is shown under
      its name and nothing else is. */
  method SubmitForm(fd: StudentFormData) returns (r: SubmitResult)
    ensures r.CallOnSubmit? <==> forall f :: FieldAccepted(fd, f)
    ensures r.CallOnSubmit? ==> r.data == fd
    ensures r.ShowErrors? ==> forall f :: (FieldName(f) in r.errors <==> !FieldAccepted(fd, f))
    ensures r.ShowErrors? ==> forall f :: FieldName(f) in r.errors ==> r.errors[FieldName(f)] == FieldIssue(fd, f).value
    ensures r.ShowErrors? ==> forall k :: k in r.errors ==> exists f :: FieldName(f) == k
  {
    var issues := Issues(fd, SchemaOrder);
    AllFieldsListed();
    if |issues| == 0 {
      forall f ensures FieldAccepted(fd, f) {
        assert f in SchemaOrder;
      }
      return CallOnSubmit(fd);
    }
    var errors := ErrorMap(issues);
    ErrorsDescribeFailures(fd, errors);
    assert issues[0] in issues;
    assert !FieldAccepted(fd, issues[0].0);
    return ShowErrors(errors);
  }

  lemma SchemaOrderDistinct()
    ensures forall a, b :: 0 <= a < b < |SchemaOrder| ==> SchemaOrder[a] != SchemaOrder[b]
  {
  }

  lemma AllFieldsListed()
    ensures forall f :: f in SchemaOrder
  {
    forall f ensures f in SchemaOrder {
      match f
      case ClassField => assert SchemaOrder[0] == f;
      case RollNoField => assert SchemaOrder[1] == f;
      case StudentNameField => assert SchemaOrder[2] == f;
      case FatherNameField => assert SchemaOrder[3] == f;
      case MotherNameField => assert SchemaOrder[4] == f;
      case LedgerNoField => assert SchemaOrder[5] == f;
      case DobField => assert SchemaOrder[6] == f;
      case GenderField => assert SchemaOrder[7] == f;
      case FeeAmountField => assert SchemaOrder[8] == f;
      case FeeStatusField => assert SchemaOrder[9] == f;
      case StatusField => assert SchemaOrder[10] == f;
    }
  }

  /** Each field is listed once in the schema, so it reports at most one
      issue. */
  lemma {:induction false} IssuesOnePerField(fd: StudentFormData, fields: seq<Field>)
    requires forall a, b :: 0 <= a < b < |fields| ==> fields[a] != fields[b]
    ensures forall j, l :: 0 <= j < l < |Issues(fd, fields)| ==> Issues(fd, fields)[j].0 != Issues(fd, fields)[l].0
    decreases |fields|
  {
    if |fields| > 0 {
      IssuesOnePerField(fd, fields[1..]);
    }
  }

  /** The blank form a new student starts from. */
  const EmptyForm := StudentFormData("", "", "", "", "", "", "", "Male", 0.0, "pending", "active")

  /** The blank form fails exactly on the required texts. */
  lemma EmptyFormFailures()
    ensures forall f :: !FieldAccepted(EmptyForm, f) <==>
      f in {ClassField, RollNoField, StudentNameField, FatherNameField, MotherNameField, DobField}
  {
  }

  /** The edit form filled in from a record; a missing ledger number shows
      as empty text. */
  function Prefill(st: Student): (fd: StudentFormData)
    ensures fd.ledgerNo == st.ledgerNo.GetOr("")
    ensures ParseGender(fd.gender) == Some(st.gender)
    ensures ParseFeeStatus(fd.feeStatus) == Some(st.feeStatus)
    ensures ParseStatus(fd.status) == Some(st.status)
  {
    StudentFormData(st.className, st.rollNo, st.studentName, st.fatherName, st.motherName,
      st.ledgerNo.GetOr(""), st.dob, GenderText(st.gender), st.feeAmount,
      FeeStatusText(st.feeStatus), StatusText(st.status))
  }

  /** The three enumerated fields read as members of their enumerations. */
  predicate EnumsValid(fd: StudentFormData) {
    ParseGender(fd.gender).Some? && ParseFeeStatus(fd.feeStatus).Some? && ParseStatus(fd.status).Some?
  }

  /** A form that passes has valid enumerations. */
  lemma AcceptedFormEnumsValid(fd: StudentFormData)
    requires forall f :: FieldAccepted(fd, f)
    ensures EnumsValid(fd)
  {
    assert FieldAccepted(fd, GenderField) && FieldAccepted(fd, FeeStatusField) && FieldAccepted(fd, StatusField);
  }

  /** An edit saved to a record: the form's fields are written; the id, the
      Aadhar number, the submission flag, the file URLs and the timestamps
      are not part of the form and keep their values (a refresh of
      `updated_at` by the store on write is not modelled). */
  function ApplyForm(st: Student, fd: StudentFormData): (r: Student)
    requires EnumsValid(fd)
    ensures r.id == st.id && r.aadharNo == st.aadharNo && r.isSubmitted == st.isSubmitted
    ensures r.photographUrl == st.photographUrl && r.signatureUrl == st.signatureUrl
    ensures r.createdAt == st.createdAt && r.updatedAt == st.updatedAt
    ensures Prefill(r) == fd
  {
    GenderTextRoundTrip(ParseGender(fd.gender).value, fd.gender);
    FeeStatusTextRoundTrip(ParseFeeStatus(fd.feeStatus).value, fd.feeStatus);
    StatusTextRoundTrip(ParseStatus(fd.status).value, fd.status);
    st.(className := fd.className, rollNo := fd.rollNo, studentName := fd.studentName,
        fatherName := fd.fatherName, motherName := fd.motherName, ledgerNo := Some(fd.ledgerNo),
        dob := fd.dob, gender := ParseGender(fd.gender).value, feeAmount := fd.feeAmount,
        feeStatus := ParseFeeStatus(fd.feeStatus).value, status := ParseStatus(fd.status).value)
  }

  /** Opening a record for editing and saving it unchanged gives back the
      record, except that a missing ledger number is stored as empty text. */
  lemma EditRoundTrip(st: Student)
    ensures EnumsValid(Prefill(st))
    ensures ApplyForm(st, Prefill(st)) == st.(ledgerNo := Some(st.ledgerNo.GetOr("")))
    ensures st.ledgerNo.Some? ==> ApplyForm(st, Prefill(st)) == st
  {
    GenderTextRoundTrip(st.gender, GenderText(st.gender));
    FeeStatusTextRoundTrip(st.feeStatus, FeeStatusText(st.feeStatus));
    StatusTextRoundTrip(st.status, StatusText(st.status));
  }
}
