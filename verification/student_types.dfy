/**
 The student record as the record store returns it, the form payload an
 administrator edits, and the three closed vocabularies (gender, fee status,
 lifecycle status) together with the exact text the store holds for each.
 */
module StudentTypes {
  import opened Common

  datatype Gender = Male | Female | OtherGender
  datatype FeeStatus = Paid | Pending
  datatype LifecycleStatus = Active | Inactive

  /** A persisted student. `ledgerNo`, `aadharNo`, `photographUrl` and
      `signatureUrl` may be null; every other field is always present. */
  datatype Student = Student(
    id: string,
    className: string,
    rollNo: string,
    studentName: string,
    fatherName: string,
    motherName: string,
    ledgerNo: Option<string>,
    dob: string,
    gender: Gender,
    feeAmount: real,
    feeStatus: FeeStatus,
    aadharNo: Option<string>,
    photographUrl: Option<string>,
    signatureUrl: Option<string>,
    status: LifecycleStatus,
    isSubmitted: bool,
    createdAt: string,
    updatedAt: string)

  /** The payload of the administrator's create/edit form. It has no id, no
      Aadhar number, no submission flag, no URLs and no timestamps. The three
      enumerated fields are held as the raw text the form controls produce;
      the form validator decides whether they name a member. */
  datatype StudentFormData = StudentFormData(
    className: string,
    rollNo: string,
    studentName: string,
    fatherName: string,
    motherName: string,
    ledgerNo: string,
    dob: string,
    gender: string,
    feeAmount: real,
    feeStatus: string,
    status: string)

  function GenderText(g: Gender): string {
    match g
    case Male => "Male"
    case Female => "Female"
    case OtherGender => "Other"
  }

  function FeeStatusText(f: FeeStatus): string {
    match f
    case Paid => "paid"
    case Pending => "pending"
  }

  function StatusText(s: LifecycleStatus): string {
    match s
    case Active => "active"
    case Inactive => "inactive"
  }

  /** The text of a gender value, read back; `None` for any other text. */
  function ParseGender(t: string): (g: Option<Gender>)
    ensures g.Some? <==> t in {"Male", "Female", "Other"}
  {
    if t == "Male" then Some(Male)
    else if t == "Female" then Some(Female)
    else if t == "Other" then Some(OtherGender)
    else None
  }

  function ParseFeeStatus(t: string): (f: Option<FeeStatus>)
    ensures f.Some? <==> t in {"paid", "pending"}
  {
    if t == "paid" then Some(Paid)
    else if t == "pending" then Some(Pending)
    else None
  }

  function ParseStatus(t: string): (s: Option<LifecycleStatus>)
    ensures s.Some? <==> t in {"active", "inactive"}
  {
    if t == "active" then Some(Active)
    else if t == "inactive" then Some(Inactive)
    else None
  }

  /** Each enumeration and its stored text are in one-to-one correspondence:
      reading back the text of a value gives the value, and any text that
      reads back as a value is that value's text. */
  lemma GenderTextRoundTrip(g: Gender, t: string)
    ensures ParseGender(GenderText(g)) == Some(g)
    ensures ParseGender(t) == Some(g) ==> GenderText(g) == t
  {
  }

  lemma FeeStatusTextRoundTrip(f: FeeStatus, t: string)
    ensures ParseFeeStatus(FeeStatusText(f)) == Some(f)
    ensures ParseFeeStatus(t) == Some(f) ==> FeeStatusText(f) == t
  {
  }

  lemma StatusTextRoundTrip(s: LifecycleStatus, t: string)
    ensures ParseStatus(StatusText(s)) == Some(s)
    ensures ParseStatus(t) == Some(s) ==> StatusText(s) == t
  {
  }

  /** A stored fee status is exactly one of "paid" and "pending". */
  lemma FeeStatusIsPaidXorPending(f: FeeStatus)
    ensures FeeStatusText(f) == "paid" <==> f == Paid
    ensures FeeStatusText(f) == "pending" <==> f == Pending
    ensures FeeStatusText(f) == "paid" <==> FeeStatusText(f) != "pending"
  {
  }
}
