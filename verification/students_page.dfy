/**
 The administrator's student list: the two list filters, the query they
 drive, the create/update/delete handlers and the fee badge.
 */
module StudentsPage {
  import opened Common
  import opened StudentTypes
  import opened StudentForm

  /** The list filters; a missing entry means "no restriction". */
  datatype Filters = Filters(className: Option<string>, feeStatus: Option<string>)

  const NoFilters := Filters(None, None)

  /** The sentinel option of both filter menus. */
  const AllOption := "all"

  /** Choosing in the class menu: "all" drops the class restriction, any
      other choice sets it; the fee restriction is untouched. */
  function SelectClassFilter(f: Filters, choice: string): (r: Filters)
    ensures r.feeStatus == f.feeStatus
    ensures r.className.None? <==> choice == AllOption
    ensures choice != AllOption ==> r.className == Some(choice)
  {
    f.(className := if choice == AllOption then None else Some(choice))
  }

  /** Choosing in the fee menu, symmetrically; the class restriction is
      untouched. */
  function SelectFeeFilter(f: Filters, choice: string): (r: Filters)
    ensures r.className == f.className
    ensures r.feeStatus.None? <==> choice == AllOption
    ensures choice != AllOption ==> r.feeStatus == Some(choice)
  {
    f.(feeStatus := if choice == AllOption then None else Some(choice))
  }

  /** What a menu displays for a restriction: the value, or "all" for none
      (and for the empty text, which `||` treats as missing). */
  function Shown(restriction: Option<string>): (v: string)
    ensures restriction.None? ==> v == AllOption
    ensures restriction.Some? && restriction.value != "" ==> v == restriction.value
  {
    if restriction.Some? && restriction.value != "" then restriction.value else AllOption
  }

  /** A menu shows back whatever non-empty option was chosen in it, and the
      other menu's display does not move. */
  lemma MenusShowTheirChoice(f: Filters, choice: string)
    requires choice != ""
    ensures Shown(SelectClassFilter(f, choice).className) == choice
    ensures Shown(SelectFeeFilter(f, choice).feeStatus) == choice
    ensures Shown(SelectClassFilter(f, choice).feeStatus) == Shown(f.feeStatus)
    ensures Shown(SelectFeeFilter(f, choice).className) == Shown(f.className)
  {
  }

  /** A restriction that is set and non-empty applies; an empty one is
      ignored like a missing one. */
  predicate Restricts(restriction: Option<string>) {
    restriction.Some? && restriction.value != ""
  }

  /** The record passes the filters. */
  predicate Matches(st: Student, f: Filters) {
    && (Restricts(f.className) ==> st.className == f.className.value)
    && (Restricts(f.feeStatus) ==> FeeStatusText(st.feeStatus) == f.feeStatus.value)
  }

  /** The list query: the records passing the filters, in the order the
      store returns them. */
  function FilterStudents(all: seq<Student>, f: Filters): (r: seq<Student>)
    ensures |r| <= |all|
    ensures forall x :: x in r ==> x in all && Matches(x, f)
    ensures forall x :: x in all && Matches(x, f) ==> x in r
    decreases |all|
  {
    if |all| == 0 then []
    else
      var rest := FilterStudents(all[1..], f);
      if Matches(all[0], f) then [all[0]] + rest else rest
  }

  /** Without filters the whole list comes back. */
  lemma {:induction false} NoFiltersKeepAll(all: seq<Student>)
    ensures FilterStudents(all, NoFilters) == all
    decreases |all|
  {
    if |all| > 0 {
      NoFiltersKeepAll(all[1..]);
    }
  }

  /** A single record is kept exactly when it matches. */
  lemma FilterSingleton(x: Student, f: Filters)
    ensures FilterStudents([x], f) == if Matches(x, f) then [x] else []
  {
    assert [x][1..] == [];
  }

  /** Filtering two lists laid end to end filters each in turn: the kept
      records stay in the store's order, each as often as it occurs. */
  lemma {:induction false} FilterAppend(a: seq<Student>, b: seq<Student>, f: Filters)
    ensures FilterStudents(a + b, f) == FilterStudents(a, f) + FilterStudents(b, f)
    decreases |a|
  {
    if |a| == 0 {
      assert a + b == b;
    } else {
      assert (a + b)[0] == a[0];
      assert (a + b)[1..] == a[1..] + b;
      FilterAppend(a[1..], b, f);
    }
  }

  /** The page's own state besides the list. */
  datatype PageState = PageState(
    filters: Filters,
    isFormOpen: bool,
    editing: Option<Student>,
    deleting: Option<Student>)

  /** A write to the record store. */
  datatype Request = Insert(data: StudentFormData) | UpdateRecord(id: string, data: StudentFormData) | Remove(id: string)

  /** A handler's result: the next state, the write it issued (if any) and
      the toast it showed (if any). */
  datatype HandlerStep = HandlerStep(next: PageState, request: Option<Request>, toast: Option<Toast>)

  /** The toast shown for a settled write: a success message, or the error's
      own message with `fallback` when the thrown value is no `Error`. */
  function WriteToast(result: RemoteOutcome, success: string, fallback: string): (t: Toast)
    ensures result.Succeeded? ==> t == Toast("Success", success, false)
    ensures result.Failed? ==> t == Toast("Error", FailureMessage(result.thrown, fallback), true)
  {
    match result
    case Succeeded => Toast("Success", success, false)
    case Failed(thrown) => Toast("Error", FailureMessage(thrown, fallback), true)
  }

  /** `handleCreate`: insert the form data; close the dialog only on
      success. */
  function HandleCreate(p: PageState, data: StudentFormData, result: RemoteOutcome): (h: HandlerStep)
    ensures h.request == Some(Insert(data))
    ensures h.next == (if result.Succeeded? then p.(isFormOpen := false) else p)
    ensures h.toast == Some(WriteToast(result, "Student added successfully", "Failed to add student"))
  {
    var t := WriteToast(result, "Student added successfully", "Failed to add student");
    if result.Succeeded? then HandlerStep(p.(isFormOpen := false), Some(Insert(data)), Some(t))
    else HandlerStep(p, Some(Insert(data)), Some(t))
  }

  /** `handleUpdate`: nothing without a record being edited; otherwise
      write the form data to that record's id and end the edit only on
      success. */
  function HandleUpdate(p: PageState, data: StudentFormData, result: RemoteOutcome): (h: HandlerStep)
    ensures p.editing.None? ==> h == HandlerStep(p, None, None)
    ensures p.editing.Some? ==> h.request == Some(UpdateRecord(p.editing.value.id, data))
    ensures p.editing.Some? ==> h.next == (if result.Succeeded? then p.(editing := None) else p)
    ensures p.editing.Some? ==> h.toast == Some(WriteToast(result, "Student updated successfully", "Failed to update student"))
  {
    if p.editing.None? then HandlerStep(p, None, None)
    else
      var t := WriteToast(result, "Student updated successfully", "Failed to update student");
      var r := Some(UpdateRecord(p.editing.value.id, data));
      if result.Succeeded? then HandlerStep(p.(editing := None), r, Some(t)) else HandlerStep(p, r, Some(t))
  }

  /** `handleDelete`: nothing without a record chosen for deletion;
      otherwise delete it by id and drop the choice only on success. */
  function HandleDelete(p: PageState, result: RemoteOutcome): (h: HandlerStep)
    ensures p.deleting.None? ==> h == HandlerStep(p, None, None)
    ensures p.deleting.Some? ==> h.request == Some(Remove(p.deleting.value.id))
    ensures p.deleting.Some? ==> h.next == (if result.Succeeded? then p.(deleting := None) else p)
    ensures p.deleting.Some? ==> h.toast == Some(WriteToast(result, "Student deleted successfully", "Failed to delete student"))
  {
    if p.deleting.None? then HandlerStep(p, None, None)
    else
      var t := WriteToast(result, "Student deleted successfully", "Failed to delete student");
      var r := Some(Remove(p.deleting.value.id));
      if result.Succeeded? then HandlerStep(p.(deleting := None), r, Some(t)) else HandlerStep(p, r, Some(t))
  }

  /** None of the handlers touches the filters, and each leaves the other
      dialogs as they were. */
  lemma HandlersKeepFilters(p: PageState, data: StudentFormData, result: RemoteOutcome)
    ensures HandleCreate(p, data, result).next.filters == p.filters
    ensures HandleUpdate(p, data, result).next.filters == p.filters
    ensures HandleDelete(p, result).next.filters == p.filters
    ensures HandleCreate(p, data, result).next.(isFormOpen := p.isFormOpen) == p
    ensures HandleUpdate(p, data, result).next.(editing := p.editing) == p
    ensures HandleDelete(p, result).next.(deleting := p.deleting) == p
  {
  }

  /** An edit that passes the form's checks and is saved to the record under
      edit never changes that record's submission state, Aadhar number or
      file links: the form has no such fields. */
  lemma EditKeepsSubmission(p: PageState, data: StudentFormData, result: RemoteOutcome)
    requires p.editing.Some?
    requires forall f :: FieldAccepted(data, f)
    ensures HandleUpdate(p, data, result).request.value.id == p.editing.value.id
    ensures EnumsValid(data)
    ensures
      var saved := ApplyForm(p.editing.value, data);
      && saved.isSubmitted == p.editing.value.isSubmitted
      && saved.aadharNo == p.editing.value.aadharNo
      && saved.photographUrl == p.editing.value.photographUrl
      && saved.signatureUrl == p.editing.value.signatureUrl
  {
    AcceptedFormEnumsValid(data);
  }

  /** The fee badge reads "Paid" exactly for the text "paid" and "Pending"
      for anything else. */
  function FeeBadge(feeText: string): (badge: string)
    ensures badge == "Paid" <==> feeText == "paid"
    ensures badge == "Pending" <==> feeText != "paid"
  {
    if feeText == "paid" then "Paid" else "Pending"
  }

  /** On a stored record, the badge names the fee status. */
  lemma BadgeNamesFeeStatus(st: Student)
    ensures FeeBadge(FeeStatusText(st.feeStatus)) == "Paid" <==> st.feeStatus == Paid
    ensures FeeBadge(FeeStatusText(st.feeStatus)) == "Pending" <==> st.feeStatus == Pending
  {
  }
}
