/**
 The public pre-board page as a session record with one transition per user
 action or settled remote call: the class/roll-number search, the Aadhar
 check, the self-submission of the form and the panels the page shows.
 */
module PreboardSession {
  import opened Common
  import opened StudentTypes

  const AadharLength := 12
  const AadharLengthMessage := "Aadhar number must be 12 digits"
  const AadharDigitsMessage := "Aadhar must contain only numbers"
  const SearchMessage := "Please select class and enter roll number"
  const UploadMessage := "Please upload photograph and signature"
  const SubmittedMessage := "Form submitted successfully!"
  const SubmitFailedMessage := "Failed to submit form"

  /** The whole of `s` is a non-empty run of decimal digits (the regular
      expression `^\d+$`). */
  function DigitsOnly(s: string): (b: bool)
    ensures b <==> |s| > 0 && forall i :: 0 <= i < |s| ==> IsDecimalDigit(s[i])
    decreases |s|
  {
    if |s| == 0 then false
    else if |s| == 1 then IsDecimalDigit(s[0])
    else IsDecimalDigit(s[0]) && DigitsOnly(s[1..])
  }

  /** The Aadhar rule: exactly 12 characters, all decimal digits, with no
      checksum. The first failing check supplies the message: the length
      check, which counts UTF-16 code units, comes first. */
  function AadharError(aadhar: string): (err: Option<string>)
    ensures err.None? <==> |aadhar| == AadharLength && forall i :: 0 <= i < |aadhar| ==> IsDecimalDigit(aadhar[i])
    ensures Utf16Length(aadhar) != AadharLength ==> err == Some(AadharLengthMessage)
    ensures Utf16Length(aadhar) == AadharLength && (exists i :: 0 <= i < |aadhar| && !IsDecimalDigit(aadhar[i])) ==>
      err == Some(AadharDigitsMessage)
  {
    Utf16LengthOfBmp(aadhar);
    if Utf16Length(aadhar) != AadharLength then Some(AadharLengthMessage)
    else if !DigitsOnly(aadhar) then Some(AadharDigitsMessage)
    else None
  }

  /** Twelve digits pass. */
  lemma AadharAcceptsTwelveDigits()
    ensures AadharError("123456789012") == None
  {
    var a := "123456789012";
    assert forall i :: 0 <= i < |a| ==> IsDecimalDigit(a[i]);
  }

  /** Too short: the length message, also for the empty string. */
  lemma AadharRejectsShort()
    ensures AadharError("12345") == Some(AadharLengthMessage)
    ensures AadharError("") == Some(AadharLengthMessage)
  {
  }

  /** Twelve characters with a letter: the digits message. */
  lemma AadharRejectsLetter()
    ensures AadharError("12345678901a") == Some(AadharDigitsMessage)
  {
    var a := "12345678901a";
    assert !IsDecimalDigit(a[11]);
    assert forall i :: 0 <= i < |a| ==> a[i] <= '\U{FFFF}';
    Utf16LengthOfBmp(a);
  }

  /** The page's state. `photograph` and `signature` say whether a file is
      chosen. `student` and `loading` are what the student lookup currently
      reports. `updating` is the id the in-flight update was issued for,
      `confirmed` the ids whose update this session saw succeed, and
      `filesFor` the id of the student shown when a file was last chosen;
      these three are bookkeeping of the model, not fields of the page. */
  datatype Session = Session(
    selectedClass: string,
    rollNo: string,
    searchTriggered: bool,
    aadharNo: string,
    photograph: bool,
    signature: bool,
    isSubmitting: bool,
    formSubmitted: bool,
    student: Option<Student>,
    loading: bool,
    updating: Option<string>,
    confirmed: set<string>,
    filesFor: Option<string>)

  const Initial := Session("", "", false, "", false, false, false, false, None, false, None, {}, None)

  /** The exact fields the self-submission writes. */
  datatype SubmissionPatch = SubmissionPatch(aadharNo: string, isSubmitted: bool)

  /** What a transition asks of the outside world. */
  datatype Effect =
    | Quiet
    | Notify(toast: Toast)
    | SendUpdate(studentId: string, patch: SubmissionPatch)
    | DownloadCard(card: Student, withPhotograph: bool, withSignature: bool)

  datatype Outcome = Outcome(next: Session, effect: Effect)

  function ErrorToast(description: string): Toast {
    Toast("Error", description, true)
  }

  /** The keys the lookup runs with: the typed class and roll number once a
      search has been made, empty before. */
  function LookupKeys(s: Session): (string, string) {
    if s.searchTriggered then (s.selectedClass, s.rollNo) else ("", "")
  }

  /** The lookup only runs when both keys are non-empty. */
  predicate LookupEnabled(s: Session) {
    LookupKeys(s).0 != "" && LookupKeys(s).1 != ""
  }

  /** A change of lookup keys starts a fresh lookup: the old answer is gone
      and the page waits only if the new keys enable the query. */
  function Relookup(s: Session, t: Session): (r: Session)
    ensures LookupKeys(r) == LookupKeys(t)
    ensures LookupKeys(t) != LookupKeys(s) ==> r.student.None? && (r.loading <==> LookupEnabled(t))
    ensures LookupKeys(t) == LookupKeys(s) ==> r == t
  {
    if LookupKeys(t) == LookupKeys(s) then t
    else t.(student := None, loading := LookupEnabled(t))
  }

  function ChooseClass(s: Session, c: string): Session {
    Relookup(s, s.(selectedClass := c))
  }

  function TypeRollNo(s: Session, r: string): Session {
    Relookup(s, s.(rollNo := r))
  }

  /** `handleSearch`: with an empty class or roll number, an error toast and
      no change; otherwise the search is on and the success flag is reset,
      while the Aadhar number and the chosen files are kept. */
  function Search(s: Session): (o: Outcome)
    ensures s.selectedClass == "" || s.rollNo == "" ==> o == Outcome(s, Notify(ErrorToast(SearchMessage)))
    ensures s.selectedClass != "" && s.rollNo != "" ==>
      && o.effect == Quiet
      && o.next.searchTriggered && !o.next.formSubmitted
      && o.next.aadharNo == s.aadharNo && o.next.photograph == s.photograph && o.next.signature == s.signature
      && o.next.selectedClass == s.selectedClass && o.next.rollNo == s.rollNo
      && LookupEnabled(o.next)
  {
    if s.selectedClass == "" || s.rollNo == "" then Outcome(s, Notify(ErrorToast(SearchMessage)))
    else Outcome(Relookup(s, s.(searchTriggered := true, formSubmitted := false)), Quiet)
  }

  /** The lookup answers for the current keys. */
  function LookupSettled(s: Session, found: Option<Student>): (t: Session)
    requires LookupEnabled(s)
    ensures t.student == found && !t.loading
    ensures t.(student := s.student, loading := s.loading) == s
  {
    s.(student := found, loading := false)
  }

  /** The Aadhar input keeps at most 12 characters. */
  function TypeAadhar(s: Session, text: string): (t: Session)
    ensures |t.aadharNo| == Min(|text|, AadharLength)
    ensures t.aadharNo == text[..|t.aadharNo|]
    ensures t.(aadharNo := s.aadharNo) == s
  {
    s.(aadharNo := text[..Min(|text|, AadharLength)])
  }

  /** `handleSubmit` up to the remote call: nothing without a student, then
      the Aadhar message, then the missing-files message, and otherwise an
      update of exactly the Aadhar number and the submission flag. */
  function BeginSubmit(s: Session): (o: Outcome)
    ensures o.effect.SendUpdate? <==>
      s.student.Some? && AadharError(s.aadharNo).None? && s.photograph && s.signature
    ensures o.effect.SendUpdate? ==>
      && o.effect == SendUpdate(s.student.value.id, SubmissionPatch(s.aadharNo, true))
      && o.next == s.(isSubmitting := true, updating := Some(s.student.value.id))
    ensures s.student.None? ==> o == Outcome(s, Quiet)
    ensures s.student.Some? && AadharError(s.aadharNo).Some? ==>
      o == Outcome(s, Notify(ErrorToast(AadharError(s.aadharNo).value)))
    ensures s.student.Some? && AadharError(s.aadharNo).None? && !(s.photograph && s.signature) ==>
      o == Outcome(s, Notify(ErrorToast(UploadMessage)))
  {
    if s.student.None? then Outcome(s, Quiet)
    else if AadharError(s.aadharNo).Some? then Outcome(s, Notify(ErrorToast(AadharError(s.aadharNo).value)))
    else if !s.photograph || !s.signature then Outcome(s, Notify(ErrorToast(UploadMessage)))
    else
      var id := s.student.value.id;
      Outcome(s.(isSubmitting := true, updating := Some(id)), SendUpdate(id, SubmissionPatch(s.aadharNo, true)))
  }

  /** `handleSubmit` after the remote call. Success sets the success flag
      whatever the page shows by then; either way the busy flag drops. The
      cached lookup answer is not refreshed: the update only invalidates
      the student list. */
  function FinishSubmit(s: Session, result: RemoteOutcome): (o: Outcome)
    ensures !o.next.isSubmitting && o.next.updating.None?
    ensures o.next.formSubmitted <==> result.Succeeded? || s.formSubmitted
    ensures o.next.student == s.student && o.next.aadharNo == s.aadharNo
    ensures result.Succeeded? ==> o.effect == Notify(Toast("Success", SubmittedMessage, false))
    ensures result.Failed? ==> o.effect == Notify(ErrorToast(SubmitFailedMessage))
  {
    var done := s.(isSubmitting := false, updating := None);
    match result
    case Succeeded =>
      var confirmed := if s.updating.Some? then s.confirmed + {s.updating.value} else s.confirmed;
      Outcome(done.(formSubmitted := true, confirmed := confirmed), Notify(Toast("Success", SubmittedMessage, false)))
    case Failed(_) => Outcome(done, Notify(ErrorToast(SubmitFailedMessage)))
  }

  /** The pending-fee notice, on the stored fee text. */
  predicate PendingNoticeFor(feeText: string) {
    Lower(feeText) == "pending"
  }

  /** The upload form, on the stored fee text and the two submission flags. */
  predicate UploadFormFor(feeText: string, isSubmitted: bool, formSubmitted: bool) {
    feeText == "paid" && !isSubmitted && !formSubmitted
  }

  /** Whatever the fee text says, the notice and the form are never shown
      together. */
  lemma NoticeExcludesForm(feeText: string, isSubmitted: bool, formSubmitted: bool)
    ensures !(PendingNoticeFor(feeText) && UploadFormFor(feeText, isSubmitted, formSubmitted))
  {
    if feeText == "paid" {
      LowerFixesLowercase(feeText);
    }
  }

  predicate ShowsSpinner(s: Session) {
    s.searchTriggered && s.loading
  }

  predicate ShowsNotFound(s: Session) {
    s.searchTriggered && !s.loading && s.student.None?
  }

  predicate ShowsAlreadySubmitted(s: Session) {
    s.searchTriggered && !s.loading && s.student.Some? && s.student.value.isSubmitted
  }

  predicate ShowsStudentPanel(s: Session) {
    s.student.Some?
  }

  predicate ShowsPendingNotice(s: Session) {
    s.student.Some? && PendingNoticeFor(FeeStatusText(s.student.value.feeStatus))
  }

  predicate ShowsUploadForm(s: Session) {
    s.student.Some? && UploadFormFor(FeeStatusText(s.student.value.feeStatus), s.student.value.isSubmitted, s.formSubmitted)
  }

  predicate ShowsSubmittedPanel(s: Session) {
    s.formSubmitted
  }

  /** On a loaded student, exactly one of the notice and the form's fee
      condition holds; the form also needs the record unsubmitted and no
      success in this session. */
  lemma PanelsForStudent(s: Session)
    requires s.student.Some?
    ensures ShowsPendingNotice(s) <==> s.student.value.feeStatus == Pending
    ensures ShowsUploadForm(s) <==>
      s.student.value.feeStatus == Paid && !s.student.value.isSubmitted && !s.formSubmitted
    ensures !(ShowsPendingNotice(s) && ShowsUploadForm(s))
  {
    LowerFixesLowercase("pending");
    LowerFixesLowercase("paid");
    NoticeExcludesForm(FeeStatusText(s.student.value.feeStatus), s.student.value.isSubmitted, s.formSubmitted);
  }

  /** The user actions the page offers and the remote answers it awaits. */
  datatype Event =
    | PickClass(c: string)
    | EnterRollNo(r: string)
    | ClickSearch
    | LookupReturns(found: Option<Student>)
    | EnterAadhar(text: string)
    | PickPhotograph(present: bool)
    | PickSignature(present: bool)
    | ClickSubmit
    | UpdateReturns(result: RemoteOutcome)
    | ClickDownload

  /** `generateAdmitCard`'s guard: nothing without a loaded student. */
  function Download(s: Session): Effect {
    if s.student.Some? then DownloadCard(s.student.value, s.photograph, s.signature) else Quiet
  }

  /** One event as the page handles it. An event the page cannot produce in
      `s` (a disabled button, a control that is not rendered, an answer no
      one awaits or for other keys) changes nothing. */
  function StepAsWritten(s: Session, e: Event): Outcome {
    match e
    case PickClass(c) => Outcome(ChooseClass(s, c), Quiet)
    case EnterRollNo(r) => Outcome(TypeRollNo(s, r), Quiet)
    case ClickSearch => if s.loading then Outcome(s, Quiet) else Search(s)
    case LookupReturns(found) =>
      if s.loading && LookupEnabled(s) && AnswersKeys(s, found) then Outcome(LookupSettled(s, found), Quiet)
      else Outcome(s, Quiet)
    case EnterAadhar(text) => if ShowsUploadForm(s) then Outcome(TypeAadhar(s, text), Quiet) else Outcome(s, Quiet)
    case PickPhotograph(p) =>
      if ShowsUploadForm(s) then Outcome(s.(photograph := p, filesFor := Some(s.student.value.id)), Quiet)
      else Outcome(s, Quiet)
    case PickSignature(p) =>
      if ShowsUploadForm(s) then Outcome(s.(signature := p, filesFor := Some(s.student.value.id)), Quiet)
      else Outcome(s, Quiet)
    case ClickSubmit => if ShowsUploadForm(s) && !s.isSubmitting then BeginSubmit(s) else Outcome(s, Quiet)
    case UpdateReturns(result) => if s.isSubmitting then FinishSubmit(s, result) else Outcome(s, Quiet)
    case ClickDownload =>
      if ShowsAlreadySubmitted(s) || ShowsSubmittedPanel(s) then Outcome(s, Download(s)) else Outcome(s, Quiet)
  }

  /** The lookup returns no record or the record with exactly those keys. */
  predicate AnswersKeys(s: Session, found: Option<Student>) {
    found.Some? ==> found.value.className == LookupKeys(s).0 && found.value.rollNo == LookupKeys(s).1
  }

  /** A looked-up record as the store holds it once this session has seen
      its update succeed: the update set `is_submitted`, and no later write
      of the store clears it. */
  function Refreshed(found: Option<Student>, confirmed: set<string>): (r: Option<Student>)
    ensures r.None? <==> found.None?
    ensures r.Some? ==> r.value.(isSubmitted := found.value.isSubmitted) == found.value
    ensures r.Some? ==> (r.value.isSubmitted <==> found.value.isSubmitted || found.value.id in confirmed)
  {
    if found.Some? && found.value.id in confirmed then Some(found.value.(isSubmitted := true)) else found
  }

  /** The session with the record it shows read afresh from the store. */
  function ShowStored(t: Session): (r: Session)
    ensures r.student == Refreshed(t.student, t.confirmed)
    ensures r.(student := t.student) == t
  {
    t.(student := Refreshed(t.student, t.confirmed))
  }

  /** What the corrected page clears with a change of lookup keys: the
      success flag, the typed Aadhar number and the chosen files. */
  function ForgetStudent(t: Session): (r: Session)
    ensures !r.formSubmitted && r.aadharNo == "" && !r.photograph && !r.signature && r.filesFor.None?
    ensures r.(formSubmitted := t.formSubmitted, aadharNo := t.aadharNo, photograph := t.photograph,
               signature := t.signature, filesFor := t.filesFor) == t
  {
    t.(formSubmitted := false, aadharNo := "", photograph := false, signature := false, filesFor := None)
  }

  /** An update success that settles for a record the page no longer shows. */
  predicate StaleSuccess(s: Session, e: Event) {
    e == UpdateReturns(Succeeded) && s.isSubmitting && (s.student.None? || Some(s.student.value.id) != s.updating)
  }

  /** The page with the success panel and the upload form tied to the
      student they were earned for: a change of lookup keys clears the
      success flag, the Aadhar number and the files, and an update that
      settles after the page has moved on to another student does not
      raise the success flag. A successful update also invalidates the
      cached lookup, so the record shown, and every later lookup answer,
      reads the store afresh. Every other step is the page as written. */
  function Step(s: Session, e: Event): (o: Outcome)
    ensures (e.PickClass? || e.EnterRollNo?) && LookupKeys(StepAsWritten(s, e).next) != LookupKeys(s) ==>
      o == Outcome(ForgetStudent(StepAsWritten(s, e).next), Quiet)
    ensures e.LookupReturns? ==> o == Outcome(ShowStored(StepAsWritten(s, e).next), Quiet)
    ensures StaleSuccess(s, e) ==>
      && o.effect == StepAsWritten(s, e).effect
      && o.next.formSubmitted == s.formSubmitted
      && o.next == ShowStored(StepAsWritten(s, e).next.(formSubmitted := s.formSubmitted))
    ensures e == UpdateReturns(Succeeded) && !StaleSuccess(s, e) ==>
      o == Outcome(ShowStored(StepAsWritten(s, e).next), StepAsWritten(s, e).effect)
    ensures (&& !((e.PickClass? || e.EnterRollNo?) && LookupKeys(StepAsWritten(s, e).next) != LookupKeys(s))
             && !e.LookupReturns? && e != UpdateReturns(Succeeded)) ==>
      o == StepAsWritten(s, e)
  {
    var o := StepAsWritten(s, e);
    match e
    case PickClass(_) =>
      if LookupKeys(o.next) != LookupKeys(s) then Outcome(ForgetStudent(o.next), o.effect) else o
    case EnterRollNo(_) =>
      if LookupKeys(o.next) != LookupKeys(s) then Outcome(ForgetStudent(o.next), o.effect) else o
    case LookupReturns(_) => Outcome(ShowStored(o.next), o.effect)
    case UpdateReturns(Succeeded) =>
      var t := if StaleSuccess(s, e) then o.next.(formSubmitted := s.formSubmitted) else o.next;
      Outcome(ShowStored(t), o.effect)
    case _ => o
  }

  /** The facts about the lookup and the submission that both pages keep:
      nothing happens before the first search, a loaded record has the
      typed keys, a lookup waits only when enabled and with no record, and
      an update is in flight exactly while the page says it is submitting. */
  predicate CoreInv(s: Session) {
    && (!s.searchTriggered ==> s.student.None? && !s.loading && !s.isSubmitting && !s.formSubmitted)
    && (s.student.Some? ==> s.student.value.className == s.selectedClass && s.student.value.rollNo == s.rollNo)
    && (s.loading ==> LookupEnabled(s) && s.student.None?)
    && (s.isSubmitting <==> s.updating.Some?)
  }

  /** The facts every session the corrected page reaches keeps on top: no
      success panel while a lookup waits, success shown for a record means
      its update succeeded, a record whose update succeeded reads
      submitted, and chosen files were chosen for the record shown. */
  predicate Inv(s: Session) {
    && CoreInv(s)
    && (s.loading ==> !s.formSubmitted)
    && (s.formSubmitted && s.student.Some? ==> s.student.value.id in s.confirmed)
    && (s.student.Some? && s.student.value.id in s.confirmed ==> s.student.value.isSubmitted)
    && (s.photograph || s.signature ==> s.student.Some? && !s.loading && s.filesFor == Some(s.student.value.id))
  }

  lemma InitialInv()
    ensures Inv(Initial)
    ensures !ShowsSpinner(Initial) && !ShowsNotFound(Initial) && !ShowsStudentPanel(Initial) && !ShowsSubmittedPanel(Initial)
  {
  }

  /** Editing a lookup key keeps the invariant. */
  lemma KeyEditKeepsInv(s: Session, e: Event)
    requires Inv(s) && (e.PickClass? || e.EnterRollNo?)
    ensures Inv(Step(s, e).next)
  {
    var w := StepAsWritten(s, e).next;
    assert w.student == s.student || w.student.None?;
    if LookupKeys(w) != LookupKeys(s) {
      assert Step(s, e).next == ForgetStudent(w);
    } else {
      assert Step(s, e).next == w;
    }
  }

  /** A search keeps the invariant. */
  lemma SearchKeepsInv(s: Session)
    requires Inv(s)
    ensures Inv(Step(s, ClickSearch).next)
  {
  }

  /** A lookup answer keeps the invariant. */
  lemma LookupKeepsInv(s: Session, found: Option<Student>)
    requires Inv(s)
    ensures Inv(Step(s, LookupReturns(found)).next)
  {
  }

  /** Filling in the upload form keeps the invariant. */
  lemma FormEditKeepsInv(s: Session, e: Event)
    requires Inv(s) && (e.EnterAadhar? || e.PickPhotograph? || e.PickSignature?)
    ensures Inv(Step(s, e).next)
  {
  }

  /** Submitting keeps the invariant. */
  lemma SubmitKeepsInv(s: Session)
    requires Inv(s)
    ensures Inv(Step(s, ClickSubmit).next)
  {
    if ShowsUploadForm(s) && !s.isSubmitting {
      var o := BeginSubmit(s);
      assert o.next == s || o.next == s.(isSubmitting := true, updating := Some(s.student.value.id));
    }
  }

  /** The update's answer keeps the invariant. */
  lemma FinishKeepsInv(s: Session, result: RemoteOutcome)
    requires Inv(s)
    ensures Inv(Step(s, UpdateReturns(result)).next)
  {
    if s.isSubmitting {
      var o := FinishSubmit(s, result);
      if result.Succeeded? && !StaleSuccess(s, UpdateReturns(result)) {
        assert o.next == s.(isSubmitting := false, updating := None, formSubmitted := true,
                             confirmed := s.confirmed + {s.updating.value});
      } else if result.Failed? {
        assert o.next == s.(isSubmitting := false, updating := None);
      }
    }
  }

  /** Every event keeps the invariant. */
  lemma {:induction false} StepKeepsInv(s: Session, e: Event)
    requires Inv(s)
    ensures Inv(Step(s, e).next)
  {
    match e
    case PickClass(_) => KeyEditKeepsInv(s, e);
    case EnterRollNo(_) => KeyEditKeepsInv(s, e);
    case ClickSearch => SearchKeepsInv(s);
    case LookupReturns(found) => LookupKeepsInv(s, found);
    case EnterAadhar(_) => FormEditKeepsInv(s, e);
    case PickPhotograph(_) => FormEditKeepsInv(s, e);
    case PickSignature(_) => FormEditKeepsInv(s, e);
    case ClickSubmit => SubmitKeepsInv(s);
    case UpdateReturns(result) => FinishKeepsInv(s, result);
    case ClickDownload =>
  }

  /** Editing a lookup key on the page as written keeps the core
      invariant. */
  lemma AsWrittenKeyEditKeepsCoreInv(s: Session, e: Event)
    requires CoreInv(s) && (e.PickClass? || e.EnterRollNo?)
    ensures CoreInv(StepAsWritten(s, e).next)
  {
  }

  /** A search or a lookup answer on the page as written keeps the core
      invariant. */
  lemma AsWrittenLookupKeepsCoreInv(s: Session, e: Event)
    requires CoreInv(s) && (e.ClickSearch? || e.LookupReturns?)
    ensures CoreInv(StepAsWritten(s, e).next)
  {
  }

  /** The form's inputs, the submit click and the update's answer on the
      page as written keep the core invariant. */
  lemma AsWrittenFormKeepsCoreInv(s: Session, e: Event)
    requires CoreInv(s) && (e.EnterAadhar? || e.PickPhotograph? || e.PickSignature? || e.ClickSubmit? || e.UpdateReturns?)
    ensures CoreInv(StepAsWritten(s, e).next)
  {
    if e.ClickSubmit? && ShowsUploadForm(s) && !s.isSubmitting {
      var o := BeginSubmit(s);
      assert o.next == s || o.next == s.(isSubmitting := true, updating := Some(s.student.value.id));
    }
  }

  /** The page as written keeps the core invariant on every event. */
  lemma {:induction false} AsWrittenKeepsCoreInv(s: Session, e: Event)
    requires CoreInv(s)
    ensures CoreInv(StepAsWritten(s, e).next)
  {
    match e
    case PickClass(_) => AsWrittenKeyEditKeepsCoreInv(s, e);
    case EnterRollNo(_) => AsWrittenKeyEditKeepsCoreInv(s, e);
    case ClickSearch => AsWrittenLookupKeepsCoreInv(s, e);
    case LookupReturns(_) => AsWrittenLookupKeepsCoreInv(s, e);
    case ClickDownload =>
    case _ => AsWrittenFormKeepsCoreInv(s, e);
  }

  /** Every session the page as written reaches from one that keeps the
      core invariant keeps it too. */
  lemma {:induction false} AsWrittenRunKeepsCoreInv(s: Session, events: seq<Event>)
    requires CoreInv(s)
    ensures CoreInv(Run(s, events, true).next)
    decreases |events|
  {
    if |events| > 0 {
      AsWrittenKeepsCoreInv(s, events[0]);
      if |events| > 1 {
        AsWrittenRunKeepsCoreInv(StepAsWritten(s, events[0]).next, events[1..]);
      }
    }
  }

  /** An update is only ever sent for the loaded student whose fee is paid,
      whose record is unsubmitted, with a valid Aadhar number and both files
      chosen, and it writes exactly the Aadhar number and the flag. */
  lemma UpdateOnlyWhenEligible(s: Session, e: Event, asWritten: bool)
    requires (if asWritten then StepAsWritten(s, e) else Step(s, e)).effect.SendUpdate?
    ensures e == ClickSubmit && !s.isSubmitting
    ensures s.student.Some? && s.student.value.feeStatus == Paid && !s.student.value.isSubmitted && !s.formSubmitted
    ensures AadharError(s.aadharNo).None? && s.photograph && s.signature
    ensures (if asWritten then StepAsWritten(s, e) else Step(s, e)).effect ==
      SendUpdate(s.student.value.id, SubmissionPatch(s.aadharNo, true))
  {
    LowerFixesLowercase("paid");
  }

  /** An admit card is only ever produced for a student whose record says
      submitted or whose submission this session saw succeed, and a file on
      it was chosen while that student was shown. */
  lemma DownloadOnlyForSubmitted(s: Session, e: Event)
    requires Inv(s)
    requires Step(s, e).effect.DownloadCard?
    ensures Step(s, e).effect.card.isSubmitted || Step(s, e).effect.card.id in s.confirmed
    ensures Step(s, e).effect.withPhotograph || Step(s, e).effect.withSignature ==>
      s.filesFor == Some(Step(s, e).effect.card.id)
  {
  }

  /** The corrected page never sends a second update for a student whose
      submission this session has seen succeed. */
  lemma NoUpdateForConfirmed(s: Session, e: Event)
    requires Inv(s)
    requires Step(s, e).effect.SendUpdate?
    ensures Step(s, e).effect.studentId !in s.confirmed
  {
    UpdateOnlyWhenEligible(s, e, false);
  }

  /** A run of events from a session, through the page as written or
      through the corrected page; the outcome of the last event. */
  function Run(s: Session, events: seq<Event>, asWritten: bool): Outcome
    decreases |events|
  {
    if |events| == 0 then Outcome(s, Quiet)
    else
      var o := if asWritten then StepAsWritten(s, events[0]) else Step(s, events[0]);
      if |events| == 1 then o else Run(o.next, events[1..], asWritten)
  }

  /** Every session the corrected page reaches from one that keeps the
      invariant keeps it too. */
  lemma {:induction false} RunKeepsInv(s: Session, events: seq<Event>)
    requires Inv(s)
    ensures Inv(Run(s, events, false).next)
    decreases |events|
  {
    if |events| > 0 {
      StepKeepsInv(s, events[0]);
      if |events| > 1 {
        RunKeepsInv(Step(s, events[0]).next, events[1..]);
      }
    }
  }

  /** From the start, the corrected page never hands out an admit card for
      a student who has neither submitted nor been confirmed, and never puts
      on it a file chosen while another student was shown. */
  lemma ReachableDownloadIsSubmitted(events: seq<Event>, e: Event)
    requires Step(Run(Initial, events, false).next, e).effect.DownloadCard?
    ensures
      var card := Step(Run(Initial, events, false).next, e).effect.card;
      card.isSubmitted || card.id in Run(Initial, events, false).next.confirmed
    ensures
      var d := Step(Run(Initial, events, false).next, e).effect;
      d.withPhotograph || d.withSignature ==> Run(Initial, events, false).next.filesFor == Some(d.card.id)
  {
    InitialInv();
    RunKeepsInv(Initial, events);
    DownloadOnlyForSubmitted(Run(Initial, events, false).next, e);
  }

  /** From the start, the corrected page sends at most one successful
      update per student: no update goes out for a student whose earlier
      update has succeeded. */
  lemma ReachableUpdateIsFirst(events: seq<Event>, e: Event)
    requires Step(Run(Initial, events, false).next, e).effect.SendUpdate?
    ensures Step(Run(Initial, events, false).next, e).effect.studentId !in Run(Initial, events, false).next.confirmed
  {
    InitialInv();
    RunKeepsInv(Initial, events);
    NoUpdateForConfirmed(Run(Initial, events, false).next, e);
  }

  /** Student `a` searches, fills in the form and submits it. */
  function SubmitTrace(a: Student, aadhar: string): seq<Event> {
    [ PickClass(a.className), EnterRollNo(a.rollNo), ClickSearch, LookupReturns(Some(a)),
      EnterAadhar(aadhar), PickPhotograph(true), PickSignature(true), ClickSubmit,
      UpdateReturns(Succeeded) ]
  }

  /** Student `a` submits; then, with the search still active, the roll
      number of another student `b` is typed in and the download clicked. */
  function SwitchTrace(a: Student, b: Student, aadhar: string): seq<Event> {
    SubmitTrace(a, aadhar) + [EnterRollNo(b.rollNo), LookupReturns(Some(b)), ClickDownload]
  }

  /** Student `a` submits, then clicks Search again and Submit again. */
  function ResubmitTrace(a: Student, aadhar: string): seq<Event> {
    SubmitTrace(a, aadhar) + [ClickSearch, ClickSubmit]
  }

  lemma {:induction false} RunCons(s: Session, e: Event, rest: seq<Event>, asWritten: bool)
    requires |rest| > 0
    ensures Run(s, [e] + rest, asWritten) ==
      Run((if asWritten then StepAsWritten(s, e) else Step(s, e)).next, rest, asWritten)
  {
    assert ([e] + rest)[0] == e;
    assert ([e] + rest)[1..] == rest;
  }

  /** Event `e` takes `s` to `t` through both the page as written and the
      corrected page. */
  predicate Both(s: Session, e: Event, t: Session) {
    StepAsWritten(s, e).next == t && Step(s, e).next == t
  }

  /** A run whose first event takes `s` to `t` through both pages. */
  lemma RunBoth(s: Session, events: seq<Event>, t: Session, asWritten: bool)
    requires |events| > 1 && Both(s, events[0], t)
    ensures Run(s, events, asWritten) == Run(t, events[1..], asWritten)
  {
  }

  /** A run whose first event takes `s` to `t` through the chosen page. */
  lemma RunFirst(s: Session, events: seq<Event>, t: Session, asWritten: bool)
    requires |events| > 1 && (if asWritten then StepAsWritten(s, events[0]) else Step(s, events[0])).next == t
    ensures Run(s, events, asWritten) == Run(t, events[1..], asWritten)
  {
  }

  /** The session right after `a`'s submission succeeded; the corrected
      page shows `a`'s record as the store now holds it. */
  function AfterSubmit(a: Student, aadhar: string, asWritten: bool): Session {
    Initial.(selectedClass := a.className, rollNo := a.rollNo, searchTriggered := true,
             student := Some(if asWritten then a else a.(isSubmitted := true)),
             aadharNo := aadhar, photograph := true, signature := true,
             formSubmitted := true, confirmed := {a.id}, filesFor := Some(a.id))
  }

  /** The session once the search for `a` has been made. */
  function Searched(a: Student): Session {
    Initial.(selectedClass := a.className, rollNo := a.rollNo, searchTriggered := true, loading := true)
  }

  /** The session once `a` is loaded and the form is filled in. */
  function Filled(a: Student, aadhar: string): Session {
    Searched(a).(loading := false, student := Some(a), aadharNo := aadhar, photograph := true, signature := true,
                 filesFor := Some(a.id))
  }

  lemma SubmitTraceSearch(a: Student, aadhar: string, tail: seq<Event>, asWritten: bool)
    requires a.className != "" && a.rollNo != "" && |tail| > 0
    ensures Run(Initial, SubmitTrace(a, aadhar) + tail, asWritten) ==
      Run(Searched(a), (SubmitTrace(a, aadhar) + tail)[3..], asWritten)
  {
    var e := SubmitTrace(a, aadhar) + tail;
    var w1 := Initial.(selectedClass := a.className);
    var w2 := w1.(rollNo := a.rollNo);
    assert Both(Initial, e[0], w1) by { assert e[0] == PickClass(a.className); }
    RunBoth(Initial, e, w1, asWritten);
    assert Both(w1, e[1..][0], w2) by { assert e[1] == EnterRollNo(a.rollNo); }
    RunBoth(w1, e[1..], w2, asWritten);
    assert Both(w2, e[2..][0], Searched(a)) by { assert e[2] == ClickSearch; }
    RunBoth(w2, e[2..], Searched(a), asWritten);
    assert e[1..][1..] == e[2..] && e[2..][1..] == e[3..];
  }

  /** The session once `a`'s record has been looked up. */
  function Loaded(a: Student): Session {
    Searched(a).(student := Some(a), loading := false)
  }

  lemma SubmitTraceLookup(a: Student, aadhar: string, tail: seq<Event>, asWritten: bool)
    requires a.className != "" && a.rollNo != "" && |tail| > 0
    ensures Run(Searched(a), (SubmitTrace(a, aadhar) + tail)[3..], asWritten) ==
      Run(Loaded(a), (SubmitTrace(a, aadhar) + tail)[4..], asWritten)
  {
    var e := SubmitTrace(a, aadhar) + tail;
    assert e[3..][0] == LookupReturns(Some(a));
    LookupStep(Searched(a), Some(a));
    RunBoth(Searched(a), e[3..], Loaded(a), asWritten);
    assert e[3..][1..] == e[4..];
  }

  lemma SubmitTraceForm(a: Student, aadhar: string, tail: seq<Event>, asWritten: bool)
    requires a.feeStatus == Paid && !a.isSubmitted && a.className != "" && a.rollNo != "" && |tail| > 0
    requires AadharError(aadhar).None?
    ensures Run(Loaded(a), (SubmitTrace(a, aadhar) + tail)[4..], asWritten) ==
      Run(Filled(a, aadhar), (SubmitTrace(a, aadhar) + tail)[7..], asWritten)
  {
    LowerFixesLowercase("paid");
    var e := SubmitTrace(a, aadhar) + tail;
    var w4 := Loaded(a);
    var w5 := w4.(aadharNo := aadhar);
    var w6 := w5.(photograph := true, filesFor := Some(a.id));
    assert e[4] == EnterAadhar(aadhar) && e[5] == PickPhotograph(true) && e[6] == PickSignature(true);
    FormEditSteps(w4, aadhar, true);
    RunBoth(w4, e[4..], w5, asWritten);
    FormEditSteps(w5, aadhar, true);
    RunBoth(w5, e[5..], w6, asWritten);
    FormEditSteps(w6, aadhar, true);
    RunBoth(w6, e[6..], Filled(a, aadhar), asWritten);
    assert e[4..][1..] == e[5..] && e[5..][1..] == e[6..] && e[6..][1..] == e[7..];
  }

  lemma SubmitTraceFill(a: Student, aadhar: string, tail: seq<Event>, asWritten: bool)
    requires a.feeStatus == Paid && !a.isSubmitted && a.className != "" && a.rollNo != "" && |tail| > 0
    requires AadharError(aadhar).None?
    ensures Run(Searched(a), (SubmitTrace(a, aadhar) + tail)[3..], asWritten) ==
      Run(Filled(a, aadhar), (SubmitTrace(a, aadhar) + tail)[7..], asWritten)
  {
    SubmitTraceLookup(a, aadhar, tail, asWritten);
    SubmitTraceForm(a, aadhar, tail, asWritten);
  }

  /** The lookup answer for the current keys is taken in; no record this
      session has confirmed is among it. */
  lemma LookupStep(s: Session, found: Option<Student>)
    requires s.loading && LookupEnabled(s) && AnswersKeys(s, found)
    requires found.None? || found.value.id !in s.confirmed
    ensures Both(s, LookupReturns(found), LookupSettled(s, found))
  {
  }

  /** While the form is shown, its inputs set their fields. */
  lemma FormEditSteps(s: Session, text: string, p: bool)
    requires ShowsUploadForm(s)
    ensures Both(s, EnterAadhar(text), TypeAadhar(s, text))
    ensures Both(s, PickPhotograph(p), s.(photograph := p, filesFor := Some(s.student.value.id)))
    ensures Both(s, PickSignature(p), s.(signature := p, filesFor := Some(s.student.value.id)))
  {
  }

  /** A submit click on an eligible filled form sends the update. */
  lemma SubmitClickStep(s: Session)
    requires ShowsUploadForm(s) && !s.isSubmitting
    requires AadharError(s.aadharNo).None? && s.photograph && s.signature
    ensures Both(s, ClickSubmit, s.(isSubmitting := true, updating := Some(s.student.value.id)))
  {
  }

  /** The update for the loaded student succeeds; the corrected page reads
      the record afresh, now submitted. */
  lemma UpdateSuccessStep(s: Session)
    requires s.isSubmitting && s.student.Some? && s.updating == Some(s.student.value.id)
    ensures StepAsWritten(s, UpdateReturns(Succeeded)).next ==
      s.(isSubmitting := false, updating := None, formSubmitted := true, confirmed := s.confirmed + {s.student.value.id})
    ensures Step(s, UpdateReturns(Succeeded)).next ==
      s.(isSubmitting := false, updating := None, formSubmitted := true, confirmed := s.confirmed + {s.student.value.id},
         student := Some(s.student.value.(isSubmitted := true)))
  {
  }

  /** The session while `a`'s update is in flight. */
  function Submitting(a: Student, aadhar: string): Session {
    Filled(a, aadhar).(isSubmitting := true, updating := Some(a.id))
  }

  lemma SubmitTraceClick(a: Student, aadhar: string, tail: seq<Event>, asWritten: bool)
    requires a.feeStatus == Paid && !a.isSubmitted && a.className != "" && a.rollNo != "" && |tail| > 0
    requires AadharError(aadhar).None?
    ensures Run(Filled(a, aadhar), (SubmitTrace(a, aadhar) + tail)[7..], asWritten) ==
      Run(Submitting(a, aadhar), (SubmitTrace(a, aadhar) + tail)[8..], asWritten)
  {
    LowerFixesLowercase("paid");
    var e := SubmitTrace(a, aadhar) + tail;
    assert e[7..][0] == ClickSubmit;
    SubmitClickStep(Filled(a, aadhar));
    RunBoth(Filled(a, aadhar), e[7..], Submitting(a, aadhar), asWritten);
    assert e[7..][1..] == e[8..];
  }

  lemma SubmitTraceSuccess(a: Student, aadhar: string, tail: seq<Event>, asWritten: bool)
    requires |tail| > 0
    ensures Run(Submitting(a, aadhar), (SubmitTrace(a, aadhar) + tail)[8..], asWritten) ==
      Run(AfterSubmit(a, aadhar, asWritten), tail, asWritten)
  {
    var e := SubmitTrace(a, aadhar) + tail;
    var w8 := Submitting(a, aadhar);
    assert e[8..][0] == UpdateReturns(Succeeded);
    UpdateSuccessStep(w8);
    RunFirst(w8, e[8..], AfterSubmit(a, aadhar, asWritten), asWritten);
    assert e[8..][1..] == tail;
  }

  lemma SubmitTraceSubmit(a: Student, aadhar: string, tail: seq<Event>, asWritten: bool)
    requires a.feeStatus == Paid && !a.isSubmitted && a.className != "" && a.rollNo != "" && |tail| > 0
    requires AadharError(aadhar).None?
    ensures Run(Filled(a, aadhar), (SubmitTrace(a, aadhar) + tail)[7..], asWritten) ==
      Run(AfterSubmit(a, aadhar, asWritten), tail, asWritten)
  {
    SubmitTraceClick(a, aadhar, tail, asWritten);
    SubmitTraceSuccess(a, aadhar, tail, asWritten);
  }

  /** The nine events of the submission trace search for `a`, fill in the
      form and submit it successfully, the same way through both pages up
      to the corrected page's fresh read of `a`'s record. */
  lemma SubmitTracePrefix(a: Student, aadhar: string, tail: seq<Event>, asWritten: bool)
    requires a.feeStatus == Paid && !a.isSubmitted && a.className != "" && a.rollNo != "" && |tail| > 0
    requires AadharError(aadhar).None?
    ensures Run(Initial, SubmitTrace(a, aadhar) + tail, asWritten) ==
      Run(AfterSubmit(a, aadhar, asWritten), tail, asWritten)
  {
    SubmitTraceSearch(a, aadhar, tail, asWritten);
    SubmitTraceFill(a, aadhar, tail, asWritten);
    SubmitTraceSubmit(a, aadhar, tail, asWritten);
  }

  /** After a success, typing another student's roll number under an
      active search loads that student; the page as written keeps the
      success panel and its download button, and the files chosen before. */
  lemma SwitchTailAsWritten(s: Session, b: Student)
    requires s.searchTriggered && s.formSubmitted && !s.loading && !s.isSubmitting
    requires s.selectedClass != "" && b.className == s.selectedClass && b.rollNo != "" && b.rollNo != s.rollNo
    ensures Run(s, [EnterRollNo(b.rollNo), LookupReturns(Some(b)), ClickDownload], true) ==
      Outcome(s.(rollNo := b.rollNo, student := Some(b)), DownloadCard(b, s.photograph, s.signature))
  {
    var t1 := s.(rollNo := b.rollNo, student := None, loading := true);
    var t2 := t1.(student := Some(b), loading := false);
    assert StepAsWritten(s, EnterRollNo(b.rollNo)).next == t1;
    assert StepAsWritten(t1, LookupReturns(Some(b))).next == t2;
    RunCons(s, EnterRollNo(b.rollNo), [LookupReturns(Some(b)), ClickDownload], true);
    assert [EnterRollNo(b.rollNo)] + [LookupReturns(Some(b)), ClickDownload] == [EnterRollNo(b.rollNo), LookupReturns(Some(b)), ClickDownload];
    RunCons(t1, LookupReturns(Some(b)), [ClickDownload], true);
    assert [LookupReturns(Some(b))] + [ClickDownload] == [LookupReturns(Some(b)), ClickDownload];
  }

  /** The corrected page clears the success panel and the files with the
      key change: an unsubmitted student gets no download, and a student
      who submitted earlier gets a card without files. */
  lemma SwitchTailCorrected(s: Session, b: Student)
    requires s.searchTriggered && s.formSubmitted && !s.loading && !s.isSubmitting
    requires s.selectedClass != "" && b.className == s.selectedClass && b.rollNo != "" && b.rollNo != s.rollNo
    requires b.id !in s.confirmed
    ensures Run(s, [EnterRollNo(b.rollNo), LookupReturns(Some(b)), ClickDownload], false).effect ==
      if b.isSubmitted then DownloadCard(b, false, false) else Quiet
  {
    var t1 := ForgetStudent(s.(rollNo := b.rollNo, student := None, loading := true));
    var t2 := t1.(student := Some(b), loading := false);
    assert Step(s, EnterRollNo(b.rollNo)).next == t1;
    assert Step(t1, LookupReturns(Some(b))).next == t2;
    RunCons(s, EnterRollNo(b.rollNo), [LookupReturns(Some(b)), ClickDownload], false);
    assert [EnterRollNo(b.rollNo)] + [LookupReturns(Some(b)), ClickDownload] == [EnterRollNo(b.rollNo), LookupReturns(Some(b)), ClickDownload];
    RunCons(t1, LookupReturns(Some(b)), [ClickDownload], false);
    assert [LookupReturns(Some(b))] + [ClickDownload] == [LookupReturns(Some(b)), ClickDownload];
  }

  /** The trace through the page as written: student `b`'s admit card is
      produced, carrying the files chosen while `a` was shown, whether or
      not `b` has submitted, and although only `a`'s update succeeded; the
      session it ends in breaks the invariant. Through the corrected page
      the same trace produces nothing for an unsubmitted `b` and a card
      without files for a submitted one. */
  lemma SwitchTraceOutcomes(a: Student, b: Student, aadhar: string)
    requires a.feeStatus == Paid && !a.isSubmitted && a.className != "" && a.rollNo != ""
    requires b.className == a.className && b.rollNo != "" && b.rollNo != a.rollNo
    requires b.id != a.id
    requires AadharError(aadhar).None?
    ensures Run(Initial, SwitchTrace(a, b, aadhar), true).effect == DownloadCard(b, true, true)
    ensures Run(Initial, SwitchTrace(a, b, aadhar), true).next.filesFor == Some(a.id)
    ensures Run(Initial, SwitchTrace(a, b, aadhar), true).next.confirmed == {a.id}
    ensures !Inv(Run(Initial, SwitchTrace(a, b, aadhar), true).next)
    ensures Run(Initial, SwitchTrace(a, b, aadhar), false).effect ==
      if b.isSubmitted then DownloadCard(b, false, false) else Quiet
  {
    var tail := [EnterRollNo(b.rollNo), LookupReturns(Some(b)), ClickDownload];
    SubmitTracePrefix(a, aadhar, tail, true);
    SubmitTracePrefix(a, aadhar, tail, false);
    SwitchTailAsWritten(AfterSubmit(a, aadhar, true), b);
    SwitchTailCorrected(AfterSubmit(a, aadhar, false), b);
  }

  /** After a success, a second search for the same keys clears the
      success flag and keeps everything else, on both pages. */
  lemma SearchAgainStep(s: Session)
    requires !s.loading && s.searchTriggered && s.selectedClass != "" && s.rollNo != ""
    ensures Both(s, ClickSearch, s.(formSubmitted := false))
  {
  }

  /** The trace through the page as written: after `a`'s update has
      succeeded, searching again shows the upload form once more, because
      the cached record still reads unsubmitted, and a second click on
      Submit sends a second update for `a`. Through the corrected page the
      fresh record reads submitted, the form stays hidden and the click
      does nothing. */
  lemma ResubmitTraceOutcomes(a: Student, aadhar: string)
    requires a.feeStatus == Paid && !a.isSubmitted && a.className != "" && a.rollNo != ""
    requires AadharError(aadhar).None?
    ensures Run(Initial, ResubmitTrace(a, aadhar), true).effect == SendUpdate(a.id, SubmissionPatch(aadhar, true))
    ensures a.id in Run(Initial, ResubmitTrace(a, aadhar), true).next.confirmed
    ensures !Inv(Run(Initial, SubmitTrace(a, aadhar) + [ClickSearch], true).next)
    ensures Run(Initial, ResubmitTrace(a, aadhar), false).effect == Quiet
  {
    LowerFixesLowercase("paid");
    SubmitTracePrefix(a, aadhar, [ClickSearch, ClickSubmit], true);
    SubmitTracePrefix(a, aadhar, [ClickSearch, ClickSubmit], false);
    SubmitTracePrefix(a, aadhar, [ClickSearch], true);
    var w := AfterSubmit(a, aadhar, true);
    var c := AfterSubmit(a, aadhar, false);
    SearchAgainStep(w);
    SearchAgainStep(c);
    RunBoth(w, [ClickSearch, ClickSubmit], w.(formSubmitted := false), true);
    RunBoth(c, [ClickSearch, ClickSubmit], c.(formSubmitted := false), false);
    assert [ClickSearch, ClickSubmit][1..] == [ClickSubmit];
    SubmitClickStep(w.(formSubmitted := false));
  }
}
