# Sonia Public School portal — a Dafny model of its decision logic

The portal is a React application with two sides, both backed by a hosted
record store.

On the student side, the pre-board page works like this:
- A student picks a class and types a roll number. Once both are filled in, the page looks the record up.
- A student whose fee is paid enters a 12-digit Aadhar number and chooses a photograph and a signature.
- Submitting marks the record as submitted.
- The student can then download a one-page admit card. It holds the letterhead, the student's details, the photograph, the class's examination schedule and two signature lines.

On the administrator side:
- A student list with class and fee-status filters.
- A create/edit form validated by a schema.
- Create, update and delete handlers that report through toasts.
- A dashboard with four counters and the five most recent entries.
- The browser tab title is looked up per route.

This project models the parts of that code that decide what happens and what
gets drawn, as immutable datatypes and pure functions, and proves what they
promise.

| module | file | models |
|---|---|---|
| `Common` | common.dfy | option values, thrown values and toasts, ASCII lower-casing, JavaScript whitespace, UTF-16 string length |
| `StudentTypes` | student_types.dfy | the `Student` record, the form payload and the three enumerations (src/types/student.ts) |
| `ClassKey` | class_key.dfy | `normalizeClassKey`: lower-case, then collapse every `\s*-\s*` run to `-` |
| `AdmitCardData` | admit_card_data.dfy | the static schedule table (src/data/admitCardData.ts) |
| `AdmitCardLayout` | admit_card_layout.dfy | `generateAdmitCard` as a sequence of draw commands with integer coordinates |
| `PreboardSession` | preboard_session.dfy | the pre-board page: Aadhar rule, search, lookup, submission, panel guards and download, as a state machine |
| `StudentForm` | student_form.dfy | the administrator's form schema, its error map and the edit pre-fill |
| `StudentsPage` | students_page.dfy | the list filters, the filtered query, the three write handlers and the fee badge |
| `Dashboard` | dashboard.dfy | the four counters and the "recent" slice |
| `DocumentTitle` | document_title.dfy | the title lookup and the application's title table |

How the outside world enters the model:
- **Remote calls:** every call to the record store is an input to the transition it settles. That input is `RemoteOutcome` (success, or a thrown value) or the record the lookup returned.
- **Images:** an image file becomes an `Upload`, one of: nothing chosen, chosen but unreadable, readable, or readable but not decodable by the PDF library.
- **Crest:** whether the crest image loads is a boolean.
- **Page size and dates:** the page width and height are parameters, and so is the locale date formatter.

### Modelling decisions
- **Aadhar length:** the rule counts UTF-16 code units (the schema library's `length`), so the model counts them too (`Utf16Length`). For characters from the Basic Multilingual Plane this is the character count.
- **The lookup:** it is issued only while both lookup keys are non-empty. Its keys are the class and roll number once a search has been triggered, and empty before. A change to either input while the search is active starts a fresh lookup for the new keys.
- **A failed crest load:** the promise awaiting the crest has no error handler. A failed load therefore never yields a document (`GenerateAdmitCard` returns `None`).
- **Inherited schedule names:** the schedule lookup indexes a plain object. A class label whose key is `constructor` or `__proto__` reaches an inherited value with no subjects. Iterating over them throws, and again no document is saved. Every other inherited name has a capital letter, which the lower-casing key cannot produce.
- **A re-search:** `handleSearch` keeps the typed Aadhar number and the chosen files. It does not clear them.
- **The submission patch:** it writes exactly the Aadhar number and the submitted flag. The photograph and signature stay in the browser and are only drawn into the admit card. So a submitted record need not carry file links.
- **The cached lookup:** after a successful submission only the list queries are invalidated. The looked-up record therefore still reads `is_submitted = false`. The upload form stays hidden only while the page's own `formSubmitted` flag is set, and `handleSearch` clears that flag, which shows the form again (see "## Findings"). The corrected page also refreshes the lookup: after a success, the record shown and every later lookup answer read the store, where the submitted flag is set.

## Model

| member | source | states |
|---|---|---|
| `Common.Utf16Length` | src/pages/PreboardForm.tsx:17 | the length the Aadhar rule measures lies between the character count and twice it, and is zero only for the empty string |
| `Common.Utf16LengthOfBmp` | src/pages/PreboardForm.tsx:17 | the measured length equals the character count exactly when every character is in the Basic Multilingual Plane |
| `Common.LowerChar` | src/pages/PreboardForm.tsx:253 | lower-casing a character leaves no upper-case ASCII letter, moves an upper-case one to its lower-case partner, and keeps whitespace whitespace |
| `Common.Lower` | src/pages/PreboardForm.tsx:253 | lower-casing leaves no upper-case ASCII letter, returns a text without capitals unchanged, and keeps the length, lower-casing each character where it stands |
| `Common.LowerConcat` | src/pages/PreboardForm.tsx:253 | lower-casing two texts laid end to end is lower-casing each of them |
| `Common.FailureMessage` | src/pages/admin/Students.tsx:69-72 | a thrown `Error` reports its own message and any other thrown value the fallback text |
| `StudentTypes.ParseGender` | src/types/student.ts:10 | a gender text is recognised exactly when it is Male, Female or Other |
| `StudentTypes.ParseFeeStatus` | src/types/student.ts:12 | a fee-status text is recognised exactly when it is paid or pending |
| `StudentTypes.ParseStatus` | src/types/student.ts:16 | a status text is recognised exactly when it is active or inactive |
| `StudentTypes.GenderTextRoundTrip` | src/types/student.ts:10 | the stored gender text and the gender determine each other |
| `StudentTypes.FeeStatusTextRoundTrip` | src/types/student.ts:12 | the stored fee-status text and the fee status determine each other |
| `StudentTypes.StatusTextRoundTrip` | src/types/student.ts:16 | the stored status text and the status determine each other |
| `StudentTypes.FeeStatusIsPaidXorPending` | src/types/student.ts:12 | every stored fee status reads either "paid" or "pending", never both and never neither |
| `ClassKey.NormalizeClassKey` | src/pages/PreboardForm.tsx:252-254 | the key has no upper-case letter, no whitespace touches a hyphen, and it is no longer than the label |
| `ClassKey.ReplaceMakesTight` | src/pages/PreboardForm.tsx:253 | replacing the hyphen runs leaves no whitespace next to a hyphen |
| `ClassKey.ReplaceOnlyDropsBlanks` | src/pages/PreboardForm.tsx:253 | the replacement only removes whitespace: with all whitespace stripped, input and output agree |
| `ClassKey.ReplaceFixesTight` | src/pages/PreboardForm.tsx:253 | a string with no whitespace beside a hyphen is left unchanged |
| `ClassKey.FixedPointWhenCanonical` | src/pages/PreboardForm.tsx:252-254 | a lower-case label with tight hyphens is its own key |
| `ClassKey.NormalizeIdempotent` | src/pages/PreboardForm.tsx:252-254 | normalising a key again changes nothing |
| `ClassKey.NormalizeKeepsNonBlanks` | src/pages/PreboardForm.tsx:252-254 | once whitespace is stripped, the key is the stripped label lower-cased: only whitespace is lost |
| `ClassKey.SameKeyOnlyForSameText` | src/pages/PreboardForm.tsx:252-254 | two labels share a key only if they agree once lower-cased and stripped of whitespace |
| `ClassKey.ReplaceKeepsAlphabet` | src/pages/PreboardForm.tsx:253 | the replacement introduces no character other than the hyphen |
| `ClassKey.PlainSeparatorPlain` | src/pages/PreboardForm.tsx:253 | two words with no blank or hyphen around a run of blanks, a hyphen and blanks come out as the words joined by one hyphen |
| `ClassKey.NormalizeSeparated` | src/pages/PreboardForm.tsx:252-254 | two such words around any blanks-hyphen-blanks separator, in any case, reach the lower-cased words joined by one hyphen |
| `ClassKey.ArtsVariantKeys` | src/pages/PreboardForm.tsx:252-254 | "11" and "Arts", "ARTS" or "arts", joined by a hyphen with or without a space on either side, all reach "11-arts" |
| `AdmitCardData.ScheduleFor` | src/pages/PreboardForm.tsx:256 | a label finds a schedule exactly when its key is in the table, and then it finds that key's entry |
| `AdmitCardData.SevenClassKeys` | src/data/admitCardData.ts:14-22 | the table has exactly the keys 9, 10, 11-arts, 11-commerce, 12-arts, 12-commerce and 12-science |
| `AdmitCardData.GlobalTimeWindow` | src/data/admitCardData.ts:26-27 | one window, 09:00 AM to 11:30 AM, serves every class |
| `AdmitCardData.RowCounts` | src/data/admitCardData.ts:29-94 | class 9 has seven sittings, class 10 six, and every other class five |
| `AdmitCardData.KeysAreCanonical` | src/data/admitCardData.ts:28-95 | every table key is its own normalised key, so a correctly written label finds its schedule |
| `AdmitCardData.SchedulesChronological` | src/data/admitCardData.ts:29-94 | within each class the sitting dates strictly increase in table order |
| `AdmitCardData.DayNamesAgreeWithDates` | src/data/admitCardData.ts:29-94 | every sitting's weekday name is the weekday of its date |
| `AdmitCardLayout.DetailRowPositions` | src/pages/PreboardForm.tsx:198-204 | pair i is drawn on the line y + 12 i, its label (with a colon) in the label column and its value in the value column |
| `AdmitCardLayout.DetailBlock` | src/pages/PreboardForm.tsx:185-204 | Name, Class, Roll No, DOB and Father's Name appear in that order, labels at x=28, values at x=75, row i at y=115+12 i |
| `AdmitCardLayout.PhotoBox` | src/pages/PreboardForm.tsx:206-220 | the placeholder box and the grey "Photo" caption are always drawn, and the photograph is overlaid exactly when the file was chosen and readable |
| `AdmitCardLayout.TimingLine` | src/pages/PreboardForm.tsx:234 | the timing line reads "Timing: 09:00 AM - 11:30 AM" |
| `AdmitCardLayout.ScheduleHeader` | src/pages/PreboardForm.tsx:222-246 | the beige bar is at y=190 and the timing line is drawn above it at y=188 |
| `AdmitCardLayout.LayOutScheduleRows` | src/pages/PreboardForm.tsx:259-265 | with n rows, row i is drawn at y = 215 + 8 i in table order, and the running offset ends at 215 + 8 n |
| `AdmitCardLayout.LayOutSchedule` | src/pages/PreboardForm.tsx:256-272 | with no schedule there are no rows and no border; otherwise the border has height 15 + 8 n, and the signature anchor is set in either case |
| `AdmitCardLayout.SignatureAnchorValues` | src/pages/PreboardForm.tsx:257-266 | the signature anchor is 225 + 8 n for a class with n sittings and 215 when the class is not in the table |
| `AdmitCardLayout.SignatureBlock` | src/pages/PreboardForm.tsx:274-290 | both rules sit on the anchor, the captions "Student's Signature" and "Principal's Signature" are centred under them 7 below it, and the signature image is placed above the student's rule exactly when it is readable |
| `AdmitCardLayout.ThrowingLabelsHaveNoSchedule` | src/pages/PreboardForm.tsx:256-260 | a label that reaches an inherited name never also finds a schedule |
| `AdmitCardLayout.ConstructorLabelThrows` | src/pages/PreboardForm.tsx:256-260 | the class label "Constructor" reaches an inherited name |
| `AdmitCardLayout.GenerateAdmitCard` | src/pages/PreboardForm.tsx:108-298 | a card exists exactly when the crest loads, neither image is undecodable and the schedule lookup does not throw; it is saved as admit_card_<class>_<roll>.pdf with every section in place |
| `AdmitCardLayout.ClassNineSignatureOverflows` | src/pages/PreboardForm.tsx:257-295 | on A4, class 9's signature rule lands at y=281, below the footer line at 275, and its captions cross the outer border; class 10's rule stays above the footer line but its captions at y=280 fall below it; every other class keeps its rule and its captions above the footer line |
| `PreboardSession.DigitsOnly` | src/pages/PreboardForm.tsx:17 | the digits pattern holds exactly for a non-empty string of decimal digits |
| `PreboardSession.AadharError` | src/pages/PreboardForm.tsx:17 | an Aadhar number is accepted exactly when it has 12 characters, all decimal digits; a wrong length is reported first, then non-digits |
| `PreboardSession.AadharAcceptsTwelveDigits` | src/pages/PreboardForm.tsx:17 | twelve digits are accepted; there is no checksum |
| `PreboardSession.AadharRejectsShort` | src/pages/PreboardForm.tsx:17 | a short or empty number gets the length message |
| `PreboardSession.AadharRejectsLetter` | src/pages/PreboardForm.tsx:17 | twelve characters with a letter get the digits message |
| `PreboardSession.Relookup` | src/pages/PreboardForm.tsx:54-57 | when the lookup keys change, the loaded record is dropped and a lookup is pending exactly when both new keys are non-empty; otherwise nothing changes |
| `PreboardSession.Search` | src/pages/PreboardForm.tsx:61-68 | with an empty class or roll number, the error toast and no change; otherwise the search turns on and the success flag is cleared, while the keys, the Aadhar number and the chosen files are kept and the lookup is enabled |
| `PreboardSession.LookupSettled` | src/hooks/useStudents.ts:31-46 | a lookup may settle only while enabled, and it sets the record and ends loading without touching anything else |
| `PreboardSession.TypeAadhar` | src/pages/PreboardForm.tsx:360 | the field holds at most the first 12 characters typed, and nothing else changes |
| `PreboardSession.BeginSubmit` | src/pages/PreboardForm.tsx:70-90 | an update is sent exactly when a record is loaded, the Aadhar is valid and both files are chosen; the three conditions are applied in that order, and the patch is exactly the Aadhar number and the submitted flag for that record's id |
| `PreboardSession.FinishSubmit` | src/pages/PreboardForm.tsx:91-97 | submitting ends either way; the success flag rises only on success, with the success toast, and a failure shows the failure toast |
| `PreboardSession.NoticeExcludesForm` | src/pages/PreboardForm.tsx:351-358 | for every fee text, the pending notice and the upload form are never shown together |
| `PreboardSession.PanelsForStudent` | src/pages/PreboardForm.tsx:343-358 | on a loaded record the pending notice shows exactly for a pending fee, and the form exactly for a paid, unsubmitted record whose page has not yet reported success |
| `PreboardSession.Step` | src/pages/PreboardForm.tsx:53-98 | the corrected page: a change of lookup keys also clears the success flag, the Aadhar number and the chosen files; a success for a record no longer shown leaves the success flag as it was; after a successful update the record shown and every later lookup answer are read afresh; every other step is the page as written |
| `PreboardSession.InitialInv` | src/pages/PreboardForm.tsx:20-29 | the fresh page satisfies the session invariant and shows no panel |
| `PreboardSession.StepKeepsInv` | src/pages/PreboardForm.tsx:54-98 | on the corrected page every event keeps the invariant: a loaded record matches the keys, a lookup is pending only when enabled, success shown for a record means its update succeeded, a record whose update succeeded reads submitted, and chosen files were chosen for the record shown |
| `PreboardSession.UpdateOnlyWhenEligible` | src/pages/PreboardForm.tsx:70-90 | on the page as written and on the corrected page alike, an update is only ever sent from the upload form, for a paid record that the page's copy shows unsubmitted (a copy that can be stale on the page as written), with a valid Aadhar number and both files, and never while one is in flight |
| `PreboardSession.DownloadOnlyForSubmitted` | src/pages/PreboardForm.tsx:331-405 | on the corrected page, from any session satisfying the invariant, a downloaded card belongs to a record that is submitted or whose update succeeded, and any file on it was chosen while that record was shown |
| `PreboardSession.RunKeepsInv` | src/pages/PreboardForm.tsx:54-98 | on the corrected page every sequence of events from a session satisfying the invariant keeps it |
| `PreboardSession.AsWrittenKeepsCoreInv` | src/pages/PreboardForm.tsx:54-98 | the page as written keeps the core invariant on every event: nothing before the first search, a loaded record matches the keys, a lookup waits only when enabled and with no record, and an update is in flight exactly while submitting |
| `PreboardSession.AsWrittenRunKeepsCoreInv` | src/pages/PreboardForm.tsx:54-98 | the page as written keeps the core invariant over every sequence of events |
| `PreboardSession.ReachableDownloadIsSubmitted` | src/pages/PreboardForm.tsx:331-405 | on the corrected page, every admit card reachable from the fresh page is for a submitted record or one whose update succeeded, and carries only files chosen while that record was shown |
| `PreboardSession.Refreshed` | src/hooks/useStudents.ts:74-88 | a record read afresh after this session saw its update succeed reads submitted; any other record, and every other field, is as the store returned it |
| `PreboardSession.NoUpdateForConfirmed` | src/pages/PreboardForm.tsx:70-90 | on the corrected page, from any session satisfying the invariant, no update is sent for a student whose update this session saw succeed |
| `PreboardSession.ReachableUpdateIsFirst` | src/pages/PreboardForm.tsx:61-90 | on the corrected page, from the fresh page, every update sent is for a student with no earlier successful update: the self-submission happens once |
| `PreboardSession.ResubmitTraceOutcomes` | src/pages/PreboardForm.tsx:61-90 | as written, after A's successful submission a second search and Submit send a second update for A, and the session after the search is outside the invariant; the corrected page sends nothing |
| `PreboardSession.SwitchTraceOutcomes` | src/pages/PreboardForm.tsx:61-68 | as written, the trace in the Findings row downloads student B's card with the files chosen while A was shown, whether or not B has submitted, after only A's update succeeded, and ends outside the invariant; the corrected page downloads nothing for an unsubmitted B and a card without files for a submitted B |
| `StudentForm.FieldNamesDistinct` | src/components/students/StudentForm.tsx:10-22 | distinct fields have distinct error-map keys |
| `StudentForm.RequiredText` | src/components/students/StudentForm.tsx:11-17 | a required text is accepted exactly when non-empty and within its maximum, and the empty text gets the field's own message |
| `StudentForm.EnumIssue` | src/components/students/StudentForm.tsx:18-21 | an enumerated field is accepted exactly when its text is one of the options |
| `StudentForm.FieldIssue` | src/components/students/StudentForm.tsx:10-22 | a field reports an issue exactly when it breaks its schema rule |
| `StudentForm.ZeroFeeAccepted` | src/components/students/StudentForm.tsx:19 | the fee is accepted exactly when it is at least zero, so zero passes despite the "positive" message |
| `StudentForm.LedgerOptionalDobUnchecked` | src/components/students/StudentForm.tsx:11-17 | an empty ledger number passes; class, roll number and date of birth are rejected exactly when empty, with no date format imposed |
| `StudentForm.Issues` | src/components/students/StudentForm.tsx:70 | the issue list names exactly the failing fields, each with its own message |
| `StudentForm.IssuesOnePerField` | src/components/students/StudentForm.tsx:70 | over the schema's fields each failing field is reported once |
| `StudentForm.ErrorMap` | src/components/students/StudentForm.tsx:72-75 | the error map's keys are the reported field names, and each holds the last message reported for it |
| `StudentForm.ErrorsDescribeFailures` | src/components/students/StudentForm.tsx:70-76 | a field has an entry in the error map exactly when it fails, and the entry is its message |
| `StudentForm.SubmitForm` | src/components/students/StudentForm.tsx:66-81 | the form data is passed on unchanged exactly when every field is accepted; otherwise the errors name exactly the failing fields |
| `StudentForm.AllFieldsListed` | src/components/students/StudentForm.tsx:10-22 | the schema covers every field of the form |
| `StudentForm.EmptyFormFailures` | src/components/students/StudentForm.tsx:33-45 | the blank form fails exactly on class, roll number, the three names and the date of birth |
| `StudentForm.Prefill` | src/components/students/StudentForm.tsx:48-63 | editing pre-fills every field from the record, with a missing ledger number as "" |
| `StudentForm.AcceptedFormEnumsValid` | src/components/students/StudentForm.tsx:18-21 | accepted form data carries valid gender, fee-status and status values |
| `StudentForm.ApplyForm` | src/types/student.ts:22-34 | saving form data onto a record keeps its id, Aadhar number, submitted flag, file links and timestamps, and pre-filling the result gives the form data back |
| `StudentForm.EditRoundTrip` | src/components/students/StudentForm.tsx:48-63 | pre-filling a record and saving it unchanged gives the record back, except that a missing ledger number becomes "" |
| `StudentsPage.SelectClassFilter` | src/pages/admin/Students.tsx:129-133 | choosing "all" drops the class restriction and any other choice sets it; the fee restriction is untouched |
| `StudentsPage.SelectFeeFilter` | src/pages/admin/Students.tsx:151-155 | choosing "all" drops the fee restriction and any other choice sets it; the class restriction is untouched |
| `StudentsPage.Shown` | src/pages/admin/Students.tsx:127-155 | a missing restriction is shown as "all", a set one as itself |
| `StudentsPage.MenusShowTheirChoice` | src/pages/admin/Students.tsx:127-155 | a menu shows back the choice made in it, and the other menu's display does not move |
| `StudentsPage.FilterStudents` | src/hooks/useStudents.ts:16-21 | the list holds exactly the records matching every restriction that is set |
| `StudentsPage.NoFiltersKeepAll` | src/hooks/useStudents.ts:16-21 | with no filters the whole list comes back in order |
| `StudentsPage.FilterSingleton` | src/hooks/useStudents.ts:16-21 | a single record is kept exactly when it matches the filters |
| `StudentsPage.FilterAppend` | src/hooks/useStudents.ts:10-21 | filtering two lists laid end to end filters each in turn, so the kept records stay in the store's order, each as often as it occurs |
| `StudentsPage.HandleCreate` | src/pages/admin/Students.tsx:64-74 | the form data is inserted; the dialog closes only on success, and a failure reports the error's message or "Failed to add student" |
| `StudentsPage.HandleUpdate` | src/pages/admin/Students.tsx:76-87 | nothing happens without a record under edit; otherwise that record's id is updated and the edit ends only on success |
| `StudentsPage.HandleDelete` | src/pages/admin/Students.tsx:89-100 | nothing happens without a record chosen for deletion; otherwise it is deleted by id and the choice is dropped only on success |
| `StudentsPage.HandlersKeepFilters` | src/pages/admin/Students.tsx:64-100 | no handler touches the filters, and each touches only its own dialog state |
| `StudentsPage.EditKeepsSubmission` | src/types/student.ts:22-34 | an administrator's edit can never set or reset a record's submitted flag, Aadhar number or file links |
| `StudentsPage.FeeBadge` | src/pages/admin/Students.tsx:223-228 | the badge reads "Paid" exactly for the text "paid" and "Pending" for anything else |
| `StudentsPage.BadgeNamesFeeStatus` | src/pages/admin/Students.tsx:223-228 | on a stored record the badge names its fee status |
| `Dashboard.DashboardStats` | src/pages/admin/Dashboard.tsx:9-12 | total is the list length, paid, pending and active count their records, paid plus pending is the total, and active is at most the total |
| `Dashboard.CountAppend` | src/pages/admin/Dashboard.tsx:10-12 | counting over two lists laid end to end adds up |
| `Dashboard.AddingARecord` | src/pages/admin/Dashboard.tsx:9-11 | one more record raises the total by one and exactly the fee counter of its status by one |
| `Dashboard.Recent` | src/pages/admin/Dashboard.tsx:84 | the recent list is the first min(5, n) records in list order |
| `Dashboard.RecentIsPrefix` | src/pages/admin/Dashboard.tsx:84 | the recent list is a prefix, and the whole list when it has at most five records |
| `DocumentTitle.Title` | src/hooks/useDocumentTitle.ts:9 | a path with a non-empty title gets it, a missing or empty title gives the school's name, and the title is never empty |
| `DocumentTitle.TitleIsRegisteredOrDefault` | src/hooks/useDocumentTitle.ts:9 | every title is the path's registered title or the default |
| `DocumentTitle.ApplicationTitles` | src/App.tsx:19-25 | with the application's table each registered route gets its own title and any other path the default |

## Left out

- Drawing internals: jsPDF fonts, font sizes and the RGB values of the colours are not modelled. Colours are tags. The table border's colour is `primaryRed * 0.7`, a floating-point scaling, modelled as its own tag. Line widths are kept in tenths.
- Page geometry: the page width and height are integers. jsPDF reports A4 as about 210.0016 by 297.0006 mm. The page centre is `pageWidth / 2` rounded down, which is exact for even widths.
- Image handling: file reading, base64 encoding, image decoding and the upload previews are not modelled. An image is one of the four `Upload` cases. An image the PDF library cannot decode makes `addImage` throw, outside any `try`, and no card is saved; which files the library decodes is not modelled, only that outcome.
- Crest loading: this is a boolean. The case of a crest that loads only after a long delay is not modelled.
- Date of birth: `toLocaleDateString('en-IN')` is the parameter `formatDate`. No date arithmetic is modelled.
- Lower-casing: `toLowerCase` is modelled on ASCII letters only. Other letters keep their case in the model.
- Fee amount: it is a real number. `Number()` of a non-numeric input (NaN) and the schema's rejection of NaN are not modelled.
- The record store: the store's queries and writes appear only as their outcomes. That covers the list order by class and roll number, which the model takes as given, and errors other than a thrown value.
- The lookup cache: a change of lookup keys is modelled as a fresh lookup. Cached entries for keys seen earlier, refetch on window focus and background refetches are not modelled.
- Sign-in and routing: authentication, the login page and routing are not modelled. They are built on asynchronous listeners and timeouts.
- The class list: the list behind the class menus (useClasses) is not modelled. Any text may be chosen.
- The delete dialog: the dialog library closes the dialog whatever the outcome. Only the handler's own state change is modelled.
- Concurrency: an administrator's edit racing a student's submission is not modelled. Nothing in the code addresses it.
- `StudentForm.ApplyForm`: keeps `created_at` and `updated_at` as they were, because the form does not send them. A store-side trigger that refreshes `updated_at` on write is not visible in this code and is not modelled; `StudentForm.EditRoundTrip` relies on the same assumption.
- `PreboardSession.TypeAadhar`: the input's 12-character limit is modelled as a cut after 12 characters. The browser counts UTF-16 code units there, which differs only outside the Basic Multilingual Plane.

## Findings

| source | as written | input that shows it | evidently intended | confidence | as-written member | corrected member |
|---|---|---|---|---|---|---|
| src/pages/PreboardForm.tsx:61-68 | the "Form submitted successfully!" panel and its Download button depend only on `formSubmitted`, which only `handleSearch` clears, while editing the class or roll number after a search immediately re-keys the lookup; the chosen files survive the re-key too, and the card drawn for whichever record is shown carries them | student A (paid, not submitted) searches, fills in a valid Aadhar number, both files and submits; the update succeeds; A then types the roll number of classmate B; B's record loads under the still-shown success panel, and Download produces B's admit card carrying A's photograph and signature, whether or not B has submitted | the success panel and the chosen files belong to the student shown when they were earned or chosen: a change of lookup keys clears the success flag, the Aadhar number and the files (and a success settling for a record no longer shown does not raise the panel) | medium; not executed | `PreboardSession.SwitchTraceOutcomes` | `PreboardSession.ReachableDownloadIsSubmitted` |
| src/hooks/useStudents.ts:86-88 | a successful update invalidates only the list queries (`['students']`), not the lookup cached under `['student', class, roll]`; `handleSearch` then clears `formSubmitted` (src/pages/PreboardForm.tsx:67), and the cached record, which still reads unsubmitted, shows the upload form again | student A (paid, not submitted) searches, fills in a valid Aadhar number and both files, and submits; the update succeeds; A clicks Search again without changing the keys and before any refetch; the upload form reappears with the number and files still filled in, and Submit sends a second update for A | the self-submission happens once per student: the lookup is refreshed after the update, so the record reads submitted and the form stays hidden | medium; not executed | `PreboardSession.ResubmitTraceOutcomes` | `PreboardSession.ReachableUpdateIsFirst` |
