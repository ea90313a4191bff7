/**
 The static examination schedule printed on the admit card: one global
 time window and, per canonical class key, the subjects in sitting order.
 */
module AdmitCardData {
  import opened Common
  import opened ClassKey

  datatype Subject = Subject(name: string, day: string, date: string)
  datatype ClassSchedule = ClassSchedule(subjects: seq<Subject>)
  datatype AdmitCardTable = AdmitCardTable(startTime: string, endTime: string, classes: map<string, ClassSchedule>)

  const ClassNine := ClassSchedule([
    Subject("SCT.", "Monday", "2026-01-19"),
    Subject("English", "Tuesday", "2026-01-20"),
    Subject("Hindi", "Wednesday", "2026-01-21"),
    Subject("SST", "Thursday", "2026-01-22"),
    Subject("Physical Edu.", "Saturday", "2026-01-24"),
    Subject("Mathematics", "Tuesday", "2026-01-27"),
    Subject("SKT", "Wednesday", "2026-01-28")])

  const ClassTen := ClassSchedule([
    Subject("Mathematics", "Monday", "2026-01-19"),
    Subject("Hindi", "Tuesday", "2026-01-20"),
    Subject("English", "Wednesday", "2026-01-21"),
    Subject("SST", "Thursday", "2026-01-22"),
    Subject("SCT.", "Saturday", "2026-01-24"),
    Subject("Physical Edu", "Tuesday", "2026-01-27")])

  const ElevenArts := ClassSchedule([
    Subject("English", "Monday", "2026-01-19"),
    Subject("Pol. Sci", "Tuesday", "2026-01-20"),
    Subject("History", "Wednesday", "2026-01-21"),
    Subject("Hindi", "Thursday", "2026-01-22"),
    Subject("Physical Edu", "Saturday", "2026-01-24")])

  const ElevenCommerce := ClassSchedule([
    Subject("English", "Monday", "2026-01-19"),
    Subject("Accounts", "Tuesday", "2026-01-20"),
    Subject("B. Std.", "Wednesday", "2026-01-21"),
    Subject("Hindi", "Thursday", "2026-01-22"),
    Subject("ECO/Mathematics", "Saturday", "2026-01-24")])

  const TwelveArts := ClassSchedule([
    Subject("History", "Monday", "2026-01-19"),
    Subject("English", "Tuesday", "2026-01-20"),
    Subject("Pol. Sci", "Wednesday", "2026-01-21"),
    Subject("Hindi", "Thursday", "2026-01-22"),
    Subject("Physical Edu", "Saturday", "2026-01-24")])

  const TwelveCommerce := ClassSchedule([
    Subject("Accounts", "Monday", "2026-01-19"),
    Subject("English", "Tuesday", "2026-01-20"),
    Subject("Mathematics", "Wednesday", "2026-01-21"),
    Subject("Hindi", "Thursday", "2026-01-22"),
    Subject("B. Std.", "Saturday", "2026-01-24")])

  const TwelveScience := ClassSchedule([
    Subject("Chemistry", "Monday", "2026-01-19"),
    Subject("English", "Tuesday", "2026-01-20"),
    Subject("Mathematics/Bio", "Wednesday", "2026-01-21"),
    Subject("Hindi", "Thursday", "2026-01-22"),
    Subject("Physics", "Saturday", "2026-01-24")])

  /** `admitCardData`. */
  const Table := AdmitCardTable("09:00 AM", "11:30 AM", map[
    "9" := ClassNine,
    "10" := ClassTen,
    "11-arts" := ElevenArts,
    "11-commerce" := ElevenCommerce,
    "12-arts" := TwelveArts,
    "12-commerce" := TwelveCommerce,
    "12-science" := TwelveScience])

  /** The schedule a class label resolves to: the one stored under the
      label's normalised key, or none. No nearest match is ever guessed. */
  function ScheduleFor(classLabel: string): (found: Option<ClassSchedule>)
    ensures found.Some? <==> NormalizeClassKey(classLabel) in Table.classes
    ensures found.Some? ==> found.value == Table.classes[NormalizeClassKey(classLabel)]
  {
    var key := NormalizeClassKey(classLabel);
    if key in Table.classes then Some(Table.classes[key]) else None
  }

  /** The table knows exactly seven classes. */
  lemma SevenClassKeys()
    ensures Table.classes.Keys == {"9", "10", "11-arts", "11-commerce", "12-arts", "12-commerce", "12-science"}
  {
  }

  /** One time window, 09:00 AM to 11:30 AM, serves every class. */
  lemma GlobalTimeWindow()
    ensures Table.startTime == "09:00 AM" && Table.endTime == "11:30 AM"
  {
  }

  /** Seven sittings for class 9, six for class 10, five for every other. */
  lemma RowCounts()
    ensures |Table.classes["9"].subjects| == 7
    ensures |Table.classes["10"].subjects| == 6
    ensures forall k :: k in Table.classes && k != "9" && k != "10" ==> |Table.classes[k].subjects| == 5
  {
  }

  /** A key with no capital letter and no blank at all is canonical. */
  lemma PlainKeyIsFixedPoint(key: string)
    requires forall i :: 0 <= i < |key| ==> !IsUpperAscii(key[i]) && !IsJsSpace(key[i])
    ensures NormalizeClassKey(key) == key
  {
    FixedPointWhenCanonical(key);
  }

  /** Every key of the table is a fixed point of the normaliser, so the
      label the table itself uses always finds its schedule. */
  lemma KeysAreCanonical()
    ensures forall k :: k in Table.classes ==> NormalizeClassKey(k) == k
    ensures forall k :: k in Table.classes ==> ScheduleFor(k) == Some(Table.classes[k])
  {
    forall k | k in Table.classes ensures NormalizeClassKey(k) == k {
      PlainKeyIsFixedPoint(k);
    }
  }

  /** The value of an ASCII digit. */
  function DigitValue(c: char): int {
    c as int - '0' as int
  }

  /** A `YYYY-MM-DD` date string. */
  predicate IsIsoDate(d: string) {
    && |d| == 10
    && d[4] == '-' && d[7] == '-'
    && forall i :: 0 <= i < 10 && i != 4 && i != 7 ==> IsDecimalDigit(d[i])
  }

  function Year(d: string): int requires IsIsoDate(d) {
    DigitValue(d[0]) * 1000 + DigitValue(d[1]) * 100 + DigitValue(d[2]) * 10 + DigitValue(d[3])
  }

  function Month(d: string): int requires IsIsoDate(d) {
    DigitValue(d[5]) * 10 + DigitValue(d[6])
  }

  function DayOfMonth(d: string): int requires IsIsoDate(d) {
    DigitValue(d[8]) * 10 + DigitValue(d[9])
  }

  /** A number that orders ISO dates chronologically. */
  function DateOrdinal(d: string): int requires IsIsoDate(d) {
    Year(d) * 10000 + Month(d) * 100 + DayOfMonth(d)
  }

  /** Sittings of one class come in strictly increasing date order. */
  predicate Chronological(rows: seq<Subject>) {
    forall i, j :: 0 <= i < j < |rows| ==>
      IsIsoDate(rows[i].date) && IsIsoDate(rows[j].date) && DateOrdinal(rows[i].date) < DateOrdinal(rows[j].date)
  }

  /** The date string of a day of January 2026 from the 10th on. */
  function January2026(day: int): string
    requires 10 <= day <= 31
  {
    "2026-01-" + [(day / 10 + '0' as int) as char, (day % 10 + '0' as int) as char]
  }

  lemma January2026Fields(d: string, day: int)
    requires 10 <= day <= 31 && d == January2026(day)
    ensures IsIsoDate(d) && Year(d) == 2026 && Month(d) == 1 && DayOfMonth(d) == day
    ensures DateOrdinal(d) == 20260100 + day
  {
  }

  /** Rows dated on increasing days of January 2026 are chronological. */
  lemma JanuaryRowsChronological(rows: seq<Subject>, days: seq<int>)
    requires |rows| == |days|
    requires forall i :: 0 <= i < |days| ==> 10 <= days[i] <= 31 && rows[i].date == January2026(days[i])
    requires forall i :: 0 <= i < |days| - 1 ==> days[i] < days[i + 1]
    ensures Chronological(rows)
  {
    forall i | 0 <= i < |rows| ensures IsIsoDate(rows[i].date) && DateOrdinal(rows[i].date) == 20260100 + days[i] {
      January2026Fields(rows[i].date, days[i]);
    }
    IncreasingDays(days);
  }

  /** A sequence that increases step by step increases overall. */
  lemma {:induction false} IncreasingDays(days: seq<int>)
    requires forall i :: 0 <= i < |days| - 1 ==> days[i] < days[i + 1]
    ensures forall i, j :: 0 <= i < j < |days| ==> days[i] < days[j]
    decreases |days|
  {
    if |days| > 1 {
      IncreasingDays(days[1..]);
      forall j | 1 < j < |days| ensures days[0] < days[j] {
        assert days[1..][0] < days[1..][j - 1];
      }
    }
  }

  /** The days of January 2026 on which each class sits. */
  const NineDays := [19, 20, 21, 22, 24, 27, 28]
  const TenDays := [19, 20, 21, 22, 24, 27]
  const SeniorDays := [19, 20, 21, 22, 24]

  lemma TableDays()
    ensures forall i :: 0 <= i < 7 ==> ClassNine.subjects[i].date == January2026(NineDays[i])
    ensures forall i :: 0 <= i < 6 ==> ClassTen.subjects[i].date == January2026(TenDays[i])
    ensures forall i :: 0 <= i < 5 ==>
      && ElevenArts.subjects[i].date == January2026(SeniorDays[i])
      && ElevenCommerce.subjects[i].date == January2026(SeniorDays[i])
      && TwelveArts.subjects[i].date == January2026(SeniorDays[i])
      && TwelveCommerce.subjects[i].date == January2026(SeniorDays[i])
      && TwelveScience.subjects[i].date == January2026(SeniorDays[i])
  {
  }

  lemma ClassNineChronological()
    ensures Chronological(ClassNine.subjects)
  {
    TableDays();
    JanuaryRowsChronological(ClassNine.subjects, NineDays);
  }

  lemma ClassTenChronological()
    ensures Chronological(ClassTen.subjects)
  {
    TableDays();
    JanuaryRowsChronological(ClassTen.subjects, TenDays);
  }

  lemma ElevenArtsChronological()
    ensures Chronological(ElevenArts.subjects)
  {
    TableDays();
    JanuaryRowsChronological(ElevenArts.subjects, SeniorDays);
  }

  lemma ElevenCommerceChronological()
    ensures Chronological(ElevenCommerce.subjects)
  {
    TableDays();
    JanuaryRowsChronological(ElevenCommerce.subjects, SeniorDays);
  }

  lemma TwelveArtsChronological()
    ensures Chronological(TwelveArts.subjects)
  {
    TableDays();
    JanuaryRowsChronological(TwelveArts.subjects, SeniorDays);
  }

  lemma TwelveCommerceChronological()
    ensures Chronological(TwelveCommerce.subjects)
  {
    TableDays();
    JanuaryRowsChronological(TwelveCommerce.subjects, SeniorDays);
  }

  lemma TwelveScienceChronological()
    ensures Chronological(TwelveScience.subjects)
  {
    TableDays();
    JanuaryRowsChronological(TwelveScience.subjects, SeniorDays);
  }

  /** Within every class the dates strictly increase in table order. */
  lemma SchedulesChronological()
    ensures forall k :: k in Table.classes ==> Chronological(Table.classes[k].subjects)
  {
    ClassNineChronological();
    ClassTenChronological();
    ElevenArtsChronological();
    ElevenCommerceChronological();
    TwelveArtsChronological();
    TwelveCommerceChronological();
    TwelveScienceChronological();
  }

  /** Day of the week of a Gregorian date, 0 = Sunday (Sakamoto's method). */
  function Weekday(y: int, m: int, d: int): (w: int)
    requires 1 <= m <= 12 && y >= 1
    ensures 0 <= w < 7
  {
    var offsets := [0, 3, 2, 5, 0, 3, 5, 1, 4, 6, 2, 4];
    var yy := if m < 3 then y - 1 else y;
    (yy + yy / 4 - yy / 100 + yy / 400 + offsets[m - 1] + d) % 7
  }

  const WeekdayNames := ["Sunday", "Monday", "Tuesday", "Wednesday", "Thursday", "Friday", "Saturday"]

  /** The printed day name agrees with the printed date. */
  predicate DayMatchesDate(s: Subject) {
    IsIsoDate(s.date) && 1 <= Month(s.date) <= 12 && Year(s.date) >= 1 &&
    s.day == WeekdayNames[Weekday(Year(s.date), Month(s.date), DayOfMonth(s.date))]
  }

  /** Rows dated in January 2026 whose day names are those of their dates. */
  lemma JanuaryRowsNamed(rows: seq<Subject>, days: seq<int>)
    requires |rows| == |days|
    requires forall i :: 0 <= i < |days| ==> 10 <= days[i] <= 31 && rows[i].date == January2026(days[i])
    requires forall i :: 0 <= i < |days| ==> rows[i].day == WeekdayNames[Weekday(2026, 1, days[i])]
    ensures forall i :: 0 <= i < |rows| ==> DayMatchesDate(rows[i])
  {
    forall i | 0 <= i < |rows| ensures DayMatchesDate(rows[i]) {
      January2026Fields(rows[i].date, days[i]);
    }
  }

  lemma January2026Weekdays()
    ensures Weekday(2026, 1, 19) == 1 && Weekday(2026, 1, 20) == 2 && Weekday(2026, 1, 21) == 3
    ensures Weekday(2026, 1, 22) == 4 && Weekday(2026, 1, 24) == 6
    ensures Weekday(2026, 1, 27) == 2 && Weekday(2026, 1, 28) == 3
  {
  }

  lemma ClassNineDaysNamed()
    ensures forall i :: 0 <= i < |ClassNine.subjects| ==> DayMatchesDate(ClassNine.subjects[i])
  {
    TableDays();
    January2026Weekdays();
    JanuaryRowsNamed(ClassNine.subjects, NineDays);
  }

  lemma ClassTenDaysNamed()
    ensures forall i :: 0 <= i < |ClassTen.subjects| ==> DayMatchesDate(ClassTen.subjects[i])
  {
    TableDays();
    January2026Weekdays();
    JanuaryRowsNamed(ClassTen.subjects, TenDays);
  }

  lemma ElevenArtsDaysNamed()
    ensures forall i :: 0 <= i < |ElevenArts.subjects| ==> DayMatchesDate(ElevenArts.subjects[i])
  {
    TableDays();
    January2026Weekdays();
    JanuaryRowsNamed(ElevenArts.subjects, SeniorDays);
  }

  lemma ElevenCommerceDaysNamed()
    ensures forall i :: 0 <= i < |ElevenCommerce.subjects| ==> DayMatchesDate(ElevenCommerce.subjects[i])
  {
    TableDays();
    January2026Weekdays();
    JanuaryRowsNamed(ElevenCommerce.subjects, SeniorDays);
  }

  lemma TwelveArtsDaysNamed()
    ensures forall i :: 0 <= i < |TwelveArts.subjects| ==> DayMatchesDate(TwelveArts.subjects[i])
  {
    TableDays();
    January2026Weekdays();
    JanuaryRowsNamed(TwelveArts.subjects, SeniorDays);
  }

  lemma TwelveCommerceDaysNamed()
    ensures forall i :: 0 <= i < |TwelveCommerce.subjects| ==> DayMatchesDate(TwelveCommerce.subjects[i])
  {
    TableDays();
    January2026Weekdays();
    JanuaryRowsNamed(TwelveCommerce.subjects, SeniorDays);
  }

  lemma TwelveScienceDaysNamed()
    ensures forall i :: 0 <= i < |TwelveScience.subjects| ==> DayMatchesDate(TwelveScience.subjects[i])
  {
    TableDays();
    January2026Weekdays();
    JanuaryRowsNamed(TwelveScience.subjects, SeniorDays);
  }

  /** Although nothing in the portal checks it, every day name in the table
      is the true weekday of its date. */
  lemma DayNamesAgreeWithDates()
    ensures forall k, i :: k in Table.classes && 0 <= i < |Table.classes[k].subjects| ==>
      DayMatchesDate(Table.classes[k].subjects[i])
  {
    ClassNineDaysNamed();
    ClassTenDaysNamed();
    ElevenArtsDaysNamed();
    ElevenCommerceDaysNamed();
    TwelveArtsDaysNamed();
    TwelveCommerceDaysNamed();
    TwelveScienceDaysNamed();
  }
}
