/**
 The admit-card renderer as a sequence of abstract draw commands. Fonts,
 font sizes and the exact shades are left to the PDF library; colours are
 named tags and stroke widths are counted in tenths of a unit.
 */
module AdmitCardLayout {
  import opened Common
  import opened StudentTypes
  import opened ClassKey
  import opened AdmitCardData

  /** The palette: the primary red, the warm beige, black, the grey of the
      placeholder and footer text, the light grey of the table header and
      the darkened red of the table border. */
  datatype Colour = PrimaryRed | Beige | Black | MutedGrey | HeaderGrey | DarkRed

  datatype Align = AlignLeft | AlignCenter | AlignRight

  datatype Paint = Stroke(colour: Colour, widthTenths: nat) | Fill(colour: Colour)

  datatype ImageKind = Crest | Photograph | SignatureImage

  datatype DrawCmd =
    | Text(content: string, x: int, y: int, align: Align, colour: Colour)
    | Line(x1: int, y1: int, x2: int, y2: int, colour: Colour, widthTenths: nat)
    | Rect(x: int, y: int, w: int, h: int, paint: Paint)
    | Image(kind: ImageKind, x: int, y: int, w: int, h: int)

  /** An uploaded image file at rendering time: none chosen, chosen but the
      file reader failed, chosen and readable, or read but not an image the
      PDF library can decode (the file input accepts any image type, and
      `addImage` then throws). */
  datatype Upload = NoFile | Unreadable | Readable | Undecodable

  /** The rendered page, section by section, and the name it is saved under. */
  datatype AdmitCard = AdmitCard(
    frame: seq<DrawCmd>,
    letterhead: seq<DrawCmd>,
    details: seq<DrawCmd>,
    photoBox: seq<DrawCmd>,
    scheduleHeader: seq<DrawCmd>,
    scheduleRows: seq<DrawCmd>,
    scheduleBorder: seq<DrawCmd>,
    signature: seq<DrawCmd>,
    footer: seq<DrawCmd>,
    fileName: string)
  {
    /** All commands in drawing order. */
    function Commands(): seq<DrawCmd> {
      frame + letterhead + details + photoBox + scheduleHeader + scheduleRows + scheduleBorder + signature + footer
    }
  }

  /** Horizontal centre of the page (integer division: exact for even widths). */
  function Centre(pageWidth: int): int {
    pageWidth / 2
  }

  const DetailLabelX := 28
  const DetailValueX := 75
  const DetailTop := 115
  const DetailLineHeight := 12
  const ScheduleTop := 215
  const ScheduleRowHeight := 8
  const TableTop := 200
  const SignatureFallbackY := 215

  const FooterText := "This is a computer-generated document. Please bring this admit card to the examination hall."

  /** Outer border (stroke 2) and inner decorative border (stroke 0.5). */
  function Frame(pageWidth: int, pageHeight: int): seq<DrawCmd> {
    [ Rect(10, 10, pageWidth - 20, pageHeight - 20, Stroke(PrimaryRed, 20)),
      Rect(15, 15, pageWidth - 30, pageHeight - 30, Stroke(PrimaryRed, 5)) ]
  }

  /** School codes, crest, name, address block, divider and title. */
  function Letterhead(pageWidth: int): seq<DrawCmd> {
    var c := Centre(pageWidth);
    [ Text("Affiliation No: 03072", 20, 22, AlignLeft, PrimaryRed),
      Text("School Code: 21316", c, 22, AlignCenter, PrimaryRed),
      Text("UDISE Code: 06191612461", pageWidth - 20, 22, AlignRight, PrimaryRed),
      Image(Crest, c - 15, 26, 30, 30),
      Text("SONIA PUBLIC SR. SEC. SCHOOL", c, 62, AlignCenter, PrimaryRed),
      Text("Add:- DAYAL NAGAR, AMARNAGAR, FARIDABAD, 121003", c, 70, AlignCenter, Black),
      Text("Phone No:- 9990020795", c, 76, AlignCenter, Black),
      Text("E-mail:- drsunil095@gmail.com | Website:- https://soniapublicschool.org/", c, 82, AlignCenter, PrimaryRed),
      Line(30, 86, pageWidth - 30, 86, Beige, 10),
      Text("PRE-BOARD EXAMINATION 2025-26", c, 96, AlignCenter, Black),
      Text("ADMIT CARD", c, 104, AlignCenter, Beige) ]
  }

  /** The label/value pairs of the detail block, in printing order. The date
      of birth is printed through the locale formatter `formatDate`. */
  function DetailFields(student: Student, formatDate: string -> string): seq<(string, string)> {
    [ ("Name", student.studentName),
      ("Class", student.className),
      ("Roll No", student.rollNo),
      ("DOB", formatDate(student.dob)),
      ("Father's Name", student.fatherName) ]
  }

  /** The detail rows drawn from offset `y`, moving down one line per pair. */
  function DetailRows(fields: seq<(string, string)>, y: int): seq<DrawCmd>
    decreases |fields|
  {
    if |fields| == 0 then []
    else
      [ Text(fields[0].0 + ":", DetailLabelX, y, AlignLeft, Black),
        Text(fields[0].1, DetailValueX, y, AlignLeft, Black) ]
      + DetailRows(fields[1..], y + DetailLineHeight)
  }

  /** Pair `i` is drawn on the line `y + 12 i`: label in the label column,
      value in the value column. */
  lemma {:induction false} DetailRowPositions(fields: seq<(string, string)>, y: int)
    ensures |DetailRows(fields, y)| == 2 * |fields|
    ensures forall i :: 0 <= i < |fields| ==>
      && DetailRows(fields, y)[2 * i] == Text(fields[i].0 + ":", DetailLabelX, y + DetailLineHeight * i, AlignLeft, Black)
      && DetailRows(fields, y)[2 * i + 1] == Text(fields[i].1, DetailValueX, y + DetailLineHeight * i, AlignLeft, Black)
    decreases |fields|
  {
    if |fields| > 0 {
      var rest := DetailRows(fields[1..], y + DetailLineHeight);
      DetailRowPositions(fields[1..], y + DetailLineHeight);
      forall i | 1 <= i < |fields|
        ensures DetailRows(fields, y)[2 * i] == Text(fields[i].0 + ":", DetailLabelX, y + DetailLineHeight * i, AlignLeft, Black)
        ensures DetailRows(fields, y)[2 * i + 1] == Text(fields[i].1, DetailValueX, y + DetailLineHeight * i, AlignLeft, Black)
      {
        assert fields[1..][i - 1] == fields[i];
        assert DetailRows(fields, y)[2 * i] == rest[2 * (i - 1)];
        assert DetailRows(fields, y)[2 * i + 1] == rest[2 * (i - 1) + 1];
      }
    }
  }

  /** The photo box: the frame and the grey word "Photo" are always drawn;
      a readable photograph is laid over them, slightly inset. */
  function PhotoBox(pageWidth: int, photo: Upload): (cmds: seq<DrawCmd>)
    ensures |cmds| >= 2
    ensures cmds[0] == Rect(pageWidth - 55, 105, 30, 35, Stroke(Beige, 5))
    ensures cmds[1] == Text("Photo", pageWidth - 40, 125, AlignCenter, MutedGrey)
    ensures |cmds| == 3 <==> photo == Readable
    ensures photo == Readable ==> cmds[2] == Image(Photograph, pageWidth - 54, 106, 28, 33)
    ensures forall i :: 0 <= i < |cmds| ==> cmds[i].Image? ==> photo == Readable
  {
    [ Rect(pageWidth - 55, 105, 30, 35, Stroke(Beige, 5)),
      Text("Photo", pageWidth - 40, 125, AlignCenter, MutedGrey) ]
    + (if photo == Readable then [Image(Photograph, pageWidth - 54, 106, 28, 33)] else [])
  }

  /** The timing line, built from the table's global window. */
  function TimingLine(): (line: string)
    ensures line == "Timing: 09:00 AM - 11:30 AM"
  {
    GlobalTimeWindow();
    assert "Timing: " + "09:00 AM" + " - " + "11:30 AM" == "Timing: 09:00 AM - 11:30 AM";
    "Timing: " + Table.startTime + " - " + Table.endTime
  }

  /** The beige title bar, its caption, the timing line (drawn at y=188,
      just above the bar at y=190) and the table header. */
  function ScheduleHeader(pageWidth: int): (cmds: seq<DrawCmd>)
    ensures |cmds| == 8
    ensures cmds[0] == Rect(20, 190, pageWidth - 40, 8, Fill(Beige))
    ensures cmds[2] == Text("Timing: 09:00 AM - 11:30 AM", Centre(pageWidth), 188, AlignCenter, PrimaryRed)
    ensures cmds[2].y < cmds[0].y
  {
    var c := Centre(pageWidth);
    [ Rect(20, 190, pageWidth - 40, 8, Fill(Beige)),
      Text("EXAMINATION SCHEDULE", c, 196, AlignCenter, Black),
      Text(TimingLine(), c, 188, AlignCenter, PrimaryRed),
      Rect(20, TableTop, pageWidth - 40, 8, Fill(HeaderGrey)),
      Rect(20, TableTop, pageWidth - 40, 8, Stroke(DarkRed, 8)),
      Text("Date", 30, 205, AlignLeft, Black),
      Text("Day", 60, 205, AlignLeft, Black),
      Text("Subject", 100, 205, AlignLeft, Black) ]
  }

  /** One schedule row at offset `y`: date, day, subject. */
  function ScheduleRow(s: Subject, y: int): seq<DrawCmd> {
    [ Text(s.date, 30, y, AlignLeft, Black),
      Text(s.day, 60, y, AlignLeft, Black),
      Text(s.name, 100, y, AlignLeft, Black) ]
  }

  /** The schedule rows as the renderer draws them: a running offset that
      starts at 215 and moves down 8 per row. Row `i` lands at `215 + 8 i`
      and the offset ends `8 n` below where it started. */
  method LayOutScheduleRows(rows: seq<Subject>) returns (cmds: seq<DrawCmd>, scheduleY: int)
    ensures scheduleY == ScheduleTop + ScheduleRowHeight * |rows|
    ensures |cmds| == 3 * |rows|
    ensures forall i :: 0 <= i < |rows| ==>
      cmds[3 * i .. 3 * i + 3] == ScheduleRow(rows[i], ScheduleTop + ScheduleRowHeight * i)
  {
    cmds := [];
    scheduleY := ScheduleTop;
    var n := 0;
    while n < |rows|
      invariant 0 <= n <= |rows|
      invariant scheduleY == ScheduleTop + ScheduleRowHeight * n
      invariant |cmds| == 3 * n
      invariant forall i :: 0 <= i < n ==>
        cmds[3 * i .. 3 * i + 3] == ScheduleRow(rows[i], ScheduleTop + ScheduleRowHeight * i)
    {
      var next := cmds + ScheduleRow(rows[n], scheduleY);
      forall i | 0 <= i < n
        ensures next[3 * i .. 3 * i + 3] == ScheduleRow(rows[i], ScheduleTop + ScheduleRowHeight * i)
      {
        assert next[3 * i .. 3 * i + 3] == cmds[3 * i .. 3 * i + 3];
      }
      assert next[3 * n .. 3 * n + 3] == ScheduleRow(rows[n], scheduleY);
      cmds := next;
      scheduleY := scheduleY + ScheduleRowHeight;
      n := n + 1;
    }
  }

  /** The border drawn round the whole table once the rows are in. */
  function ScheduleBorder(pageWidth: int, scheduleY: int): DrawCmd {
    Rect(20, TableTop, pageWidth - 40, scheduleY - TableTop, Stroke(DarkRed, 8))
  }

  /** Where the signature section is anchored for a class label: ten below
      the last schedule row, or 215 when the class has no schedule. */
  function SignatureAnchor(classLabel: string): int {
    match ScheduleFor(classLabel)
    case Some(cs) => ScheduleTop + ScheduleRowHeight * |cs.subjects| + 10
    case None => SignatureFallbackY
  }

  /** The two signature rules with their captions; a readable signature
      image is placed just above the student's rule. Lines keep the 0.8
      stroke set for the schedule table. */
  function SignatureBlock(pageWidth: int, y: int, signature: Upload): (cmds: seq<DrawCmd>)
    ensures |cmds| >= 4
    ensures cmds[0] == Line(30, y, 80, y, Black, 8)
    ensures cmds[1] == Line(pageWidth - 80, y, pageWidth - 30, y, Black, 8)
    ensures cmds[2] == Text("Student's Signature", 55, y + 7, AlignCenter, Black)
    ensures cmds[3] == Text("Principal's Signature", pageWidth - 55, y + 7, AlignCenter, Black)
    ensures |cmds| == 5 <==> signature == Readable
    ensures signature == Readable ==> cmds[4] == Image(SignatureImage, 35, y - 12, 40, 12)
  {
    [ Line(30, y, 80, y, Black, 8),
      Line(pageWidth - 80, y, pageWidth - 30, y, Black, 8),
      Text("Student's Signature", 55, y + 7, AlignCenter, Black),
      Text("Principal's Signature", pageWidth - 55, y + 7, AlignCenter, Black) ]
    + (if signature == Readable then [Image(SignatureImage, 35, y - 12, 40, 12)] else [])
  }

  function Footer(pageWidth: int): seq<DrawCmd> {
    [Text(FooterText, Centre(pageWidth), 275, AlignCenter, MutedGrey)]
  }

  /** The download name `admit_card_<class>_<roll no>.pdf`. */
  function FileName(student: Student): string {
    "admit_card_" + student.className + "_" + student.rollNo + ".pdf"
  }

  /** The detail block of a student: Name, Class, Roll No, DOB (formatted)
      and Father's Name, one line apart from y=115. */
  function DetailBlock(student: Student, formatDate: string -> string): (cmds: seq<DrawCmd>)
    ensures |cmds| == 10
    ensures forall i :: 0 <= i < 5 ==>
      && cmds[2 * i] == Text(DetailFields(student, formatDate)[i].0 + ":", 28, 115 + 12 * i, AlignLeft, Black)
      && cmds[2 * i + 1] == Text(DetailFields(student, formatDate)[i].1, 75, 115 + 12 * i, AlignLeft, Black)
  {
    DetailRowPositions(DetailFields(student, formatDate), DetailTop);
    DetailRows(DetailFields(student, formatDate), DetailTop)
  }

  /** The schedule section for a class label: its rows 8 apart from y=215
      and a border of height 15 + 8 n round the table, or nothing at all
      for a class the table does not know; `signatureY` is where the
      signature section goes next. */
  /** The schedule section as drawn for `classLabel`: no rows and no
      border for a class the table does not know; otherwise three commands
      per sitting, sitting i at y = 215 + 8 i in table order, inside a
      border 15 + 8 n high. */
  predicate ScheduleLaidOut(classLabel: string, pageWidth: int, rowCmds: seq<DrawCmd>, border: seq<DrawCmd>) {
    && (ScheduleFor(classLabel).None? ==> rowCmds == [] && border == [])
    && (ScheduleFor(classLabel).Some? ==>
      var rows := ScheduleFor(classLabel).value.subjects;
      && |rowCmds| == 3 * |rows|
      && (forall i :: 0 <= i < |rows| ==> rowCmds[3 * i .. 3 * i + 3] == ScheduleRow(rows[i], ScheduleTop + ScheduleRowHeight * i))
      && border == [Rect(20, 200, pageWidth - 40, 15 + 8 * |rows|, Stroke(DarkRed, 8))])
  }

  method LayOutSchedule(classLabel: string, pageWidth: int)
    returns (rowCmds: seq<DrawCmd>, border: seq<DrawCmd>, signatureY: int)
    ensures signatureY == SignatureAnchor(classLabel)
    ensures ScheduleLaidOut(classLabel, pageWidth, rowCmds, border)
  {
    signatureY := SignatureFallbackY;
    rowCmds := [];
    border := [];
    var found := ScheduleFor(classLabel);
    if found.Some? {
      var scheduleY;
      rowCmds, scheduleY := LayOutScheduleRows(found.value.subjects);
      signatureY := scheduleY + 10;
      border := [ScheduleBorder(pageWidth, scheduleY)];
      assert border == [Rect(20, 200, pageWidth - 40, 15 + 8 * |found.value.subjects|, Stroke(DarkRed, 8))];
    }
  }

  /** The lower-case names the schedule object inherits from the object
      prototype. Looking one of them up yields an inherited value that has
      no `subjects`, and iterating over those subjects throws. Every other
      inherited name has a capital letter and cannot be produced by the
      lower-casing class key. */
  const InheritedKeys: set<string> := {"constructor", "__proto__"}

  /** The schedule lookup for this class label throws. */
  predicate LookupThrows(classLabel: string) {
    NormalizeClassKey(classLabel) in InheritedKeys
  }

  /** No label that finds a schedule makes the lookup throw. */
  lemma ThrowingLabelsHaveNoSchedule(classLabel: string)
    ensures LookupThrows(classLabel) ==> ScheduleFor(classLabel).None?
  {
    SevenClassKeys();
  }

  /** A class named "Constructor" reaches an inherited name. */
  lemma ConstructorLabelThrows()
    ensures LookupThrows("Constructor")
  {
    var key := Lower("Constructor");
    assert key == "constructor";
    assert Plain(key);
    PlainPrefix(key, "");
    assert key + "" == key;
  }

  /** `generateAdmitCard` for a loaded student. The crest is awaited through
      a promise that only settles on a successful load, so when the crest
      does not load no document is ever produced; nor is one when the
      schedule lookup throws or an image cannot be decoded, since neither
      throw is caught. */
  method GenerateAdmitCard(student: Student, photo: Upload, signature: Upload, crestLoads: bool,
                           pageWidth: int, pageHeight: int, formatDate: string -> string)
    returns (card: Option<AdmitCard>)
    ensures card.None? <==>
      !crestLoads || photo == Undecodable || signature == Undecodable || LookupThrows(student.className)
    ensures card.Some? ==> card.value.fileName == "admit_card_" + student.className + "_" + student.rollNo + ".pdf"
    ensures card.Some? ==> card.value.frame == Frame(pageWidth, pageHeight) && card.value.letterhead == Letterhead(pageWidth)
    ensures card.Some? ==> card.value.details == DetailBlock(student, formatDate)
    ensures card.Some? ==> card.value.scheduleHeader == ScheduleHeader(pageWidth) && card.value.footer == Footer(pageWidth)
    ensures card.Some? ==> card.value.photoBox == PhotoBox(pageWidth, photo)
    ensures card.Some? ==> (card.value.scheduleRows == [] <==> ScheduleFor(student.className).None?)
    ensures card.Some? ==> ScheduleLaidOut(student.className, pageWidth, card.value.scheduleRows, card.value.scheduleBorder)
    ensures card.Some? ==> card.value.signature == SignatureBlock(pageWidth, SignatureAnchor(student.className), signature)
  {
    if !crestLoads || photo == Undecodable {
      return None;
    }
    if LookupThrows(student.className) || signature == Undecodable {
      return None;
    }
    var rowCmds, border, signatureY := LayOutSchedule(student.className, pageWidth);
    card := Some(AdmitCard(
      Frame(pageWidth, pageHeight),
      Letterhead(pageWidth),
      DetailBlock(student, formatDate),
      PhotoBox(pageWidth, photo),
      ScheduleHeader(pageWidth),
      rowCmds,
      border,
      SignatureBlock(pageWidth, signatureY, signature),
      Footer(pageWidth),
      FileName(student)));
  }

  /** The signature anchor is 225 + 8 n for a class with n sittings and 215
      for a class the table does not know. */
  lemma SignatureAnchorValues(classLabel: string)
    ensures ScheduleFor(classLabel).None? ==> SignatureAnchor(classLabel) == 215
    ensures ScheduleFor(classLabel).Some? ==>
      SignatureAnchor(classLabel) == 225 + 8 * |ScheduleFor(classLabel).value.subjects|
  {
  }

  /** On an A4 page (210 by 297) the seven sittings of class 9 push the
      signature rule to y=281, below the footer line at 275, and its
      captions to y=288, past the outer border that ends at 287. The six
      sittings of class 10 keep its rule at y=273, above the footer line,
      but put its captions at y=280, below it. Every other class keeps its
      rule and its captions above the footer line. */
  lemma ClassNineSignatureOverflows()
    ensures SignatureAnchor("9") == 281
    ensures SignatureAnchor("9") + 7 > 297 - 10
    ensures forall classLabel :: NormalizeClassKey(classLabel) != "9" ==> SignatureAnchor(classLabel) < 275
    ensures SignatureAnchor("10") == 273 && SignatureAnchor("10") + 7 > 275
    ensures forall classLabel :: NormalizeClassKey(classLabel) != "9" && NormalizeClassKey(classLabel) != "10" ==>
      SignatureAnchor(classLabel) + 7 < 275
  {
    KeysAreCanonical();
    RowCounts();
    forall classLabel | NormalizeClassKey(classLabel) != "9" ensures SignatureAnchor(classLabel) < 275 {
      SignatureAnchorValues(classLabel);
    }
    forall classLabel | NormalizeClassKey(classLabel) != "9" && NormalizeClassKey(classLabel) != "10"
      ensures SignatureAnchor(classLabel) + 7 < 275
    {
      SignatureAnchorValues(classLabel);
    }
  }
}
