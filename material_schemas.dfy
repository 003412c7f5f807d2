/** The Pydantic schemas of the four kinds of course material a CR uploads:
    class notes, lecture slides, CT questions and semester questions. The
    four share drive_url, course_code and course_name; class notes and
    slides add a topic, class notes a writer, CT questions a CT number and
    semester questions an exam year. URL syntax (`HttpUrl`) is not checked
    here; the URL is kept as text. */
module MaterialSchemas {

  import opened Common
  import opened Text
  import opened Departments
  import opened Fields

  datatype Kind = ClassNote | LectureSlide | CtQuestion | SemesterQuestion

  predicate HasTopic(k: Kind) { k == ClassNote || k == LectureSlide }
  predicate HasWriter(k: Kind) { k == ClassNote }
  predicate HasCtNo(k: Kind) { k == CtQuestion }
  predicate HasYear(k: Kind) { k == SemesterQuestion }

  /** A create or update body; a field the kind does not have, or that an
      update leaves out, is None. */
  datatype MaterialIn = MaterialIn(
    driveUrl: Option<string>,
    courseCode: Option<string>,
    courseName: Option<string>,
    topic: Option<string>,
    writtenBy: Option<string>,
    ctNo: Option<int>,
    year: Option<int>)

  /** What Pydantic keeps of a body: the fields of the kind (others are
      ignored). */
  function OfKind(k: Kind, m: MaterialIn): (r: MaterialIn)
    ensures r.driveUrl == m.driveUrl && r.courseCode == m.courseCode && r.courseName == m.courseName
    ensures r.topic == (if HasTopic(k) then m.topic else None)
    ensures r.writtenBy == (if HasWriter(k) then m.writtenBy else None)
    ensures r.ctNo == (if HasCtNo(k) then m.ctNo else None)
    ensures r.year == (if HasYear(k) then m.year else None)
  {
    m.(topic := if HasTopic(k) then m.topic else None,
       writtenBy := if HasWriter(k) then m.writtenBy else None,
       ctNo := if HasCtNo(k) then m.ctNo else None,
       year := if HasYear(k) then m.year else None)
  }

  /** The per-field bounds, each on a field that is present. */
  predicate Bounded(m: MaterialIn)
  {
    (m.courseCode.None? || LengthIn(m.courseCode.value, 1, 50))
    && (m.courseName.None? || LengthIn(m.courseName.value, 1, 200))
    && (m.topic.None? || LengthIn(m.topic.value, 1, 200))
    && (m.writtenBy.None? || LengthIn(m.writtenBy.value, 1, 120))
    && (m.ctNo.None? || 1 <= m.ctNo.value <= 20)
    && (m.year.None? || 1990 <= m.year.value <= 2100)
  }

  /** The fields a create body of the kind must carry. */
  predicate Complete(k: Kind, m: MaterialIn)
  {
    m.driveUrl.Some? && m.courseCode.Some? && m.courseName.Some?
    && (HasTopic(k) ==> m.topic.Some?) && (HasWriter(k) ==> m.writtenBy.Some?)
    && (HasCtNo(k) ==> m.ctNo.Some?) && (HasYear(k) ==> m.year.Some?)
  }

  function CheckBounds(m: MaterialIn): (r: Result<MaterialIn>)
    ensures r.Ok? <==> Bounded(m)
    ensures r.Ok? ==> r.value == m
  {
    var _ :- CheckOptLength("course_code", m.courseCode, 1, 50);
    var _ :- CheckOptLength("course_name", m.courseName, 1, 200);
    var _ :- CheckOptLength("topic", m.topic, 1, 200);
    var _ :- CheckOptLength("written_by", m.writtenBy, 1, 120);
    var _ :- CheckOptRange("ct_no", m.ctNo, 1, 20);
    var _ :- CheckOptRange("year", m.year, 1990, 2100);
    Ok(m)
  }

  /** `CRClassNoteCreate`, `CRLectureSlideCreate`, `CRCTQuestionCreate` and
      `CRSemesterQuestionCreate`: the kind's fields are required and bounded,
      and the course code is upper-cased. */
  function ValidateCreate(k: Kind, m: MaterialIn): (r: Result<MaterialIn>)
    ensures r.Ok? <==> Complete(k, m) && Bounded(OfKind(k, m))
    ensures r.Ok? ==> Complete(k, r.value) && Bounded(r.value)
    ensures r.Ok? ==> r.value == OfKind(k, m).(courseCode := Some(Upper(m.courseCode.value)))
  {
    var _ :- Required("drive_url", m.driveUrl);
    var _ :- Required("course_code", m.courseCode);
    var _ :- Required("course_name", m.courseName);
    var _ :- if HasTopic(k) then Required("topic", m.topic) else Ok("");
    var _ :- if HasWriter(k) then Required("written_by", m.writtenBy) else Ok("");
    var _ :- if HasCtNo(k) then Required("ct_no", m.ctNo) else Ok(0);
    var _ :- if HasYear(k) then Required("year", m.year) else Ok(0);
    var n :- CheckBounds(OfKind(k, m));
    Ok(n.(courseCode := Some(Upper(n.courseCode.value))))
  }

  /** Upper-casing keeps the length, so the bounds still hold after it. */
  lemma CreateKeepsCodeLength(k: Kind, m: MaterialIn)
    requires ValidateCreate(k, m).Ok?
    ensures |ValidateCreate(k, m).value.courseCode.value| == |m.courseCode.value|
  {
  }

  /** A validated create body passes again unchanged. */
  lemma ValidateCreateIdempotent(k: Kind, m: MaterialIn)
    requires ValidateCreate(k, m).Ok?
    ensures ValidateCreate(k, ValidateCreate(k, m).value) == ValidateCreate(k, m)
  {
    UpperIdempotent(m.courseCode.value);
  }

  /** The update schemas: every field optional, with the create bounds; the
      course code is NOT upper-cased here (the router does it). */
  function ValidateUpdate(k: Kind, m: MaterialIn): (r: Result<MaterialIn>)
    ensures r.Ok? <==> Bounded(OfKind(k, m))
    ensures r.Ok? ==> r.value == OfKind(k, m)
  {
    CheckBounds(OfKind(k, m))
  }

  /** Every body the create schema accepts, the update schema accepts too,
      except that it keeps the course code as sent. */
  lemma CreateImpliesUpdate(k: Kind, m: MaterialIn)
    requires ValidateCreate(k, m).Ok?
    ensures ValidateUpdate(k, m).Ok?
    ensures ValidateCreate(k, m).value == ValidateUpdate(k, m).value.(courseCode := Some(Upper(m.courseCode.value)))
  {
  }
}
