/** The older profile schemas (app/schemas/student_schemas.py,
    app/schemas/teacher_schema.py and app/schemas/cr_schemas.py). They check the same things as the
    backend schemas against the twelve-department list, but return every
    value exactly as given, and the section check is strict. */
module LegacySchemas {

  import opened Common
  import opened Text
  import opened Sections
  import opened Departments
  import opened Fields
  import ProfileSchemas

  datatype LegacyStudent = LegacyStudent(
    neuraId: Option<string>,
    fullName: Option<string>,
    rollNo: Option<string>,
    dept: Option<string>,
    section: Option<string>,
    series: Option<int>,
    mobileNo: Option<string>,
    email: Option<string>,
    profileImage: Option<string>)

  /** The older `StudentBaseSchema`: validation never changes a value. */
  function ValidateStudentBase(f: LegacyStudent): (r: Result<LegacyStudent>)
    ensures r.Ok? <==> (f.dept.None? || Upper(f.dept.value) in Depts12)
                       && (f.series.None? || 19 <= f.series.value <= 25)
                       && (f.section.None? || IsSectionLetter(f.section.value))
    ensures r.Ok? ==> r.value == f
  {
    var _ :- if f.dept.None? then Ok("") else CheckDeptKeepCase(f.dept.value, Depts12);
    var _ :- CheckOptSeries(f.series);
    var _ :- StrictSection(f.section);
    Ok(f)
  }

  /** The older `StudentSchema`: neura_id, full_name, roll_no, dept, series,
      email, mobile_no and section are all required. */
  function ValidateStudent(f: LegacyStudent): (r: Result<LegacyStudent>)
    ensures r.Ok? <==> ValidateStudentBase(f).Ok? && f.neuraId.Some? && f.fullName.Some? && f.rollNo.Some?
                       && f.dept.Some? && f.series.Some? && f.email.Some? && f.mobileNo.Some? && f.section.Some?
    ensures r.Ok? ==> r.value == f
  {
    var _ :- Required("neura_id", f.neuraId);
    var _ :- Required("full_name", f.fullName);
    var _ :- Required("roll_no", f.rollNo);
    var _ :- Required("dept", f.dept);
    var _ :- Required("series", f.series);
    var _ :- Required("email", f.email);
    var _ :- Required("mobile_no", f.mobileNo);
    var _ :- Required("section", f.section);
    ValidateStudentBase(f)
  }

  /** The older `CRSchema`: the student schema with `neura_id` retyped as
      None, so a given neura id is refused, plus a required neura_cr_id and a
      required cr_no that is not checked further. */
  function ValidateCr(f: LegacyStudent, neuraCrId: Option<string>, crNo: Option<string>)
    : (r: Result<(LegacyStudent, string, string)>)
    ensures r.Ok? <==> f.neuraId.None? && neuraCrId.Some? && crNo.Some? && ValidateStudentBase(f).Ok?
                       && f.fullName.Some? && f.rollNo.Some? && f.dept.Some? && f.series.Some?
                       && f.email.Some? && f.mobileNo.Some? && f.section.Some?
    ensures r.Ok? ==> r.value == (f, neuraCrId.value, crNo.value)
  {
    var _ :- if f.neuraId.None? then Ok(()) else Err(ValueError("neura_id: input should be None"));
    var id :- Required("neura_cr_id", neuraCrId);
    var cr :- Required("cr_no", crNo);
    var _ :- Required("full_name", f.fullName);
    var _ :- Required("roll_no", f.rollNo);
    var _ :- Required("dept", f.dept);
    var _ :- Required("series", f.series);
    var _ :- Required("email", f.email);
    var _ :- Required("mobile_no", f.mobileNo);
    var _ :- Required("section", f.section);
    var g :- ValidateStudentBase(f);
    Ok((g, id, cr))
  }

  /** The older schema takes any CR number text, e.g. "cr-9", which the
      backend schema refuses. */
  lemma LegacyCrNoUnchecked(f: LegacyStudent, id: string)
    requires ValidateCr(f, Some(id), Some("cr-1")).Ok?
    ensures ValidateCr(f, Some(id), Some("cr-9")).Ok?
    ensures ProfileSchemas.CheckCrNo(Some("cr-9")).Err?
  {
    var t := "cr-9";
    assert |t| == 4 && !IsSpace(t[0]) && !IsSpace(t[3]);
    TrimStartFixed(t);
    TrimEndFixed(t);
    assert Lower(t) == t;
    assert t != "cr-1" && t != "cr-2" && t != "cr-3";
  }

  /** A field declared `Optional[str]` with no default: the key may be
      missing, present with null, or present with text. */
  datatype Nullable = Missing | Null | Text(text: string)

  /** The key must be present; null is accepted. */
  function RequiredKey(name: string, v: Nullable): (r: Result<Nullable>)
    ensures r.Ok? <==> !v.Missing?
    ensures r.Ok? ==> r.value == v
  {
    if v.Missing? then Err(ValueError(name + ": field required")) else Ok(v)
  }

  datatype LegacyTeacher = LegacyTeacher(
    fullName: Option<string>,
    designation: Option<string>,
    dept: Option<string>,
    joiningYear: Option<int>,
    mobileNo: Nullable,
    email: Option<string>,
    neuraTeacherId: Option<string>,
    profileImage: Nullable)

  /** The older `TeacherSchema`: the designation and dept tests ignore case
      and return the value unchanged; full_name, designation, dept,
      joining_year, email and neura_teacher_id are required, and mobile_no
      and profile_image must be present, though either may be null. */
  function ValidateTeacher(f: LegacyTeacher): (r: Result<LegacyTeacher>)
    ensures r.Ok? <==> f.fullName.Some? && f.designation.Some? && f.dept.Some? && f.joiningYear.Some?
                       && f.email.Some? && f.neuraTeacherId.Some?
                       && !f.mobileNo.Missing? && !f.profileImage.Missing?
                       && Lower(f.designation.value) in ProfileSchemas.Designations
                       && Upper(f.dept.value) in Depts12
    ensures r.Ok? ==> r.value == f
  {
    var _ :- Required("full_name", f.fullName);
    var designation :- Required("designation", f.designation);
    var dept :- Required("dept", f.dept);
    var _ :- Required("joining_year", f.joiningYear);
    var _ :- RequiredKey("mobile_no", f.mobileNo);
    var _ :- Required("email", f.email);
    var _ :- Required("neura_teacher_id", f.neuraTeacherId);
    var _ :- RequiredKey("profile_image", f.profileImage);
    var _ :- ProfileSchemas.CheckDesignation(designation);
    var _ :- CheckDeptKeepCase(dept, Depts12);
    Ok(f)
  }

  /** Where the backend schema stores "CSE" for an input "cse", the older
      one keeps "cse". */
  lemma LegacyKeepsCase(f: LegacyStudent, g: ProfileSchemas.StudentFields)
    requires f.dept.Some? && g.dept == f.dept && Upper(f.dept.value) in Depts12 && Upper(f.dept.value) in Depts14
    requires ValidateStudentBase(f).Ok? && ProfileSchemas.ValidateStudentBase(g).Ok?
    ensures ValidateStudentBase(f).value.dept == f.dept
    ensures ProfileSchemas.ValidateStudentBase(g).value.dept == Some(Upper(f.dept.value))
  {
  }
}
