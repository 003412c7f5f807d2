/** The Pydantic profile schemas of students, teachers and CRs, and the
    login payloads. E-mail syntax (`EmailStr`) is not
    checked here. */
module ProfileSchemas {

  import opened Common
  import opened Text
  import opened Sections
  import opened Departments
  import opened Fields

  // ---------------------------------------------------------------------
  // Students

  /** The fields of `StudentBaseSchema`, each absent or present. */
  datatype StudentFields = StudentFields(
    fullName: Option<string>,
    rollNo: Option<string>,
    dept: Option<string>,
    section: Option<string>,
    series: Option<int>,
    mobileNo: Option<string>,
    email: Option<string>,
    profileImage: Option<string>)

  /** What a validated student record satisfies. */
  predicate StudentRules(f: StudentFields)
  {
    (f.dept.None? || f.dept.value in Depts14)
    && (f.series.None? || 19 <= f.series.value <= 25)
    && (f.section.None? || IsSectionLetter(f.section.value))
  }

  /** `StudentBaseSchema`: dept is checked against the fourteen departments
      and upper-cased, series is 19..25, and section goes through the
      normalising check. */
  function ValidateStudentBase(f: StudentFields): (r: Result<StudentFields>)
    ensures r.Ok? <==> CheckOptDept(f.dept, Depts14).Ok? && CheckOptSeries(f.series).Ok? && SchemaSection(f.section).Ok?
    ensures r.Ok? ==> StudentRules(r.value)
    ensures r.Ok? ==> r.value.fullName == f.fullName && r.value.rollNo == f.rollNo && r.value.series == f.series
                      && r.value.mobileNo == f.mobileNo && r.value.email == f.email
                      && r.value.profileImage == f.profileImage
    ensures r.Ok? && f.dept.Some? ==> r.value.dept == Some(Upper(f.dept.value))
    ensures r.Ok? && f.section.Some? ==> r.value.section == SectionOf(f.section.value)
  {
    var dept :- CheckOptDept(f.dept, Depts14);
    var series :- CheckOptSeries(f.series);
    var section :- SchemaSection(f.section);
    Ok(f.(dept := dept, series := series, section := section))
  }

  /** Validating a validated record again changes nothing. */
  lemma ValidateStudentBaseIdempotent(f: StudentFields)
    requires ValidateStudentBase(f).Ok?
    ensures ValidateStudentBase(ValidateStudentBase(f).value) == ValidateStudentBase(f)
  {
    var g := ValidateStudentBase(f).value;
    if f.dept.Some? {
      CheckDeptCaseInsensitive(f.dept.value, Depts14);
    }
    StrictImpliesSchema(g.section);
  }

  /** `StudentSchema`: the base rules, and full_name, dept, series, email and
      mobile_no must be present; section stays optional. */
  function ValidateStudent(f: StudentFields): (r: Result<StudentFields>)
    ensures r.Ok? <==> ValidateStudentBase(f).Ok? && f.fullName.Some? && f.dept.Some? && f.series.Some?
                       && f.email.Some? && f.mobileNo.Some?
    ensures r.Ok? ==> r == ValidateStudentBase(f)
  {
    var _ :- Required("full_name", f.fullName);
    var _ :- Required("dept", f.dept);
    var _ :- Required("series", f.series);
    var _ :- Required("email", f.email);
    var _ :- Required("mobile_no", f.mobileNo);
    ValidateStudentBase(f)
  }

  // ---------------------------------------------------------------------
  // Teachers

  const Designations: seq<string> := ["professor", "associate professor", "assistant professor", "lecturer"]

  /** `validate_designation`: lower-cased, one of the four titles. */
  function CheckDesignation(value: string): (r: Result<string>)
    ensures r.Ok? <==> Lower(value) in Designations
    ensures r.Ok? ==> r.value == Lower(value)
  {
    if Lower(value) in Designations then Ok(Lower(value))
    else Err(ValueError("Designation must be one of " + ListRepr(Designations)))
  }

  datatype TeacherFields = TeacherFields(
    fullName: Option<string>,
    designation: Option<string>,
    dept: Option<string>,
    joiningYear: Option<int>,
    mobileNo: Option<string>,
    email: Option<string>,
    profileImage: Option<string>)

  const YearMessage := "Joining year looks invalid"

  /** `TeacherBaseSchema`: designation and dept are checked and normalised,
      the joining year is 1990..2100. */
  function ValidateTeacherBase(f: TeacherFields): (r: Result<TeacherFields>)
    ensures r.Ok? <==> (f.designation.None? || Lower(f.designation.value) in Designations)
                       && (f.dept.None? || Upper(f.dept.value) in Depts14)
                       && (f.joiningYear.None? || 1990 <= f.joiningYear.value <= 2100)
    ensures r.Ok? ==> (r.value.designation.None? || r.value.designation.value in Designations)
                      && (r.value.dept.None? || r.value.dept.value in Depts14)
    ensures r.Ok? ==> r.value.fullName == f.fullName && r.value.joiningYear == f.joiningYear
                      && r.value.mobileNo == f.mobileNo && r.value.email == f.email
                      && r.value.profileImage == f.profileImage
    ensures r.Ok? ==> r.value.designation == (if f.designation.None? then None else Some(Lower(f.designation.value)))
    ensures r.Ok? ==> r.value.dept == (if f.dept.None? then None else Some(Upper(f.dept.value)))
  {
    var designation :- if f.designation.None? then Ok(None)
                       else var d :- CheckDesignation(f.designation.value); Ok(Some(d));
    var dept :- CheckOptDept(f.dept, Depts14);
    var year :- if f.joiningYear.None? || 1990 <= f.joiningYear.value <= 2100 then Ok(f.joiningYear)
                else Err(ValueError(YearMessage));
    Ok(f.(designation := designation, dept := dept, joiningYear := year))
  }

  /** `TeacherSchema`: every field but profile_image is required. */
  function ValidateTeacher(f: TeacherFields): (r: Result<TeacherFields>)
    ensures r.Ok? <==> ValidateTeacherBase(f).Ok? && f.fullName.Some? && f.designation.Some? && f.dept.Some?
                       && f.joiningYear.Some? && f.email.Some? && f.mobileNo.Some?
    ensures r.Ok? ==> r == ValidateTeacherBase(f)
  {
    var _ :- Required("full_name", f.fullName);
    var _ :- Required("designation", f.designation);
    var _ :- Required("dept", f.dept);
    var _ :- Required("joining_year", f.joiningYear);
    var _ :- Required("email", f.email);
    var _ :- Required("mobile_no", f.mobileNo);
    ValidateTeacherBase(f)
  }

  // ---------------------------------------------------------------------
  // CRs

  const CrNumbers: seq<string> := ["cr-1", "cr-2", "cr-3"]

  /** `validate_cr_no`: stripped, lower-cased, one of cr-1..cr-3. */
  function CheckCrNo(value: Option<string>): (r: Result<Option<string>>)
    ensures value.None? ==> r == Ok(None)
    ensures value.Some? ==> (r.Ok? <==> Lower(Strip(value.value)) in CrNumbers)
    ensures value.Some? && r.Ok? ==> r.value == Some(Lower(Strip(value.value)))
  {
    match value
    case None => Ok(None)
    case Some(v) =>
      var cr := Lower(Strip(v));
      if cr in CrNumbers then Ok(Some(cr)) else Err(ValueError("cr_no must be one of " + ListRepr(CrNumbers)))
  }

  /** A normalised cr_no passes again unchanged. */
  lemma CheckCrNoIdempotent(value: Option<string>)
    requires CheckCrNo(value).Ok? && value.Some?
    ensures CheckCrNo(CheckCrNo(value).value) == CheckCrNo(value)
  {
    var cr := CheckCrNo(value).value.value;
    assert cr in CrNumbers;
    assert |cr| == 4 && cr[0] == 'c' && cr[1] == 'r' && cr[2] == '-' && '1' <= cr[3] <= '3';
    assert !IsSpace(cr[0]) && !IsSpace(cr[3]);
    TrimStartFixed(cr);
    TrimEndFixed(cr);
    assert Lower(cr) == cr;
  }

  /** `CRBaseSchema`: the student rules plus cr_no. */
  function ValidateCrBase(f: StudentFields, crNo: Option<string>): (r: Result<(StudentFields, Option<string>)>)
    ensures r.Ok? <==> ValidateStudentBase(f).Ok? && CheckCrNo(crNo).Ok?
    ensures r.Ok? ==> r.value.0 == ValidateStudentBase(f).value && r.value.1 == CheckCrNo(crNo).value
  {
    var s :- ValidateStudentBase(f);
    var c :- CheckCrNo(crNo);
    Ok((s, c))
  }

  /** `CRSchema`: full_name, dept, series, mobile_no, email and cr_no are
      required; section stays optional. */
  function ValidateCr(f: StudentFields, crNo: Option<string>): (r: Result<(StudentFields, Option<string>)>)
    ensures r.Ok? <==> ValidateCrBase(f, crNo).Ok? && f.fullName.Some? && f.dept.Some? && f.series.Some?
                       && f.mobileNo.Some? && f.email.Some? && crNo.Some?
    ensures r.Ok? ==> r == ValidateCrBase(f, crNo)
    ensures r.Ok? ==> r.value.1.Some? && r.value.1.value in CrNumbers
  {
    var _ :- Required("full_name", f.fullName);
    var _ :- Required("dept", f.dept);
    var _ :- Required("series", f.series);
    var _ :- Required("mobile_no", f.mobileNo);
    var _ :- Required("email", f.email);
    var _ :- Required("cr_no", crNo);
    ValidateCrBase(f, crNo)
  }

  // ---------------------------------------------------------------------
  // Login

  /** The login schemas: the password has at least 3 characters. */
  function ValidateLoginPassword(password: string): (r: Result<string>)
    ensures r.Ok? <==> |password| >= 3
    ensures r.Ok? ==> r.value == password
  {
    if |password| >= 3 then Ok(password) else Err(ValueError("password: too short"))
  }
}
