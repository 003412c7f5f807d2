/** The Pydantic schemas of notice uploads and updates. */
module NoticeSchemas {

  import opened Common
  import opened Text
  import opened Sections
  import opened Departments
  import opened Fields

  const SeriesNumberMessage := "Series must be a number between 19 and 25"

  /** `validate_series` of `TeacherNoticeCreate`: the text must parse as an
      integer in 19..25, and the original text is what is kept. */
  function CheckSeriesText(value: string): (r: Result<string>)
    ensures r.Ok? <==> ParseInt(value).Some? && 19 <= ParseInt(value).value <= 25
    ensures r.Ok? ==> r.value == value
    ensures ParseInt(value).None? ==> r == Err(ValueError(SeriesNumberMessage))
    ensures ParseInt(value).Some? && r.Err? ==> r == Err(ValueError(SeriesMessage))
  {
    match ParseInt(value)
    case None => Err(ValueError(SeriesNumberMessage))
    case Some(n) => if n < 19 || n > 25 then Err(ValueError(SeriesMessage)) else Ok(value)
  }

  /** On the decimal text of a number the text check accepts exactly what the
      integer check of the profile schemas accepts. */
  lemma SeriesTextAgrees(n: nat)
    ensures CheckSeriesText(NatToString(n)).Ok? <==> CheckSeries(n).Ok?
  {
    var s := NatToString(n);
    assert !IsSpace(s[0]) && !IsSpace(s[|s| - 1]);
    TrimStartFixed(s);
    TrimEndFixed(s);
    assert Strip(s) == s;
    DigitsValueOfNatToString(n);
    assert ParseInt(s) == Some(n);
  }

  /** The body of `TeacherNoticeCreate`. */
  datatype TeacherNoticeIn = TeacherNoticeIn(
    title: string,
    message: string,
    dept: string,
    sec: Option<string>,
    series: string)

  /** What a validated teacher notice satisfies. */
  predicate TeacherNoticeRules(p: TeacherNoticeIn)
  {
    LengthIn(p.title, 1, 200) && |p.message| >= 1 && p.dept in Depts12
    && CheckSeriesText(p.series).Ok? && (p.sec.None? || IsSectionLetter(p.sec.value))
  }

  /** `TeacherNoticeCreate`: title 1..200 characters, a non-empty message,
      dept in the twelve-department list (upper-cased), series a number in
      19..25 (kept as sent) and the normalising section check. */
  function ValidateTeacherCreate(p: TeacherNoticeIn): (r: Result<TeacherNoticeIn>)
    ensures r.Ok? <==> LengthIn(p.title, 1, 200) && |p.message| >= 1 && Upper(p.dept) in Depts12
                       && CheckSeriesText(p.series).Ok? && SchemaSection(p.sec).Ok?
    ensures r.Ok? ==> TeacherNoticeRules(r.value)
    ensures r.Ok? ==> r.value == p.(dept := Upper(p.dept), sec := SchemaSection(p.sec).value)
  {
    var title :- CheckLength("title", p.title, 1, 200);
    var message :- CheckLength("notice_message", p.message, 1, |p.message| + 1);
    var dept :- CheckDept(p.dept, Depts12);
    var series :- CheckSeriesText(p.series);
    var sec :- SchemaSection(p.sec);
    Ok(p.(dept := dept, sec := sec))
  }

  /** A validated notice passes again unchanged. */
  lemma ValidateTeacherCreateIdempotent(p: TeacherNoticeIn)
    requires ValidateTeacherCreate(p).Ok?
    ensures ValidateTeacherCreate(ValidateTeacherCreate(p).value) == ValidateTeacherCreate(p)
  {
    var q := ValidateTeacherCreate(p).value;
    CheckDeptCaseInsensitive(p.dept, Depts12);
    StrictImpliesSchema(q.sec);
  }

  /** The body of `CRNoticeCreate`: only a title and a message; the audience
      comes from the CR's profile. */
  datatype CrNoticeIn = CrNoticeIn(title: string, message: string)

  function ValidateCrCreate(p: CrNoticeIn): (r: Result<CrNoticeIn>)
    ensures r.Ok? <==> LengthIn(p.title, 1, 200) && |p.message| >= 1
    ensures r.Ok? ==> r.value == p
  {
    var title :- CheckLength("title", p.title, 1, 200);
    var message :- CheckLength("notice_message", p.message, 1, |p.message| + 1);
    Ok(p)
  }

  /** The body of `TeacherNoticeUpdate`: every field optional. */
  datatype TeacherNoticeUpdateIn = TeacherNoticeUpdateIn(
    title: Option<string>,
    message: Option<string>,
    dept: Option<string>,
    sec: Option<string>,
    series: Option<string>)

  /** `TeacherNoticeUpdate`: the bounds on title and message when given and
      the normalising section check; dept and series are not checked. */
  function ValidateTeacherUpdate(p: TeacherNoticeUpdateIn): (r: Result<TeacherNoticeUpdateIn>)
    ensures r.Ok? <==> CheckOptLength("title", p.title, 1, 200).Ok?
                       && (p.message.None? || |p.message.value| >= 1) && SchemaSection(p.sec).Ok?
    ensures r.Ok? ==> r.value == p.(sec := SchemaSection(p.sec).value)
  {
    var title :- CheckOptLength("title", p.title, 1, 200);
    var message :- if p.message.None? then Ok(None)
                   else CheckOptLength("notice_message", p.message, 1, |p.message.value| + 1);
    var sec :- SchemaSection(p.sec);
    Ok(p.(sec := sec))
  }

  /** An update may carry any dept and series at all, including ones the
      create schema refuses. */
  lemma UpdateLeavesTargetUnchecked(p: TeacherNoticeUpdateIn, dept: string, series: string)
    requires ValidateTeacherUpdate(p).Ok?
    ensures ValidateTeacherUpdate(p.(dept := Some(dept), series := Some(series))).Ok?
    ensures ValidateTeacherUpdate(p.(dept := Some(dept), series := Some(series))).value.dept == Some(dept)
  {
  }

  /** A null spelling sent as the new section arrives as None, the same as
      leaving the section out. */
  lemma UpdateNullSectionIsAbsent(p: TeacherNoticeUpdateIn)
    requires p.sec.Some? && NullSpelling(p.sec.value)
    requires ValidateTeacherUpdate(p).Ok?
    ensures ValidateTeacherUpdate(p).value.sec.None?
  {
    NullSpellingIsNoSection(p.sec.value);
  }

  /** The body of `CRNoticeUpdate`. */
  datatype CrNoticeUpdateIn = CrNoticeUpdateIn(title: Option<string>, message: Option<string>)

  function ValidateCrUpdate(p: CrNoticeUpdateIn): (r: Result<CrNoticeUpdateIn>)
    ensures r.Ok? <==> (p.title.None? || LengthIn(p.title.value, 1, 200))
                       && (p.message.None? || |p.message.value| >= 1)
    ensures r.Ok? ==> r.value == p
  {
    var title :- CheckOptLength("title", p.title, 1, 200);
    var message :- if p.message.None? then Ok(None)
                   else CheckOptLength("notice_message", p.message, 1, |p.message.value| + 1);
    Ok(p)
  }
}
