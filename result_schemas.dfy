/** The Pydantic schemas of result sheets and their entries. */
module ResultSchemas {

  import opened Common
  import opened Text
  import opened Sections
  import opened Departments
  import opened Fields

  // ---------------------------------------------------------------------
  // Entries

  const MarksMessage := "marks must be a number or 'A' for absent"

  /** A stored mark: "A" or a non-empty run of digits. */
  predicate IsMark(m: string)
  {
    IsAbsent(m) || IsDigitStr(m)
  }

  /** The absent mark "A". */
  predicate IsAbsent(m: string)
  {
    |m| == 1 && m[0] == 'A'
  }

  /** `validate_marks`: stripped and upper-cased, then "A" or digits only. */
  function ValidateMarks(v: string): (r: Result<string>)
    ensures r.Ok? <==> IsMark(Upper(Strip(v)))
    ensures r.Ok? ==> r.value == Upper(Strip(v)) && IsMark(r.value)
    ensures r.Err? ==> r.error == ValueError(MarksMessage)
  {
    var m := Upper(Strip(v));
    if IsAbsent(m) then Ok(m)
    else if !IsDigitStr(m) then Err(ValueError(MarksMessage))
    else Ok(m)
  }

  /** A normalised mark passes again unchanged. */
  lemma ValidateMarksIdempotent(v: string)
    requires ValidateMarks(v).Ok?
    ensures ValidateMarks(ValidateMarks(v).value) == ValidateMarks(v)
  {
    CleanMarkFixed(ValidateMarks(v).value);
  }

  lemma CleanMarkFixed(m: string)
    requires IsMark(m)
    ensures Upper(Strip(m)) == m
  {
    assert !IsSpace(m[0]) && !IsSpace(m[|m| - 1]);
    TrimStartFixed(m);
    TrimEndFixed(m);
    assert Strip(m) == m;
    assert NoLower(m) by {
      forall c | c in m ensures !IsLower(c) {
        var i :| 0 <= i < |m| && m[i] == c;
      }
    }
    UpperOfNoLower(m);
  }

  datatype EntryIn = EntryIn(rollNo: string, marks: string)

  /** `ResultEntryCreate`: a non-empty roll and a valid mark. */
  function ValidateEntry(e: EntryIn): (r: Result<EntryIn>)
    ensures r.Ok? <==> |e.rollNo| >= 1 && ValidateMarks(e.marks).Ok?
    ensures r.Ok? ==> r.value == EntryIn(e.rollNo, ValidateMarks(e.marks).value)
  {
    var roll :- CheckLength("roll_no", e.rollNo, 1, |e.rollNo| + 1);
    var marks :- ValidateMarks(e.marks);
    Ok(EntryIn(roll, marks))
  }

  /** The entries, each validated. */
  function ValidateEntries(es: seq<EntryIn>): (r: Result<seq<EntryIn>>)
    ensures r.Ok? <==> forall i :: 0 <= i < |es| ==> ValidateEntry(es[i]).Ok?
    ensures r.Ok? ==> |r.value| == |es| && forall i :: 0 <= i < |es| ==> r.value[i] == ValidateEntry(es[i]).value
  {
    if es == [] then Ok([])
    else
      var first :- ValidateEntry(es[0]);
      var rest :- ValidateEntries(es[1..]);
      Ok([first] + rest)
  }

  /** `ResultSheetBatchUpload`: a non-empty list of valid entries. */
  function ValidateBatch(es: seq<EntryIn>): (r: Result<seq<EntryIn>>)
    ensures r.Ok? <==> |es| > 0 && ValidateEntries(es).Ok?
    ensures r.Ok? ==> r == ValidateEntries(es)
    ensures |es| == 0 ==> r == Err(ValueError("entries cannot be empty"))
  {
    var entries :- ValidateEntries(es);
    if |entries| == 0 then Err(ValueError("entries cannot be empty")) else Ok(entries)
  }

  // ---------------------------------------------------------------------
  // Sheets

  datatype SheetIn = SheetIn(
    ctNo: Option<int>,
    courseCode: string,
    courseName: string,
    dept: string,
    section: Option<string>,
    series: int,
    startingRoll: Option<string>,
    endingRoll: Option<string>)

  /** What a validated sheet satisfies. */
  predicate SheetRules(s: SheetIn)
  {
    (s.ctNo.None? || s.ctNo.value >= 1)
    && LengthIn(s.courseCode, 2, 50) && LengthIn(s.courseName, 2, 120)
    && s.dept in Depts14 && (s.section.None? || IsSectionLetter(s.section.value))
    && 19 <= s.series <= 25
  }

  /** `ResultSheetCreate`: ct_no is at least 1 when given, the lengths are
      bounded, dept (2..20 characters) must be one of the fourteen
      departments and is upper-cased, section is exactly None, "A", "B" or
      "C", and series is 19..25. */
  function ValidateSheet(s: SheetIn): (r: Result<SheetIn>)
    ensures r.Ok? <==> (s.ctNo.None? || s.ctNo.value >= 1) && LengthIn(s.courseCode, 2, 50)
                       && LengthIn(s.courseName, 2, 120) && LengthIn(s.dept, 2, 20)
                       && Upper(s.dept) in Depts14 && StrictSection(s.section).Ok? && 19 <= s.series <= 25
    ensures r.Ok? ==> SheetRules(r.value) && r.value == s.(dept := Upper(s.dept))
  {
    var ct :- if s.ctNo.None? || s.ctNo.value >= 1 then Ok(s.ctNo) else Err(ValueError("ct_no: must be >= 1"));
    var code :- CheckLength("course_code", s.courseCode, 2, 50);
    var name :- CheckLength("course_name", s.courseName, 2, 120);
    var d :- CheckLength("dept", s.dept, 2, 20);
    var dept :- CheckDept(d, Depts14);
    var section :- StrictSection(s.section);
    var series :- CheckSeries(s.series);
    Ok(s.(dept := dept))
  }
}
