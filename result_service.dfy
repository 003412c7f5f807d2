/** `result_service`: the owned-sheet lookup and the history title of a
    result sheet. */
module ResultService {

  import opened Common
  import opened Text
  import opened ResultRecords
  import opened ResultSchemas

  const SheetNotFound := "Result sheet not found"

  /** The sheet has this id and was created by this teacher. */
  predicate OwnedBy(s: Sheet, sheetId: string, teacherId: string)
  {
    s.id == sheetId && s.createdByTeacherId == Some(teacherId)
  }

  /** `get_teacher_sheet_or_404`: the sheet only when both its id and its
      creator match; 404 otherwise. */
  function TeacherSheet(sheets: seq<Sheet>, sheetId: string, teacherId: string): (r: Result<Sheet>)
    ensures r.Ok? <==> exists s :: s in sheets && OwnedBy(s, sheetId, teacherId)
    ensures r.Ok? ==> r.value in sheets && OwnedBy(r.value, sheetId, teacherId)
    ensures r.Err? ==> r.error == HttpError(404, SheetNotFound)
  {
    if sheets == [] then Err(HttpError(404, SheetNotFound))
    else if OwnedBy(sheets[0], sheetId, teacherId) then Ok(sheets[0])
    else
      assert forall s :: s in sheets <==> s == sheets[0] || s in sheets[1..];
      TeacherSheet(sheets[1..], sheetId, teacherId)
  }

  /** A teacher never gets another teacher's sheet, even by its id. */
  lemma OtherTeachersSheetHidden(sheets: seq<Sheet>, sheetId: string, teacherId: string)
    requires forall s :: s in sheets && s.id == sheetId ==> s.createdByTeacherId != Some(teacherId)
    ensures TeacherSheet(sheets, sheetId, teacherId) == Err(HttpError(404, SheetNotFound))
  {
  }

  /** The CT part: "CT-n", or "CT--" without a CT number. */
  function CtPart(ct: Option<int>): (r: string)
    ensures |r| >= 4 && r[..3] == "CT-"
  {
    if ct.Some? then "CT-" + IntToString(ct.value) else "CT--"
  }

  /** Printing is one-to-one on naturals. */
  lemma {:induction false} NatToStringInjective(a: nat, b: nat)
    requires NatToString(a) == NatToString(b)
    ensures a == b
  {
    DigitsValueOfNatToString(a);
    DigitsValueOfNatToString(b);
  }

  /** Printing is one-to-one on integers. */
  lemma IntToStringInjective(a: int, b: int)
    ensures IntToString(a) == IntToString(b) ==> a == b
  {
    if a < 0 && b < 0 {
      if IntToString(a) == IntToString(b) {
        assert NatToString(-a) == IntToString(a)[1..];
        NatToStringInjective(-a, -b);
      }
    } else if a >= 0 && b >= 0 {
      if IntToString(a) == IntToString(b) {
        NatToStringInjective(a, b);
      }
    } else {
      var n := if a < 0 then b else a;
      assert IsDigit(NatToString(n)[0]);
      assert IntToString(a)[0] != IntToString(b)[0];
    }
  }

  /** Two sheets with different CT numbers (or one with and one without) get
      different CT parts. */
  lemma CtPartInjective(a: Option<int>, b: Option<int>)
    ensures CtPart(a) == CtPart(b) ==> a == b
  {
    if a.Some? && b.Some? {
      assert IntToString(a.value) == CtPart(a)[3..];
      assert IntToString(b.value) == CtPart(b)[3..];
      IntToStringInjective(a.value, b.value);
    } else if a.Some? || b.Some? {
      var n := if a.Some? then a.value else b.value;
      var s := IntToString(n);
      if n < 0 {
        assert |CtPart(Some(n))| >= 5;
      } else {
        assert IsDigit(s[0]) && CtPart(Some(n))[3] == s[0];
      }
      assert CtPart(Some(n)) != CtPart(None);
    }
  }

  /** The section suffix: "-SECTION" for a section that is non-blank, "" otherwise. */
  function SectionSuffix(section: Option<string>): (r: string)
    ensures !Truthy(section) ==> r == ""
    ensures r != "" ==> r == "-" + Upper(Strip(section.value)) && Strip(section.value) != ""
  {
    if Truthy(section) && Upper(Strip(section.value)) != "" then "-" + Upper(Strip(section.value)) else ""
  }

  /** The decimal text of an integer has no lower-case letter. */
  lemma IntToStringNoLower(i: int)
    ensures NoLower(IntToString(i))
  {
    var n := if i < 0 then -i else i;
    var d := NatToString(n);
    forall c | c in d ensures !IsLower(c) {
      var k :| 0 <= k < |d| && d[k] == c;
    }
  }

  /** The group part: dept-series and the section suffix. It is upper-case
      throughout and opens with the dept and a hyphen. */
  function GroupPart(dept: string, series: int, section: Option<string>): (r: string)
    ensures NoLower(r)
    ensures var d := Upper(Strip(dept)); |r| > |d| + 1 && r[..|d| + 1] == d + "-"
  {
    UpperNoLower(Strip(dept));
    IntToStringNoLower(series);
    UpperNoLower(if section.Some? then Strip(section.value) else "");
    Upper(Strip(dept)) + "-" + IntToString(series) + SectionSuffix(section)
  }

  /** An optional roll as printed: stripped, "" when missing. */
  function RollText(roll: Option<string>): (r: string)
    ensures !Truthy(roll) ==> r == ""
    ensures Truthy(roll) ==> r == Strip(roll.value)
  {
    if Truthy(roll) then Strip(roll.value) else ""
  }

  /** The range part: "start-end" when either end is non-blank, else "-". */
  function RangePart(start: Option<string>, end: Option<string>): (r: string)
    ensures r == "-" <==> RollText(start) == "" && RollText(end) == ""
    ensures r != "-" ==> r == RollText(start) + "-" + RollText(end)
  {
    var s := RollText(start);
    var e := RollText(end);
    if s != "" || e != "" then s + "-" + e else "-"
  }

  /** A range with only a start ends in a bare hyphen. */
  lemma RangeOnlyStart(start: string)
    requires Strip(start) != ""
    ensures RangePart(Some(start), None) == Strip(start) + "-"
  {
  }

  /** `generate_result_sheet_title`: it opens with the upper-case course
      code and "CT-", and closes with " | " and the roll range. */
  function Title(p: SheetIn): (r: string)
    ensures var c := Upper(Strip(p.courseCode)); |r| > |c| + 4 && r[..|c| + 4] == c + " CT-"
    ensures var e := " | " + RangePart(p.startingRoll, p.endingRoll); |r| > |e| && r[|r| - |e|..] == e
  {
    TitleAffixes(Upper(Strip(p.courseCode)), CtPart(p.ctNo), GroupPart(p.dept, p.series, p.section),
                 RangePart(p.startingRoll, p.endingRoll));
    Upper(Strip(p.courseCode)) + " " + CtPart(p.ctNo) + " | " + GroupPart(p.dept, p.series, p.section)
    + " | " + RangePart(p.startingRoll, p.endingRoll)
  }

  lemma TitleAffixes(c: string, ct: string, g: string, rp: string)
    requires |ct| >= 4 && ct[..3] == "CT-"
    ensures var r := c + " " + ct + " | " + g + " | " + rp;
            |r| > |c| + 4 && r[..|c| + 4] == c + " CT-"
            && |r| > |" | " + rp| && r[|r| - |" | " + rp|..] == " | " + rp
  {
    var r := c + " " + ct + " | " + g + " | " + rp;
    var e := " | " + rp;
    var front := c + " " + ct;
    assert r == front + (" | " + g + " | " + rp);
    assert front[..|c| + 4] == c + " CT-";
    assert r == (c + " " + ct + " | " + g) + e;
  }

  /** Text that strip and upper-case leave alone. */
  predicate Clean(s: string)
  {
    s != [] && !IsSpace(s[0]) && !IsSpace(s[|s| - 1]) && NoLower(s)
  }

  lemma CleanFixed(s: string)
    requires Clean(s)
    ensures Upper(Strip(s)) == s && Strip(s) == s
  {
    TrimStartFixed(s);
    TrimEndFixed(s);
    UpperOfNoLower(s);
  }

  /** The documented format for clean inputs: course, CT part, dept-series
      with the section when there is one, and the range. */
  lemma TitleFormat(p: SheetIn)
    requires Clean(p.courseCode) && Clean(p.dept)
    requires p.section.Some? ==> Clean(p.section.value)
    requires p.startingRoll.Some? && Clean(p.startingRoll.value)
    requires p.endingRoll.Some? && Clean(p.endingRoll.value)
    ensures Title(p) == p.courseCode + " " + CtPart(p.ctNo) + " | " + p.dept + "-" + IntToString(p.series)
                        + (if p.section.Some? then "-" + p.section.value else "")
                        + " | " + p.startingRoll.value + "-" + p.endingRoll.value
  {
    var sec := if p.section.Some? then "-" + p.section.value else "";
    TitleOfParts(p);
    CleanFixed(p.courseCode);
    GroupPartClean(p.dept, p.series, p.section);
    RangePartClean(p.startingRoll.value, p.endingRoll.value);
    Regroup(p.courseCode, CtPart(p.ctNo), p.dept, IntToString(p.series), sec,
            p.startingRoll.value, p.endingRoll.value);
  }

  lemma TitleOfParts(p: SheetIn)
    ensures Title(p) == Upper(Strip(p.courseCode)) + " " + CtPart(p.ctNo) + " | "
                        + GroupPart(p.dept, p.series, p.section) + " | " + RangePart(p.startingRoll, p.endingRoll)
  {
  }

  lemma Regroup(a: string, b: string, c: string, d: string, e: string, f: string, g: string)
    ensures a + " " + b + " | " + (c + "-" + d + e) + " | " + (f + "-" + g)
            == a + " " + b + " | " + c + "-" + d + e + " | " + f + "-" + g
  {
  }

  lemma GroupPartClean(dept: string, series: int, section: Option<string>)
    requires Clean(dept)
    requires section.Some? ==> Clean(section.value)
    ensures GroupPart(dept, series, section)
            == dept + "-" + IntToString(series) + (if section.Some? then "-" + section.value else "")
  {
    CleanFixed(dept);
    if section.Some? {
      CleanFixed(section.value);
    }
  }

  lemma RangePartClean(start: string, end: string)
    requires Clean(start) && Clean(end)
    ensures RangePart(Some(start), Some(end)) == start + "-" + end
  {
    CleanFixed(start);
    CleanFixed(end);
  }

  /** Without a CT number, section or rolls the title has "CT--", no section
      and "-" for the range. */
  lemma TitleBare(p: SheetIn)
    requires Clean(p.courseCode) && Clean(p.dept)
    requires p.ctNo.None? && p.section.None? && p.startingRoll.None? && p.endingRoll.None?
    ensures Title(p) == p.courseCode + " " + "CT--" + " | " + p.dept + "-" + IntToString(p.series) + " | " + "-"
  {
    TitleOfParts(p);
    CleanFixed(p.courseCode);
    GroupPartClean(p.dept, p.series, None);
    assert RangePart(None, None) == "-";
    RegroupBare(p.courseCode, "CT--", p.dept, IntToString(p.series), "-");
  }

  lemma RegroupBare(a: string, b: string, c: string, d: string, e: string)
    ensures a + " " + b + " | " + (c + "-" + d + "") + " | " + e == a + " " + b + " | " + c + "-" + d + " | " + e
  {
  }
  lemma ExampleParts()
    ensures Clean("CSE-2100") && Clean("CSE") && Clean("C") && Clean("121") && Clean("181")
    ensures IntToString(23) == "23" && CtPart(Some(1)) == "CT-1"
  {
  }

  lemma ExampleTextFull()
    ensures "CSE-2100" + " " + "CT-1" + " | " + "CSE" + "-" + "23" + "-" + "C" + " | " + "121" + "-" + "181"
            == "CSE-2100 CT-1 | CSE-23-C | 121-181"
  {
  }

  lemma ExampleTextBare()
    ensures "CSE-2100" + " " + "CT--" + " | " + "CSE" + "-" + "23" + " | " + "-" == "CSE-2100 CT-- | CSE-23 | -"
  {
  }

  lemma DocumentedTitleFull()
    ensures Title(SheetIn(Some(1), "CSE-2100", "Data Structures", "CSE", Some("C"), 23, Some("121"), Some("181")))
            == "CSE-2100 CT-1 | CSE-23-C | 121-181"
  {
    ExampleParts();
    ExampleTextFull();
    TitleFormat(SheetIn(Some(1), "CSE-2100", "Data Structures", "CSE", Some("C"), 23, Some("121"), Some("181")));
  }

  lemma DocumentedTitleBare()
    ensures Title(SheetIn(None, "CSE-2100", "Data Structures", "CSE", None, 23, None, None))
            == "CSE-2100 CT-- | CSE-23 | -"
  {
    ExampleParts();
    ExampleTextBare();
    TitleBare(SheetIn(None, "CSE-2100", "Data Structures", "CSE", None, 23, None, None));
  }

  /** The two titles the generator documents. */
  lemma DocumentedTitles()
    ensures Title(SheetIn(Some(1), "CSE-2100", "Data Structures", "CSE", Some("C"), 23, Some("121"), Some("181")))
            == "CSE-2100 CT-1 | CSE-23-C | 121-181"
    ensures Title(SheetIn(None, "CSE-2100", "Data Structures", "CSE", None, 23, None, None))
            == "CSE-2100 CT-- | CSE-23 | -"
  {
    DocumentedTitleFull();
    DocumentedTitleBare();
  }
}
