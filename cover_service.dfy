/** The deterministic part of the cover-page tool: reading the student's
    profile, cleaning up the extractor's JSON reply, merging it with the
    profile, deciding which fields are still missing, and naming the PDF. */
module CoverService {

  import opened Common
  import opened Text
  import opened Profiles

  datatype CoverType = LabReport | Assignment | Report

  /** The three accepted `cover_type` values; anything else (including "ask") is None. */
  function ParseCoverType(s: string): (r: Option<CoverType>)
    ensures r == Some(LabReport) <==> s == "lab_report"
    ensures r == Some(Assignment) <==> s == "assignment"
    ensures r == Some(Report) <==> s == "report"
  {
    if s == "lab_report" then Some(LabReport)
    else if s == "assignment" then Some(Assignment)
    else if s == "report" then Some(Report)
    else None
  }

  /** The token in the file name. */
  function TypeToken(t: CoverType): string
  {
    match t
    case LabReport => "Exp"
    case Assignment => "Ass"
    case Report => "Report"
  }

  /** The label handed to the PDF generator. */
  function TypeLabel(t: CoverType): string
  {
    match t
    case LabReport => "Experiment"
    case Assignment => "Assignment"
    case Report => "Report"
  }

  const CommonRequired: seq<Field> := [
    CoverTypeNo, CourseCode, CourseTitle, DateOfSubmission, Session, TeacherName,
    TeacherDesignation, TeacherDept, FullName, RollNo, Dept, Series]

  /** REQUIRED_LAB, REQUIRED_ASSIGNMENT and REQUIRED_REPORT. */
  function Required(t: CoverType): (r: seq<Field>)
    ensures CommonRequired <= r
    ensures DateOfExp in r <==> t == LabReport
    ensures Section !in r && CoverTypeTitle !in r
  {
    if t == LabReport then CommonRequired + [DateOfExp] else CommonRequired
  }

  const DeptMapping: map<string, string> := map[
    "EEE" := "Department of Electrical & Electronic Engineering",
    "CSE" := "Department of Computer Science & Engineering",
    "ETE" := "Department of Electronics & Telecommunication Engineering",
    "ECE" := "Department of Electrical & Computer Engineering",
    "CE" := "Department of Civil Engineering",
    "URP" := "Department of Urban & Regional Planning",
    "ARCH" := "Department of Architecture",
    "BECM" := "Department of Building Engineering & Construction Management",
    "ME" := "Department of Mechanical Engineering",
    "IPE" := "Department of Industrial & Production Engineering",
    "CME" := "Department of Ceramic & Metallurgical Engineering",
    "MTE" := "Department of Mechatronics Engineering",
    "MSE" := "Department of Materials Science & Engineering",
    "CHE" := "Department of Chemical Engineering"]

  // ---------------------------------------------------------------------
  // File names

  /** `re.sub(r"[^A-Za-z0-9_\-]", "", s)` */
  function KeepSafe(s: string): (r: string)
    ensures |r| <= |s|
    ensures forall c :: c in r <==> c in s && IsSafeChar(c)
  {
    if |s| == 0 then ""
    else
      assert forall c :: c in s <==> c == s[0] || c in s[1..];
      (if IsSafeChar(s[0]) then [s[0]] else "") + KeepSafe(s[1..])
  }

  /** `_safe_filename`: strip, spaces to "_", then drop every unsafe character. */
  function SafeFilename(text: string): (r: string)
    ensures forall c :: c in r ==> IsSafeChar(c)
    ensures forall c :: c in r ==> c in text || c == '_'
  {
    KeepSafe(ReplaceChar(Strip(text), ' ', '_'))
  }

  lemma {:induction false} KeepSafeOfSafe(s: string)
    requires forall c :: c in s ==> IsSafeChar(c)
    ensures KeepSafe(s) == s
  {
    if |s| > 0 {
      assert s[0] in s;
      assert forall c :: c in s[1..] ==> c in s;
      KeepSafeOfSafe(s[1..]);
      assert s == [s[0]] + s[1..];
    }
  }

  /** A name that is already safe is kept as it is. */
  lemma SafeFilenameOfSafe(s: string)
    requires forall c :: c in s ==> IsSafeChar(c)
    ensures SafeFilename(s) == s
  {
    if |s| > 0 {
      assert s[0] in s && s[|s| - 1] in s;
    }
    TrimStartFixed(s);
    TrimEndFixed(s);
    assert Strip(s) == s;
    ReplaceCharAbsent(s, ' ', '_');
    KeepSafeOfSafe(s);
  }

  lemma SafeFilenameIdempotent(text: string)
    ensures SafeFilename(SafeFilename(text)) == SafeFilename(text)
  {
    SafeFilenameOfSafe(SafeFilename(text));
  }

  // ---------------------------------------------------------------------
  // The profile view used for the cover page

  datatype ProfileContext = ProfileContext(fullName: string, rollNo: string, dept: string,
                                           section: string, series: string)
  {
    /** `profile.get(key, "")` */
    function Get(f: Field): string
    {
      match f
      case FullName => fullName
      case RollNo => rollNo
      case Dept => dept
      case Section => section
      case Series => series
      case _ => ""
    }
  }

  /** `DEPT_MAPPING.get(code, code)` */
  function DeptFullName(code: string): (r: string)
    ensures code in DeptMapping ==> r == DeptMapping[code]
    ensures code !in DeptMapping ==> r == code
  {
    if code in DeptMapping then DeptMapping[code] else code
  }

  /** `get_student_profile_context` */
  function StudentProfileContext(st: StudentProfile): (r: ProfileContext)
    ensures r.fullName == OrEmpty(OrElse(st.fullName, st.name))
    ensures r.rollNo == st.RollText()
    ensures r.section == OrEmpty(st.Section())
    ensures r.dept == DeptFullName(Upper(Strip(OrEmpty(st.dept))))
    ensures r.series == "" <==> Strip(st.SeriesText()) == ""
    ensures r.series != "" ==> r.series == "Series " + Strip(st.SeriesText())
  {
    var code := Upper(Strip(OrEmpty(st.dept)));
    var seriesRaw := Strip(st.SeriesText());
    ProfileContext(
      OrEmpty(OrElse(st.fullName, st.name)),
      st.RollText(),
      DeptFullName(code),
      OrEmpty(st.Section()),
      if seriesRaw != "" then "Series " + seriesRaw else "")
  }

  /** An unknown department code is shown as the upper-cased code itself. */
  lemma ProfileDeptIsFullNameOrCode(st: StudentProfile)
    ensures var code := Upper(Strip(OrEmpty(st.dept)));
            var d := StudentProfileContext(st).dept;
            (code in DeptMapping && d == DeptMapping[code]) || (code !in DeptMapping && d == code && NoLower(d))
  {
    UpperNoLower(Strip(OrEmpty(st.dept)));
  }

  // ---------------------------------------------------------------------
  // Cleaning up the extractor's reply

  /** A decoded JSON object whose values are strings or null (None). */
  type JsonObject = map<string, Option<string>>

  /** `d.get(key, "") or ""` */
  function FieldOr(d: JsonObject, key: string): (r: string)
    ensures key in d && d[key].Some? ==> r == d[key].value
    ensures key !in d || d[key].None? ==> r == ""
  {
    if key in d && d[key].Some? then d[key].value else ""
  }

  const Fence := "```"

  /** "json" in any case. */
  predicate IsJsonTag(w: string)
  {
    |w| == 4 && LowerChar(w[0]) == 'j' && LowerChar(w[1]) == 's' && LowerChar(w[2]) == 'o' && LowerChar(w[3]) == 'n'
  }

  /** `re.sub(r"^```(?:json)?\s*", "", t, flags=re.IGNORECASE)` */
  function DropLeadingFence(t: string): (r: string)
    ensures !StartsWith(t, Fence) ==> r == t
    ensures StartsWith(t, Fence) ==> |r| <= |t| - 3 && (r == [] || !IsSpace(r[0]))
  {
    if !StartsWith(t, Fence) then t
    else
      var u := t[3..];
      var v := if |u| >= 4 && IsJsonTag(u[..4]) then u[4..] else u;
      TrimStart(v)
  }

  /** `re.sub(r"\s*```\s*$", "", t)` */
  function DropTrailingFence(t: string): (r: string)
    ensures !EndsWith(TrimEnd(t), Fence) ==> r == t
    ensures EndsWith(TrimEnd(t), Fence) ==> r == [] || !IsSpace(r[|r| - 1])
  {
    var u := TrimEnd(t);
    if EndsWith(u, Fence) then TrimEnd(u[..|u| - 3]) else t
  }

  /** The text handed to the JSON parser after the fence clean-up. */
  function Unfenced(text: string): string
  {
    if StartsWith(text, Fence) then DropTrailingFence(Strip(DropLeadingFence(Strip(text)))) else text
  }

  const EmptyOutput := ValueError("Cover JSON extractor returned empty output")
  const NotJson := ValueError("Cover JSON extractor did not return JSON")
  const BadJson := ValueError("JSONDecodeError")

  /** `_safe_parse_json`, with `json.loads` as the decoder `decode`. */
  function SafeParseJson(raw: Option<string>, decode: string -> Option<JsonObject>): (r: Result<JsonObject>)
    ensures r == Err(EmptyOutput) <==> raw.None? || Strip(raw.value) == ""
    ensures r.Ok? ==> raw.Some? && Strip(raw.value) != ""
  {
    if raw.None? then Err(EmptyOutput)
    else
      var text := Strip(raw.value);
      if text == "" then Err(EmptyOutput)
      else
        var t := Unfenced(text);
        match decode(t)
        case Some(obj) => Ok(obj)
        case None => BraceRetry(t, decode)
  }

  /** The fallback: parse the text from the first "{" to the last "}". */
  function BraceRetry(t: string, decode: string -> Option<JsonObject>): (r: Result<JsonObject>)
    ensures r.Err? ==> r.error == NotJson || r.error == BadJson
  {
    var s := Find(t, '{');
    var e := RFind(t, '}');
    if s == -1 || e == -1 || e <= s then Err(NotJson)
    else
      match decode(t[s..e + 1])
      case Some(obj) => Ok(obj)
      case None => Err(BadJson)
  }

  /** A reply that is plain JSON parses as it is. */
  lemma SafeParsePlain(text: string, decode: string -> Option<JsonObject>, obj: JsonObject)
    requires text != [] && !IsSpace(text[0]) && !IsSpace(text[|text| - 1])
    requires !StartsWith(text, Fence) && decode(text) == Some(obj)
    ensures SafeParseJson(Some(text), decode) == Ok(obj)
  {
    TrimStartFixed(text);
    TrimEndFixed(text);
  }

  lemma FencedStrip(raw: string, body: string, tag: string)
    requires raw == Fence + tag + "\n" + body + "\n" + Fence
    ensures raw != [] && Strip(raw) == raw && StartsWith(raw, Fence)
  {
    assert raw[0] == '`' && raw[|raw| - 1] == '`';
    TrimStartFixed(raw);
    TrimEndFixed(raw);
    assert raw[..3] == Fence;
  }

  lemma FencedLeading(body: string, tag: string)
    requires body != [] && !IsSpace(body[0])
    requires tag == "" || IsJsonTag(tag)
    ensures DropLeadingFence(Fence + tag + "\n" + body + "\n" + Fence) == body + "\n" + Fence
  {
    var t := Fence + tag + "\n" + body + "\n" + Fence;
    assert t[..3] == Fence;
    var u := t[3..];
    assert u == tag + "\n" + body + "\n" + Fence;
    if tag == "" {
      assert u[0] == '\n';
      assert !(|u| >= 4 && IsJsonTag(u[..4]));
      assert u == "\n" + (body + "\n" + Fence);
      TrimStartFixed(body + "\n" + Fence);
    } else {
      assert |tag| == 4;
      assert u[..4] == tag;
      assert u[4..] == "\n" + (body + "\n" + Fence);
      TrimStartFixed(body + "\n" + Fence);
    }
  }

  lemma FencedTrailingStrip(body: string)
    requires body != [] && !IsSpace(body[0]) && !IsSpace(body[|body| - 1])
    ensures Strip(body + "\n" + Fence) == body + "\n" + Fence
  {
    var t := body + "\n" + Fence;
    assert t[0] == body[0] && t[|t| - 1] == '`';
    TrimStartFixed(t);
    TrimEndFixed(t);
  }

  lemma FencedTrailing(body: string)
    requires body != [] && !IsSpace(body[|body| - 1])
    ensures DropTrailingFence(body + "\n" + Fence) == body
  {
    var t := body + "\n" + Fence;
    assert t[|t| - 1] == '`';
    TrimEndFixed(t);
    assert t[|t| - 3..] == Fence;
    assert t[..|t| - 3] == body + "\n";
    assert (body + "\n")[..|body|] == body;
    TrimEndFixed(body);
  }

  /** The decoder sees the unfenced text of a stripped reply. */
  lemma SafeParseOfUnfenced(raw: string, body: string, decode: string -> Option<JsonObject>, obj: JsonObject)
    requires raw != [] && Strip(raw) == raw && Unfenced(raw) == body
    requires decode(body) == Some(obj)
    ensures SafeParseJson(Some(raw), decode) == Ok(obj)
  {
  }

  lemma UnfencedFenced(raw: string, body: string, tag: string)
    requires body != [] && !IsSpace(body[0]) && !IsSpace(body[|body| - 1])
    requires tag == "" || IsJsonTag(tag)
    requires raw == Fence + tag + "\n" + body + "\n" + Fence
    ensures Unfenced(raw) == body
  {
    var inner := body + "\n" + Fence;
    FencedStrip(raw, body, tag);
    calc {
      Unfenced(raw);
      DropTrailingFence(Strip(DropLeadingFence(Strip(raw))));
      DropTrailingFence(Strip(DropLeadingFence(raw)));
      { FencedLeading(body, tag); }
      DropTrailingFence(Strip(inner));
      { FencedTrailingStrip(body); }
      DropTrailingFence(inner);
      { FencedTrailing(body); }
      body;
    }
  }

  /** A reply wrapped in a ``` or ```json fence parses as the fenced body. */
  lemma SafeParseFenced(raw: string, body: string, tag: string, decode: string -> Option<JsonObject>, obj: JsonObject)
    requires body != [] && !IsSpace(body[0]) && !IsSpace(body[|body| - 1])
    requires tag == "" || IsJsonTag(tag)
    requires raw == Fence + tag + "\n" + body + "\n" + Fence
    requires decode(body) == Some(obj)
    ensures SafeParseJson(Some(raw), decode) == Ok(obj)
  {
    if tag == "" {
      SafeParseFencedBare(raw, body, decode, obj);
    } else {
      SafeParseFencedJson(raw, body, tag, decode, obj);
    }
  }

  lemma SafeParseFencedBare(raw: string, body: string, decode: string -> Option<JsonObject>, obj: JsonObject)
    requires body != [] && !IsSpace(body[0]) && !IsSpace(body[|body| - 1])
    requires raw == Fence + "" + "\n" + body + "\n" + Fence
    requires decode(body) == Some(obj)
    ensures SafeParseJson(Some(raw), decode) == Ok(obj)
  {
    FencedStrip(raw, body, "");
    UnfencedFenced(raw, body, "");
    SafeParseOfUnfenced(raw, body, decode, obj);
  }

  lemma SafeParseFencedJson(raw: string, body: string, tag: string, decode: string -> Option<JsonObject>, obj: JsonObject)
    requires body != [] && !IsSpace(body[0]) && !IsSpace(body[|body| - 1])
    requires IsJsonTag(tag)
    requires raw == Fence + tag + "\n" + body + "\n" + Fence
    requires decode(body) == Some(obj)
    ensures SafeParseJson(Some(raw), decode) == Ok(obj)
  {
    FencedStrip(raw, body, tag);
    UnfencedFenced(raw, body, tag);
    SafeParseOfUnfenced(raw, body, decode, obj);
  }

  /** When the whole reply does not parse, the text from the first "{" to
      the last "}" is tried instead. */
  lemma SafeParseEmbedded(pre: string, inner: string, post: string,
                          decode: string -> Option<JsonObject>, obj: JsonObject)
    requires var t := pre + "{" + inner + "}" + post;
             !IsSpace(t[0]) && !IsSpace(t[|t| - 1]) && !StartsWith(t, Fence) && decode(t).None?
    requires '{' !in pre && '}' !in post
    requires decode("{" + inner + "}") == Some(obj)
    ensures SafeParseJson(Some(pre + "{" + inner + "}" + post), decode) == Ok(obj)
  {
    var t := pre + "{" + inner + "}" + post;
    TrimStartFixed(t);
    TrimEndFixed(t);
    assert Strip(t) == t;
    assert t != [];
    assert Unfenced(t) == t;
    BraceRetryEmbedded(pre, inner, post, decode, obj);
  }

  /** The brace fallback cuts out exactly the outermost braces. */
  lemma BraceRetryEmbedded(pre: string, inner: string, post: string,
                           decode: string -> Option<JsonObject>, obj: JsonObject)
    requires '{' !in pre && '}' !in post
    requires decode("{" + inner + "}") == Some(obj)
    ensures BraceRetry(pre + "{" + inner + "}" + post, decode) == Ok(obj)
  {
    BracePositions(pre, inner, post);
  }

  lemma BracePositions(pre: string, inner: string, post: string)
    requires '{' !in pre && '}' !in post
    ensures var t := pre + "{" + inner + "}" + post;
            var e := |pre| + |inner| + 1;
            && Find(t, '{') == |pre| && RFind(t, '}') == e && |pre| < e < |t|
            && t[|pre|..e + 1] == "{" + inner + "}"
  {
    OpenBraceAt(pre, inner, post);
    CloseBraceAt(pre, inner, post);
    BracedSlice(pre, inner, post);
  }

  lemma OpenBraceAt(pre: string, inner: string, post: string)
    requires '{' !in pre
    ensures Find(pre + "{" + inner + "}" + post, '{') == |pre|
  {
    var t := pre + "{" + inner + "}" + post;
    assert t[|pre|] == '{';
    assert t[..|pre|] == pre;
    FindAt(t, '{', |pre|);
  }

  lemma CloseBraceAt(pre: string, inner: string, post: string)
    requires '}' !in post
    ensures RFind(pre + "{" + inner + "}" + post, '}') == |pre| + |inner| + 1
  {
    var t := pre + "{" + inner + "}" + post;
    var e := |pre| + |inner| + 1;
    assert |t| == e + 1 + |post|;
    assert t[e] == '}';
    assert t[e + 1..] == post;
    RFindAt(t, '}', e);
  }

  lemma BracedSlice(pre: string, inner: string, post: string)
    ensures var t := pre + "{" + inner + "}" + post;
            var e := |pre| + |inner| + 1;
            e < |t| && t[|pre|..e + 1] == "{" + inner + "}"
  {
    var t := pre + "{" + inner + "}" + post;
    var mid := "{" + inner + "}";
    var e := |pre| + |inner| + 1;
    assert |mid| == e + 1 - |pre|;
    forall i | 0 <= i < |mid| ensures t[|pre| + i] == mid[i] {
      if i == 0 { assert t[|pre|] == '{'; }
      else if i < |mid| - 1 { assert t[|pre| + i] == inner[i - 1]; }
      else { assert t[e] == '}'; }
    }
    assert t[|pre|..e + 1] == mid;
  }

  /** Without an opening brace an unparsable reply is rejected. */
  lemma SafeParseNoObject(text: string, decode: string -> Option<JsonObject>)
    requires text != [] && !IsSpace(text[0]) && !IsSpace(text[|text| - 1])
    requires !StartsWith(text, Fence) && decode(text).None?
    requires '{' !in text || '}' !in text
    ensures SafeParseJson(Some(text), decode) == Err(NotJson)
  {
    TrimStartFixed(text);
    TrimEndFixed(text);
  }

  // ---------------------------------------------------------------------
  // Merging and the missing fields

  /** The fifteen keys of the merged payload. */
  datatype Field =
    | CoverTypeNo | CoverTypeTitle | CourseCode | CourseTitle | DateOfExp | DateOfSubmission
    | Session | TeacherName | TeacherDesignation | TeacherDept
    | FullName | RollNo | Dept | Section | Series
  {
    /** The dictionary key. */
    function Key(): string
    {
      match this
      case CoverTypeNo => "cover_type_no"
      case CoverTypeTitle => "cover_type_title"
      case CourseCode => "course_code"
      case CourseTitle => "course_title"
      case DateOfExp => "date_of_exp"
      case DateOfSubmission => "date_of_submission"
      case Session => "session"
      case TeacherName => "teacher_name"
      case TeacherDesignation => "teacher_designation"
      case TeacherDept => "teacher_dept"
      case FullName => "full_name"
      case RollNo => "roll_no"
      case Dept => "dept"
      case Section => "section"
      case Series => "series"
    }

    /** The identity fields, which the server takes from the profile. */
    predicate FromProfile()
    {
      FullName? || RollNo? || Dept? || Section? || Series?
    }
  }

  datatype CoverPayload = CoverPayload(
    coverTypeNo: string, coverTypeTitle: string, courseCode: string, courseTitle: string,
    dateOfExp: string, dateOfSubmission: string, session: string, teacherName: string,
    teacherDesignation: string, teacherDept: string,
    fullName: string, rollNo: string, dept: string, section: string, series: string)
  {
    /** `payload.get(key, "")` */
    function Get(f: Field): string
    {
      match f
      case CoverTypeNo => coverTypeNo
      case CoverTypeTitle => coverTypeTitle
      case CourseCode => courseCode
      case CourseTitle => courseTitle
      case DateOfExp => dateOfExp
      case DateOfSubmission => dateOfSubmission
      case Session => session
      case TeacherName => teacherName
      case TeacherDesignation => teacherDesignation
      case TeacherDept => teacherDept
      case FullName => fullName
      case RollNo => rollNo
      case Dept => dept
      case Section => section
      case Series => series
    }
  }

  /** `_merge`: the document fields come from the extractor (absent or null
      reads as ""), the identity fields from the profile. */
  function Merge(profile: ProfileContext, extracted: JsonObject): (r: CoverPayload)
    ensures forall f: Field :: !f.FromProfile() ==> r.Get(f) == FieldOr(extracted, f.Key())
    ensures forall f: Field :: f.FromProfile() ==> r.Get(f) == profile.Get(f)
  {
    CoverPayload(
      FieldOr(extracted, "cover_type_no"), FieldOr(extracted, "cover_type_title"),
      FieldOr(extracted, "course_code"), FieldOr(extracted, "course_title"),
      FieldOr(extracted, "date_of_exp"), FieldOr(extracted, "date_of_submission"),
      FieldOr(extracted, "session"), FieldOr(extracted, "teacher_name"),
      FieldOr(extracted, "teacher_designation"), FieldOr(extracted, "teacher_dept"),
      profile.fullName, profile.rollNo, profile.dept, profile.section, profile.series)
  }

  /** Whatever the extractor returns, even under the identity keys, the
      identity fields are the profile's. */
  lemma MergeProfileWins(profile: ProfileContext, e1: JsonObject, e2: JsonObject, f: Field)
    requires f.FromProfile()
    ensures Merge(profile, e1).Get(f) == Merge(profile, e2).Get(f) == profile.Get(f)
  {
  }

  /** `not str(payload.get(key, "")).strip()` */
  predicate Blank(p: CoverPayload, f: Field)
  {
    Strip(p.Get(f)) == ""
  }

  /** The blank keys of `keys`, in the order of `keys`. */
  function MissingOf(p: CoverPayload, keys: seq<Field>): seq<Field>
    decreases |keys|
  {
    if |keys| == 0 then []
    else MissingOf(p, keys[..|keys| - 1]) + (if Blank(p, keys[|keys| - 1]) then [keys[|keys| - 1]] else [])
  }

  lemma {:induction false} MissingOfMembers(p: CoverPayload, keys: seq<Field>)
    ensures forall k :: k in MissingOf(p, keys) <==> k in keys && Blank(p, k)
    decreases |keys|
  {
    if |keys| > 0 {
      var init := keys[..|keys| - 1];
      MissingOfMembers(p, init);
      assert keys == init + [keys[|keys| - 1]];
    }
  }

  /** `xs` is `ys` with some elements left out. */
  predicate IsSubsequence<T(==)>(xs: seq<T>, ys: seq<T>)
    decreases |ys|
  {
    |xs| == 0 ||
    (|ys| > 0 &&
     if xs[|xs| - 1] == ys[|ys| - 1] then IsSubsequence(xs[..|xs| - 1], ys[..|ys| - 1])
     else IsSubsequence(xs, ys[..|ys| - 1]))
  }

  lemma {:induction false} IsSubsequenceExtend<T>(xs: seq<T>, ys: seq<T>, y: T)
    requires IsSubsequence(xs, ys)
    ensures IsSubsequence(xs, ys + [y])
    decreases |ys|, 1
  {
    var ys' := ys + [y];
    assert ys'[..|ys'| - 1] == ys;
    if |xs| > 0 && xs[|xs| - 1] == y {
      IsSubsequenceDropLast(xs, ys);
    }
  }

  lemma {:induction false} IsSubsequenceDropLast<T>(xs: seq<T>, ys: seq<T>)
    requires |xs| > 0 && IsSubsequence(xs, ys)
    ensures IsSubsequence(xs[..|xs| - 1], ys)
    decreases |ys|, 0
  {
    var init := ys[..|ys| - 1];
    if xs[|xs| - 1] == ys[|ys| - 1] {
      IsSubsequenceExtend(xs[..|xs| - 1], init, ys[|ys| - 1]);
      assert init + [ys[|ys| - 1]] == ys;
    } else {
      IsSubsequenceDropLast(xs, init);
      IsSubsequenceExtend(xs[..|xs| - 1], init, ys[|ys| - 1]);
      assert init + [ys[|ys| - 1]] == ys;
    }
  }

  lemma IsSubsequenceAppendBoth<T>(xs: seq<T>, ys: seq<T>, y: T)
    requires IsSubsequence(xs, ys)
    ensures IsSubsequence(xs + [y], ys + [y])
  {
    var xs', ys' := xs + [y], ys + [y];
    assert xs'[..|xs'| - 1] == xs;
    assert ys'[..|ys'| - 1] == ys;
  }

  /** The missing list keeps the order of the required list. */
  lemma {:induction false} MissingOfInOrder(p: CoverPayload, keys: seq<Field>)
    ensures IsSubsequence(MissingOf(p, keys), keys)
    decreases |keys|
  {
    if |keys| > 0 {
      var init := keys[..|keys| - 1];
      var last := keys[|keys| - 1];
      MissingOfInOrder(p, init);
      var m := MissingOf(p, init);
      assert keys == init + [last];
      if Blank(p, last) {
        assert MissingOf(p, keys) == m + [last];
        IsSubsequenceAppendBoth(m, init, last);
      } else {
        assert MissingOf(p, keys) == m;
        IsSubsequenceExtend(m, init, last);
      }
    }
  }

  /** `_missing_fields`: no list for an unknown cover type. */
  function MissingFieldsOf(p: CoverPayload, coverType: string): seq<Field>
  {
    match ParseCoverType(coverType)
    case Some(t) => MissingOf(p, Required(t))
    case None => []
  }

  /** The loop of `_missing_fields`. */
  method MissingFields(p: CoverPayload, coverType: string) returns (missing: seq<Field>)
    ensures missing == MissingFieldsOf(p, coverType)
  {
    var t := ParseCoverType(coverType);
    if t.None? {
      return [];
    }
    missing := BlankKeys(p, Required(t.value));
  }

  /** The for-loop over the required list, appending each blank key. */
  method BlankKeys(p: CoverPayload, required: seq<Field>) returns (missing: seq<Field>)
    ensures missing == MissingOf(p, required)
  {
    missing := [];
    var i := 0;
    while i < |required|
      invariant 0 <= i <= |required|
      invariant missing == MissingOf(p, required[..i])
    {
      MissingOfStep(p, required, i);
      if Blank(p, required[i]) {
        missing := missing + [required[i]];
      }
      i := i + 1;
    }
    assert required[..i] == required;
  }

  lemma MissingOfStep(p: CoverPayload, keys: seq<Field>, i: nat)
    requires i < |keys|
    ensures MissingOf(p, keys[..i + 1]) == MissingOf(p, keys[..i]) + if Blank(p, keys[i]) then [keys[i]] else []
  {
    assert keys[..i + 1][..i] == keys[..i];
  }

  /** A key is reported exactly when the cover type requires it and it is blank. */
  lemma MissingFieldsMembers(p: CoverPayload, t: CoverType, k: Field)
    ensures k in MissingFieldsOf(p, TypeName(t)) <==> k in Required(t) && Blank(p, k)
    ensures IsSubsequence(MissingFieldsOf(p, TypeName(t)), Required(t))
  {
    MissingOfMembers(p, Required(t));
    MissingOfInOrder(p, Required(t));
  }

  function TypeName(t: CoverType): (r: string)
    ensures ParseCoverType(r) == Some(t)
  {
    match t
    case LabReport => "lab_report"
    case Assignment => "assignment"
    case Report => "report"
  }

  // ---------------------------------------------------------------------
  // The pipeline after the two extractor replies

  /** `s.zfill(width)`: zeros after an optional sign up to `width` characters. */
  function ZFill(s: string, width: nat): (r: string)
    ensures |r| == if |s| >= width then |s| else width
    ensures |s| >= width ==> r == s
    ensures |s| < width ==> EndsWith(r, if |s| > 0 && (s[0] == '+' || s[0] == '-') then s[1..] else s)
  {
    if |s| >= width then s
    else if |s| > 0 && (s[0] == '+' || s[0] == '-') then [s[0]] + seq(width - |s|, _ => '0') + s[1..]
    else seq(width - |s|, _ => '0') + s
  }

  lemma ZFillOneDigit(d: char)
    requires IsDigit(d)
    ensures ZFill([d], 2) == ['0', d]
  {
  }

  const CoverMenu := "Which cover do you want?\n\U{2022} Lab report (Experiment)\n\U{2022} Assignment\n\U{2022} Report\nReply with one of these."
  const InvalidNumber := "Cover number is invalid. Please provide a valid number (e.g. 1, 2, 3)."
  const DownloadBase := "https://neura-ruet-app.onrender.com/downloads/"

  /** The arguments given to `generate_ruet_cover_pdf`. */
  datatype CoverRequest = CoverRequest(
    coverType: string, coverTypeNo: string, coverTypeTitle: string, courseCode: string,
    courseTitle: string, dateOfExp: string, dateOfSubmission: string, fullName: string,
    rollNo: string, dept: string, section: string, series: string, session: string,
    teacherName: string, teacherDesignation: string, teacherDept: string)

  /** What the pipeline answers: a fixed or echoed text, a request to the
      LLM to ask for `missing`, or a generated cover and its download link. */
  datatype CoverReply =
    | Say(text: string)
    | AskForFields(missing: seq<Field>)
    | Generated(request: CoverRequest, filename: string, text: string)

  /** `f"{course}_{type_token}-{cover_no}_Roll-{roll}_{ts}.pdf"` */
  function FileName(t: CoverType, course: string, no: string, roll: string, ts: string): string
  {
    course + "_" + TypeToken(t) + "-" + no + "_Roll-" + roll + "_" + ts + ".pdf"
  }

  function CoverFilename(t: CoverType, p: CoverPayload, ts: string): string
  {
    FileName(t, SafeFilename(p.courseCode), SafeFilename(p.coverTypeNo), SafeFilename(p.rollNo), ts)
  }

  /** With a timestamp of safe characters, the file name is safe apart from
      the extension dot, so it cannot leave the PDF directory. */
  lemma CoverFilenameSafe(t: CoverType, p: CoverPayload, ts: string)
    requires AllSafe(ts)
    ensures forall c :: c in CoverFilename(t, p, ts) ==> IsSafeChar(c) || c == '.'
    ensures EndsWith(CoverFilename(t, p, ts), ".pdf")
    ensures StartsWith(CoverFilename(t, p, ts), SafeFilename(p.courseCode) + "_" + TypeToken(t) + "-")
  {
    FileNameSafe(t, SafeFilename(p.courseCode), SafeFilename(p.coverTypeNo), SafeFilename(p.rollNo), ts);
  }

  lemma FileNameSafe(t: CoverType, course: string, no: string, roll: string, ts: string)
    requires AllSafe(course) && AllSafe(no) && AllSafe(roll) && AllSafe(ts)
    ensures forall c :: c in FileName(t, course, no, roll, ts) ==> IsSafeChar(c) || c == '.'
    ensures EndsWith(FileName(t, course, no, roll, ts), ".pdf")
    ensures StartsWith(FileName(t, course, no, roll, ts), course + "_" + TypeToken(t) + "-")
  {
    var token := TypeToken(t);
    SafeTokens(t);
    var head := course + "_" + token + "-";
    SafeConcat(course, "_");
    SafeConcat(course + "_", token);
    SafeConcat(course + "_" + token, "-");
    var tail := no + "_Roll-" + roll + "_" + ts;
    SafeConcat(no, "_Roll-");
    SafeConcat(no + "_Roll-", roll);
    SafeConcat(no + "_Roll-" + roll, "_");
    SafeConcat(no + "_Roll-" + roll + "_", ts);
    SafeConcat(head, tail);
    FilenameParts(head, tail, FileName(t, course, no, roll, ts));
  }

  predicate AllSafe(s: string)
  {
    forall c :: c in s ==> IsSafeChar(c)
  }

  lemma SafeConcat(a: string, b: string)
    requires AllSafe(a) && AllSafe(b)
    ensures AllSafe(a + b)
  {
  }

  lemma FilenameParts(head: string, tail: string, f: string)
    requires AllSafe(head + tail) && f == head + tail + ".pdf"
    ensures forall c :: c in f ==> IsSafeChar(c) || c == '.'
    ensures EndsWith(f, ".pdf") && StartsWith(f, head)
  {
    assert f[..|head|] == head;
    assert f[|f| - 4..] == ".pdf";
  }

  lemma SafeTokens(t: CoverType)
    ensures AllSafe(TypeToken(t)) && AllSafe("_") && AllSafe("-") && AllSafe("_Roll-")
  {
  }

  function CoverRequestOf(t: CoverType, p: CoverPayload): CoverRequest
  {
    CoverRequest(TypeLabel(t), ZFill(p.coverTypeNo, 2), p.coverTypeTitle, p.courseCode,
                 p.courseTitle, if t == LabReport then p.dateOfExp else "", p.dateOfSubmission,
                 p.fullName, p.rollNo, p.dept, p.section, p.series, p.session,
                 p.teacherName, p.teacherDesignation, p.teacherDept)
  }

  function SuccessText(filename: string): string
  {
    "\U{1F389} Cover page generated successfully.\n\n\U{1F4C4} Download PDF:\n" + DownloadBase + filename
  }

  /** `run_cover_generator_pipeline`: `rawType` and `rawInfo` are the two
      extractor replies and `ts` the UTC timestamp text. */
  function RunCoverPipeline(st: StudentProfile, rawType: string, rawInfo: string,
                            decode: string -> Option<JsonObject>, ts: string): (r: CoverReply)
    ensures r.Generated? ==>
              var profile := StudentProfileContext(st);
              r.request.fullName == profile.fullName && r.request.rollNo == profile.rollNo
              && r.request.dept == profile.dept && r.request.series == profile.series
              && r.request.section == profile.section && r.text == SuccessText(r.filename)
    ensures r.AskForFields? ==> |r.missing| > 0
  {
    var profile := StudentProfileContext(st);
    var typeData := SafeParseJson(Some(rawType), decode);
    if typeData.Err? then Say(rawType)
    else
      match ParseCoverType(Strip(FieldOr(typeData.value, "cover_type")))
      case None => Say(CoverMenu)
      case Some(t) =>
        var extracted := SafeParseJson(Some(rawInfo), decode);
        if extracted.Err? then Say(rawInfo)
        else
          CoverFromPayload(t, Merge(profile, extracted.value), ts)
  }

  /** The pipeline once both replies have parsed and been merged. */
  function CoverFromPayload(t: CoverType, payload: CoverPayload, ts: string): (r: CoverReply)
    ensures r.Generated? <==> (forall k :: k in Required(t) ==> !Blank(payload, k))
                              && ParseInt(Strip(payload.coverTypeNo)).Some?
    ensures r.AskForFields? ==> |r.missing| > 0 && forall k :: k in r.missing <==> k in Required(t) && Blank(payload, k)
    ensures r.Generated? ==> r.request == CoverRequestOf(t, payload) && r.text == SuccessText(r.filename)
  {
    NoneMissing(payload, Required(t));
    MissingOfMembers(payload, Required(t));
    var missing := MissingOf(payload, Required(t));
    if |missing| > 0 then AskForFields(missing)
    else if ParseInt(Strip(payload.coverTypeNo)).None? then Say(InvalidNumber)
    else
      var filename := CoverFilename(t, payload, ts);
      Generated(CoverRequestOf(t, payload), filename, SuccessText(filename))
  }

  lemma PipelineAfterReplies(st: StudentProfile, rawType: string, rawInfo: string,
                             decode: string -> Option<JsonObject>, ts: string, t: CoverType, e: JsonObject)
    requires var td := SafeParseJson(Some(rawType), decode);
             td.Ok? && ParseCoverType(Strip(FieldOr(td.value, "cover_type"))) == Some(t)
    requires SafeParseJson(Some(rawInfo), decode) == Ok(e)
    ensures RunCoverPipeline(st, rawType, rawInfo, decode, ts)
            == CoverFromPayload(t, Merge(StudentProfileContext(st), e), ts)
  {
  }

  lemma NoneMissing(p: CoverPayload, keys: seq<Field>)
    ensures |MissingOf(p, keys)| == 0 <==> forall k :: k in keys ==> !Blank(p, k)
  {
    MissingOfMembers(p, keys);
    var m := MissingOf(p, keys);
    if |m| > 0 {
      assert m[0] in m;
    }
  }

  /** An unparsable cover-type reply is returned as it is; any other type
      than the three gives the menu and the second reply is never used. */
  lemma CoverTypeReply(st: StudentProfile, rawType: string, rawInfo1: string, rawInfo2: string,
                       decode: string -> Option<JsonObject>, ts: string)
    ensures SafeParseJson(Some(rawType), decode).Err? ==> RunCoverPipeline(st, rawType, rawInfo1, decode, ts) == Say(rawType)
    ensures var td := SafeParseJson(Some(rawType), decode);
            td.Ok? && ParseCoverType(Strip(FieldOr(td.value, "cover_type"))).None? ==>
              RunCoverPipeline(st, rawType, rawInfo1, decode, ts) == Say(CoverMenu)
              && RunCoverPipeline(st, rawType, rawInfo2, decode, ts) == Say(CoverMenu)
  {
  }

  /** After both replies parse: the cover is generated exactly when no
      required field is blank and the number parses, and the generator gets
      the profile's identity, the padded number and the experiment date
      only for lab reports. */
  lemma CoverGenerated(st: StudentProfile, rawType: string, rawInfo: string,
                       decode: string -> Option<JsonObject>, ts: string, t: CoverType, e: JsonObject)
    requires var td := SafeParseJson(Some(rawType), decode);
             td.Ok? && ParseCoverType(Strip(FieldOr(td.value, "cover_type"))) == Some(t)
    requires SafeParseJson(Some(rawInfo), decode) == Ok(e)
    ensures var p := Merge(StudentProfileContext(st), e);
            var r := RunCoverPipeline(st, rawType, rawInfo, decode, ts);
            (r.Generated? <==> (forall k :: k in Required(t) ==> !Blank(p, k)) && ParseInt(Strip(p.coverTypeNo)).Some?)
            && (r.Generated? ==>
                  r.request.fullName == StudentProfileContext(st).fullName
                  && r.request.rollNo == StudentProfileContext(st).rollNo
                  && r.request.dept == StudentProfileContext(st).dept
                  && r.request.series == StudentProfileContext(st).series
                  && r.request.coverTypeNo == ZFill(FieldOr(e, "cover_type_no"), 2)
                  && r.request.coverType == TypeLabel(t)
                  && (t != LabReport ==> r.request.dateOfExp == "")
                  && r.text == SuccessText(r.filename))
  {
    var p := Merge(StudentProfileContext(st), e);
    PipelineAfterReplies(st, rawType, rawInfo, decode, ts, t, e);
  }

  /** A blank required field, from the extractor or the profile, is asked for. */
  lemma CoverAsksForBlank(st: StudentProfile, rawType: string, rawInfo: string,
                          decode: string -> Option<JsonObject>, ts: string, t: CoverType, e: JsonObject, k: Field)
    requires var td := SafeParseJson(Some(rawType), decode);
             td.Ok? && ParseCoverType(Strip(FieldOr(td.value, "cover_type"))) == Some(t)
    requires SafeParseJson(Some(rawInfo), decode) == Ok(e)
    requires k in Required(t) && Blank(Merge(StudentProfileContext(st), e), k)
    ensures var r := RunCoverPipeline(st, rawType, rawInfo, decode, ts);
            r.AskForFields? && k in r.missing && IsSubsequence(r.missing, Required(t))
  {
    var p := Merge(StudentProfileContext(st), e);
    PipelineAfterReplies(st, rawType, rawInfo, decode, ts, t, e);
    MissingOfMembers(p, Required(t));
    MissingOfInOrder(p, Required(t));
    assert k in MissingOf(p, Required(t));
  }
}
