/** The deterministic part of the `view_notices` tool: the profile and query
    texts, the notice serialisation, and the audience filter of the search.
    The embedding of the query is left out; the rows are given in ascending
    distance from it, and the final answer is a function of the messages it
    receives. */
module ViewNotices {

  import opened Common
  import opened Text
  import opened Json
  import opened Profiles
  import opened Sections
  import opened Rows
  import opened NoticeRecords

  // ---------------------------------------------------------------------
  // Texts

  /** The section is left out of the texts when it is None or a null
      spelling. */
  predicate HidesSection(sec: Option<string>)
  {
    sec.None? || NullSpelling(sec.value)
  }

  /** The text opens with `head` and goes on with `entry`. */
  predicate HeadThenEntry(r: string, head: string, entry: string)
  {
    StartsWith(r, head + entry)
  }

  /** `_profile_context`: the dept comes first, and a ", sec" entry follows it
      exactly when the section is shown. */
  function ProfileContext(st: StudentProfile): (r: string)
    ensures StartsWith(r, "Student profile: dept=" + Shown(st.dept))
    ensures HeadThenEntry(r, "Student profile: dept=" + Shown(st.dept), ", sec") <==> !HidesSection(st.Section())
  {
    var sec := if st.Section().Some? then st.Section().value else "";
    var hides := HidesSection(st.Section());
    var head := "Student profile: dept=" + Shown(st.dept);
    TemplateShape(head, hides, ", series=", Shown(st.series), ", sec=", sec, "");
    head + Entries(hides, ", series=", Shown(st.series), ", sec=", sec) + ""
  }

  /** `_query_template`: the dept comes first, a ", section" entry follows it
      exactly when the section is shown, and the user's text comes last. */
  function QueryTemplate(st: StudentProfile, userText: string): (r: string)
    ensures StartsWith(r, "A student from dept " + Shown(st.dept))
    ensures HeadThenEntry(r, "A student from dept " + Shown(st.dept), ", sec") <==> !HidesSection(st.Section())
    ensures EndsWith(r, userText)
  {
    var sec := if st.Section().Some? then st.Section().value else "";
    var hides := HidesSection(st.Section());
    var head := "A student from dept " + Shown(st.dept);
    var series := Shown(st.series) + " is looking for notices. Query: ";
    TemplateShape(head, hides, ", series ", series, ", section ", sec, userText);
    head + Entries(hides, ", series ", series, ", section ", sec) + userText
  }

  /** The entries after the dept: the section entry when it is shown, then
      the series. */
  function Entries(hides: bool, seriesKey: string, series: string, sectionKey: string, sec: string): string
  {
    if hides then seriesKey + series else sectionKey + sec + (seriesKey + series)
  }

  /** Both texts open with the head, go on with ", sec" exactly when the
      section entry is there, and close with the end. */
  lemma TemplateShape(head: string, hides: bool, seriesKey: string, series: string, sectionKey: string,
                      sec: string, end: string)
    requires StartsWith(seriesKey, ", ser") && StartsWith(sectionKey, ", sec")
    ensures var r := head + Entries(hides, seriesKey, series, sectionKey, sec) + end;
            StartsWith(r, head) && (HeadThenEntry(r, head, ", sec") <==> !hides) && EndsWith(r, end)
  {
    var entries := Entries(hides, seriesKey, series, sectionKey, sec);
    var r := head + entries + end;
    assert r == head + (entries + end);
    assert |entries| >= 5;
    assert r[..|head| + 5] == head + entries[..5];
    if hides {
      assert entries[..5] == seriesKey[..5];
      assert seriesKey[..5][4] != ", sec"[4];
      assert (head + entries[..5])[|head| + 4] != (head + ", sec")[|head| + 4];
    } else {
      assert entries[..5] == sectionKey[..5];
    }
  }

  /** Two students whose shown sections are both hidden get the same texts:
      a missing section, a blank one, "none" and "null" read alike. */
  lemma HiddenSectionsReadAlike(a: StudentProfile, b: StudentProfile, userText: string)
    requires a.dept == b.dept && a.series == b.series
    requires HidesSection(a.Section()) && HidesSection(b.Section())
    ensures ProfileContext(a) == ProfileContext(b)
    ensures QueryTemplate(a, userText) == QueryTemplate(b, userText)
  {
  }

  /** A shown section appears verbatim in the profile text, right after
      the dept. */
  lemma ShownSectionInProfile(st: StudentProfile)
    requires !HidesSection(st.Section())
    ensures var head := "Student profile: dept=" + Shown(st.dept) + ", sec=";
            ProfileContext(st)[|head|..|head| + |st.Section().value|] == st.Section().value
  {
    var head := "Student profile: dept=" + Shown(st.dept) + ", sec=";
    var sec := st.Section().value;
    assert ProfileContext(st) == head + sec + (", series=" + Shown(st.series));
  }

  // ---------------------------------------------------------------------
  // Serialisation

  function StrValue(o: Option<string>): JValue
  {
    if o.Some? then JStr(o.value) else JNull
  }

  function RoleName(r: Role): string
  {
    match r
    case TeacherRole => "teacher"
    case CrRole => "cr"
  }

  const SerializedKeys: set<string> :=
    {"id", "title", "notice_message", "created_by_role", "created_by_name", "teacher_name",
     "cr_name", "dept", "sec", "series", "created_at"}

  /** The author name fields of `_serialize_row`: the creator's name is the
      teacher's when the notice was posted by a teacher, else the CR's.
      `teacherName`/`crName` give the `full_name` of the row's teacher and CR
      relations (None when the relation is empty). */
  function CreatedByName(row: Notice, teacherName: Option<string>, crName: Option<string>): (r: Option<string>)
    ensures row.createdByRole == TeacherRole ==> r == teacherName
    ensures row.createdByRole == CrRole ==> r == crName
  {
    if row.createdByRole == TeacherRole then teacherName else crName
  }

  /** `_serialize_row`; `showTime` is `str()` of the timestamp. Every notice
      serialises to the same eleven keys, and created_by_name repeats
      teacher_name or cr_name according to the role. */
  function SerializeNotice(row: Notice, teacherName: Option<string>, crName: Option<string>, showTime: int -> string)
    : (r: map<string, JValue>)
    ensures r.Keys == SerializedKeys
    ensures r["created_by_name"] == (if row.createdByRole == TeacherRole then r["teacher_name"] else r["cr_name"])
    ensures r["id"] == JStr(row.id) && r["title"] == JStr(row.title) && r["notice_message"] == JStr(row.message)
  {
    map["id" := JStr(row.id), "title" := JStr(row.title), "notice_message" := JStr(row.message),
        "created_by_role" := JStr(RoleName(row.createdByRole)),
        "created_by_name" := StrValue(CreatedByName(row, teacherName, crName)),
        "teacher_name" := StrValue(teacherName), "cr_name" := StrValue(crName),
        "dept" := JStr(row.dept), "sec" := StrValue(row.sec), "series" := JStr(row.series),
        "created_at" := JStr(showTime(row.createdAt))]
  }

  // ---------------------------------------------------------------------
  // The audience filter

  /** The search scope of a student: dept, series and normalised section. */
  datatype Scope = Scope(dept: string, series: string, sec: Option<string>)

  function AttrValue(o: Option<string>): JValue
  {
    if o.Some? then JStr(o.value) else JNull
  }

  /** The student's scope, or None when dept or series is missing (the
      search then returns nothing). */
  function ScopeOf(st: StudentProfile): (r: Option<Scope>)
    ensures r.Some? <==> Truthy(st.dept) && st.SeriesText() != ""
    ensures r.Some? ==> r.value.dept == st.dept.value && r.value.series == st.SeriesText()
    ensures r.Some? ==> r.value.sec == ViewNoticeSection(AttrValue(st.Section()))
    ensures r.Some? && r.value.sec.Some? ==> IsSectionLetter(r.value.sec.value)
  {
    if !Truthy(st.dept) || st.SeriesText() == "" then None
    else Some(Scope(st.dept.value, st.SeriesText(), ViewNoticeSection(AttrValue(st.Section()))))
  }

  /** The notices a student in scope `s` may be shown: embedded, exactly the
      dept and series, and section-less or of the student's section. */
  predicate Visible(n: Notice, s: Scope)
  {
    n.embedding.Some? && n.dept == s.dept && n.series == s.series
    && (n.sec.None? || (s.sec.Some? && n.sec == s.sec))
  }

  function VisibleRows(rows: seq<Notice>, s: Scope): (r: seq<Notice>)
    ensures forall x :: x in r <==> x in rows && Visible(x, s)
  {
    if rows == [] then []
    else if Visible(rows[0], s) then [rows[0]] + VisibleRows(rows[1..], s)
    else VisibleRows(rows[1..], s)
  }

  /** `_similarity_search` for rows given in ascending distance: the first
      `topK` visible notices. */
  function SimilaritySearch(rows: seq<Notice>, st: StudentProfile, topK: nat): (r: seq<Notice>)
    ensures ScopeOf(st).None? ==> r == []
    ensures |r| <= topK
    ensures ScopeOf(st).Some? ==> (r <= VisibleRows(rows, ScopeOf(st).value)
                                   && |r| == Min(topK, |VisibleRows(rows, ScopeOf(st).value)|))
  {
    match ScopeOf(st)
    case None => []
    case Some(s) =>
      var v := VisibleRows(rows, s);
      v[..Min(topK, |v|)]
  }

  /** What the search returns: notices of the student's own dept and series,
      each either section-less or of the student's own (normalised)
      section; a student without a section sees only section-less notices. */
  lemma SearchScope(rows: seq<Notice>, st: StudentProfile, topK: nat)
    ensures forall x :: x in SimilaritySearch(rows, st, topK) ==>
              x in rows && x.embedding.Some? && Truthy(st.dept) && x.dept == st.dept.value
              && x.series == st.SeriesText()
              && (x.sec.None? || x.sec == ViewNoticeSection(AttrValue(st.Section())))
    ensures ViewNoticeSection(AttrValue(st.Section())).None? ==>
              forall x :: x in SimilaritySearch(rows, st, topK) ==> x.sec.None?
  {
    var r := SimilaritySearch(rows, st, topK);
    if ScopeOf(st).Some? {
      var s := ScopeOf(st).value;
      var v := VisibleRows(rows, s);
      forall x | x in r ensures x in rows && Visible(x, s) {
        var k :| 0 <= k < |r| && r[k] == x;
        assert v[k] == x;
      }
    }
  }

  /** While fewer than `topK` notices are visible, the search returns all of
      them. */
  lemma SearchComplete(rows: seq<Notice>, st: StudentProfile, topK: nat)
    requires ScopeOf(st).Some? && |VisibleRows(rows, ScopeOf(st).value)| <= topK
    ensures forall x :: x in rows && Visible(x, ScopeOf(st).value) ==> x in SimilaritySearch(rows, st, topK)
  {
    var v := VisibleRows(rows, ScopeOf(st).value);
    assert SimilaritySearch(rows, st, topK) == v;
  }

  // ---------------------------------------------------------------------
  // The pipeline

  /** The rows retrieved and the messages of the answer call. */
  datatype AnswerCall = AnswerCall(rows: seq<Notice>, messages: seq<ChatMessage>)

  /** The serialised rows, one per retrieved notice, in order. */
  function Bundle(found: seq<Notice>, names: Notice -> (Option<string>, Option<string>), showTime: int -> string)
    : (b: seq<map<string, JValue>>)
    ensures |b| == |found|
    ensures forall i :: 0 <= i < |found| ==> b[i].Keys == SerializedKeys && b[i]["id"] == JStr(found[i].id)
  {
    seq(|found|, i requires 0 <= i < |found| =>
          SerializeNotice(found[i], names(found[i]).0, names(found[i]).1, showTime))
  }

  /** `run_view_notices_pipeline` up to the answer call. `names(n)` gives the
      teacher and CR names of notice `n`, `dumps` is `json.dumps`. */
  function ViewNoticesCall(
    st: StudentProfile, userText: string, history: seq<ChatMessage>, rows: seq<Notice>, topK: nat,
    names: Notice -> (Option<string>, Option<string>), showTime: int -> string,
    dumps: seq<map<string, JValue>> -> string): (r: AnswerCall)
    ensures r.rows == SimilaritySearch(rows, st, topK)
    ensures |r.messages| == |history| + 3 && r.messages[..|history|] == history
    ensures forall i :: |history| <= i < |r.messages| ==> r.messages[i].role == "user"
    ensures r.messages[|history|].content == ProfileContext(st)
    ensures r.messages[|history| + 1].content == "User query: " + userText
    ensures r.messages[|history| + 2].content
            == "Top " + IntToString(topK) + " retrieved notices (JSON): " + dumps(Bundle(r.rows, names, showTime))
  {
    var found := SimilaritySearch(rows, st, topK);
    var bundle := Bundle(found, names, showTime);
    var answer := [ChatMessage("user", ProfileContext(st)),
                   ChatMessage("user", "User query: " + userText),
                   ChatMessage("user", "Top " + IntToString(topK) + " retrieved notices (JSON): " + dumps(bundle))];
    AnswerCall(found, history + answer)
  }
}
