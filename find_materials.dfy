/** The deterministic part of the `find_materials` tool: the material-type
    table, the detection fallback, the profile and query texts, the row
    serialisation, the dept-only retrieval filter and the choice of user
    context. The LLM replies are inputs, the vector-distance order is the
    order in which each table's rows are given, and the final answer is a
    function of the messages it receives. */
module FindMaterials {

  import opened Common
  import opened Json

  // ---------------------------------------------------------------------
  // Material types

  /** The four tables searched by the tool. */
  datatype Table = ClassNotes | LectureSlides | CtQuestions | SemesterQuestions

  const AllowedTypes: set<string> := {"classnote", "lectureslide", "ct_question", "semester_question"}

  const TypeToModel: map<string, Table> :=
    map["classnote" := ClassNotes, "lectureslide" := LectureSlides,
        "ct_question" := CtQuestions, "semester_question" := SemesterQuestions]

  /** The table map is defined for exactly the allowed types, so the lookup
      after detection never fails, and no two types share a table. */
  lemma TypeToModelDomain()
    ensures TypeToModel.Keys == AllowedTypes
    ensures forall s, t :: s in TypeToModel && t in TypeToModel && s != t ==> TypeToModel[s] != TypeToModel[t]
  {
  }

  /** Python's `float(v)` on a decoded JSON value: ints, floats and bools
      convert, strings go through the interpreter's own parser, and None,
      lists and objects raise. */
  function PyFloat(v: JValue, parseFloat: string -> Option<real>): (r: Option<real>)
    ensures v.JInt? ==> r == Some(v.i as real)
    ensures v.JFloat? ==> r == Some(v.x)
    ensures v.JStr? ==> r == parseFloat(v.s)
    ensures v.JNull? || v.JList? || v.JObject? ==> r.None?
  {
    match v
    case JInt(i) => Some(i as real)
    case JFloat(x) => Some(x)
    case JBool(b) => Some(if b then 1.0 else 0.0)
    case JStr(s) => parseFloat(s)
    case _ => None
  }

  function Clamp(c: real): (r: real)
    ensures 0.0 <= r <= 1.0
    ensures 0.0 <= c <= 1.0 ==> r == c
    ensures c < 0.0 ==> r == 0.0
    ensures c > 1.0 ==> r == 1.0
  {
    if c < 0.0 then 0.0 else if c > 1.0 then 1.0 else c
  }

  /** The detection fallback. */
  const Fallback: (string, real) := ("classnote", 0.0)

  /** The confidence field of a decoded object; an absent one is 0.0. */
  function ConfidenceOf(fields: map<string, JValue>): JValue
  {
    if "confidence" in fields then fields["confidence"] else JFloat(0.0)
  }

  /** `_detect_material_type` after the LLM call. A reply that does not decode,
      is not an object, has a confidence that `float()` rejects, or names a
      type outside the allowed set gives the fallback. Otherwise the type is
      kept and the confidence clamped to [0, 1]. */
  function DetectMaterialType(reply: string, loads: string -> Option<JValue>, parseFloat: string -> Option<real>): (r: (string, real))
    ensures r.0 in AllowedTypes && 0.0 <= r.1 <= 1.0
    ensures loads(reply).None? ==> r == Fallback
    ensures loads(reply).Some? && !loads(reply).value.JObject? ==> r == Fallback
  {
    match loads(reply)
    case None => Fallback
    case Some(data) =>
      if !data.JObject? then Fallback
      else
        var conf := PyFloat(ConfidenceOf(data.fields), parseFloat);
        if conf.None? then Fallback
        else if "material_type" !in data.fields then Fallback
        else
          var mtype := data.fields["material_type"];
          if mtype.JStr? && mtype.s in AllowedTypes then (mtype.s, Clamp(conf.value))
          else Fallback
  }

  /** Detection keeps an allowed type and its in-range confidence exactly, and
      falls back for every type outside the allowed set. */
  lemma DetectKeepsAllowed(reply: string, loads: string -> Option<JValue>, parseFloat: string -> Option<real>)
    requires loads(reply).Some? && loads(reply).value.JObject?
    ensures var fields := loads(reply).value.fields;
            var conf := PyFloat(ConfidenceOf(fields), parseFloat);
            var r := DetectMaterialType(reply, loads, parseFloat);
            ("material_type" in fields && fields["material_type"].JStr? && fields["material_type"].s in AllowedTypes
             && conf.Some? && 0.0 <= conf.value <= 1.0)
            ==> r == (fields["material_type"].s, conf.value)
  {
  }

  lemma DetectRejectsUnknown(reply: string, loads: string -> Option<JValue>, parseFloat: string -> Option<real>)
    requires loads(reply).Some? && loads(reply).value.JObject?
    requires var fields := loads(reply).value.fields;
             "material_type" !in fields || !fields["material_type"].JStr? || fields["material_type"].s !in AllowedTypes
    ensures DetectMaterialType(reply, loads, parseFloat) == Fallback
  {
  }

  /** Whatever type detection yields, its table exists. */
  lemma DetectedTypeHasTable(reply: string, loads: string -> Option<JValue>, parseFloat: string -> Option<real>)
    ensures DetectMaterialType(reply, loads, parseFloat).0 in TypeToModel
  {
    TypeToModelDomain();
  }

  // ---------------------------------------------------------------------
  // The user and the texts sent to the models

  /** A student or teacher as the tool sees it: whether it has a `teacher_id`
      attribute, its `role` attribute, and its profile attributes (absent or
      NULL both read as None). */
  datatype User = User(
    hasTeacherId: bool,
    role: Option<string>,
    dept: Option<string>,
    section: Option<string>,
    sec: Option<string>,
    series: Option<string>,
    rollNo: Option<string>)

  predicate IsTeacher(u: User)
  {
    u.hasTeacherId || u.role == Some("teacher")
  }

  const TeacherLabel := "Teacher"
  const StudentLabel := "Student"

  function UserType(u: User): (r: string)
    ensures r == TeacherLabel <==> IsTeacher(u)
    ensures r == StudentLabel <==> !IsTeacher(u)
  {
    if IsTeacher(u) then TeacherLabel else StudentLabel
  }

  /** The section shown in the profile: `section or sec`. */
  function ProfileSection(u: User): (r: Option<string>)
    ensures Truthy(u.section) ==> r == u.section
    ensures !Truthy(u.section) ==> r == u.sec
  {
    OrElse(u.section, u.sec)
  }

  /** `_profile_context`: the user type, then each profile field. */
  function ProfileContext(u: User): string
  {
    UserType(u) + " profile: dept=" + Shown(u.dept) + ", section=" + Shown(ProfileSection(u))
    + ", series=" + Shown(u.series) + ", roll=" + Shown(u.rollNo)
  }

  /** The profile begins with the label "Teacher" exactly when the user is a
      teacher. */
  lemma ProfileContextLabel(u: User)
    ensures IsTeacher(u) <==> ProfileContext(u)[..|TeacherLabel|] == TeacherLabel
  {
    assert ProfileContext(u)[..|TeacherLabel|] == UserType(u);
  }

  /** `_query_template`: the lower-case user type, the dept, the question and
      the series and `section` attribute (not `sec`). */
  function QueryTemplate(u: User, userText: string): (r: string)
  {
    "A " + (if IsTeacher(u) then "teacher" else "student") + " from " + Shown(u.dept)
    + " department asking: " + userText + ". Profile info: series=" + Shown(u.series)
    + ", section=" + Shown(u.section)
  }

  // ---------------------------------------------------------------------
  // Rows

  /** A row of any of the four material tables; attributes a table lacks are
      None, and the embedding is reduced to whether the row has one. */
  datatype MaterialRow = MaterialRow(
    id: Option<string>,
    dept: Option<string>,
    sec: Option<string>,
    series: Option<string>,
    courseCode: Option<string>,
    courseName: Option<string>,
    writtenBy: Option<string>,
    topic: Option<string>,
    ctNo: Option<int>,
    year: Option<int>,
    driveUrl: Option<string>,
    createdAt: Option<string>,
    hasEmbedding: bool)

  function StrValue(o: Option<string>): JValue
  {
    if o.Some? then JStr(o.value) else JNull
  }

  function IntJValue(o: Option<int>): JValue
  {
    if o.Some? then JInt(o.value) else JNull
  }

  const SerializedKeys: set<string> :=
    {"id", "dept", "sec", "series", "course_code", "course_name", "written_by", "topic",
     "ct_no", "year", "drive_url", "created_at"}

  /** `_serialize_row`: the same twelve keys for every table; absent
      attributes are null, and created_at is `str()` of the timestamp. */
  function SerializeRow(row: MaterialRow): (r: map<string, JValue>)
  {
    map["id" := StrValue(row.id), "dept" := StrValue(row.dept), "sec" := StrValue(row.sec),
        "series" := StrValue(row.series), "course_code" := StrValue(row.courseCode),
        "course_name" := StrValue(row.courseName), "written_by" := StrValue(row.writtenBy),
        "topic" := StrValue(row.topic), "ct_no" := IntJValue(row.ctNo), "year" := IntJValue(row.year),
        "drive_url" := StrValue(row.driveUrl), "created_at" := JStr(Shown(row.createdAt))]
  }

  /** Every row serialises to the same twelve keys. */
  lemma SerializeRowKeys(row: MaterialRow)
    ensures SerializeRow(row).Keys == SerializedKeys
  {
    var m := SerializeRow(row);
    forall k | k in m.Keys ensures k in SerializedKeys {
    }
    forall k | k in SerializedKeys ensures k in m.Keys {
    }
  }

  // ---------------------------------------------------------------------
  // Retrieval

  /** A row the search may return for a dept: it has an embedding and exactly
      that dept. */
  predicate Candidate(row: MaterialRow, dept: string)
  {
    row.hasEmbedding && row.dept == Some(dept)
  }

  /** The rows that pass the filter, in the order given. */
  function Candidates(rows: seq<MaterialRow>, dept: string): (r: seq<MaterialRow>)
    ensures forall x :: x in r <==> x in rows && Candidate(x, dept)
    ensures |r| <= |rows|
  {
    if rows == [] then []
    else if Candidate(rows[0], dept) then [rows[0]] + Candidates(rows[1..], dept)
    else Candidates(rows[1..], dept)
  }

  function Min(a: int, b: int): int
  {
    if a <= b then a else b
  }

  /** Whether a table declares the `vector_embeddings` column the search
      reads: the semester-question table (semester_question_models.py)
      declares none. */
  predicate HasEmbeddingColumn(t: Table)
  {
    t != SemesterQuestions
  }

  /** Reading `model.vector_embeddings` on a table without that column. */
  const MissingEmbeddings := AttributeError("vector_embeddings")

  /** `_similarity_search` for rows given in ascending distance: no rows for a
      user without a dept; the missing-attribute error for a table without an
      embedding column; otherwise the first `topK` candidates. */
  function SimilaritySearch(table: Table, rows: seq<MaterialRow>, dept: Option<string>, topK: nat): (r: Result<seq<MaterialRow>>)
    ensures !Truthy(dept) ==> r == Ok([])
    ensures Truthy(dept) && !HasEmbeddingColumn(table) ==> r == Err(MissingEmbeddings)
    ensures r.Ok? ==> |r.value| <= topK
    ensures Truthy(dept) && HasEmbeddingColumn(table) ==>
              r.Ok? && r.value <= Candidates(rows, dept.value) && |r.value| == Min(topK, |Candidates(rows, dept.value)|)
  {
    if !Truthy(dept) then Ok([])
    else if !HasEmbeddingColumn(table) then Err(MissingEmbeddings)
    else
      var c := Candidates(rows, dept.value);
      Ok(c[..Min(topK, |c|)])
  }

  /** Every returned row has an embedding and the user's dept, and while fewer
      than `topK` rows qualify every qualifying row is returned, whatever its
      section or series. */
  lemma SearchIsDeptOnly(table: Table, rows: seq<MaterialRow>, dept: Option<string>, topK: nat)
    ensures SimilaritySearch(table, rows, dept, topK).Ok? ==>
              forall x :: x in SimilaritySearch(table, rows, dept, topK).value ==> x in rows && Truthy(dept) && Candidate(x, dept.value)
    ensures Truthy(dept) && HasEmbeddingColumn(table) && |Candidates(rows, dept.value)| <= topK ==>
              forall x :: x in rows && Candidate(x, dept.value) ==> x in SimilaritySearch(table, rows, dept, topK).value
  {
    if Truthy(dept) && HasEmbeddingColumn(table) {
      var c := Candidates(rows, dept.value);
      var r := SimilaritySearch(table, rows, dept, topK).value;
      forall x | x in r
        ensures x in rows && Candidate(x, dept.value)
      {
        var k :| 0 <= k < |r| && r[k] == x;
        assert c[k] == x;
      }
      if |c| <= topK {
        assert r == c;
      }
    }
  }

  // ---------------------------------------------------------------------
  // The pipeline

  const NoUserContext := "Error: No user context provided."

  /** `teacher if teacher else student`. */
  function ChooseUser(student: Option<User>, teacher: Option<User>): (r: Option<User>)
    ensures teacher.Some? ==> r == teacher
    ensures teacher.None? ==> r == student
  {
    if teacher.Some? then teacher else student
  }

  /** The four answer messages appended to the history. */
  function AnswerMessages(u: User, userText: string, materialType: string, confidence: string, bundle: string): (r: seq<ChatMessage>)
    ensures |r| == 4 && forall m :: m in r ==> m.role == "user"
    ensures r[0].content == ProfileContext(u)
  {
    [ChatMessage("user", ProfileContext(u)),
     ChatMessage("user", "User question: " + userText),
     ChatMessage("user", "Detected material_type: " + materialType + " (confidence=" + confidence + ")"),
     ChatMessage("user", "Retrieved materials (JSON): " + bundle)]
  }

  /** What the final answer call receives: the table searched, the rows
      retrieved from it and the messages. */
  datatype AnswerCall = AnswerCall(table: Table, rows: seq<MaterialRow>, messages: seq<ChatMessage>)

  /** `run_find_materials_pipeline` up to the answer call. `detectReply` is
      the type-detection reply, `tables(t)` the rows of table `t` in
      ascending distance from the query embedding, `dumps` is `json.dumps`
      and `showReal` Python's float formatting. `Ok(None)`: no user, so no
      call; an error: the search raised, which nothing on the way to the
      chat endpoint catches. */
  function FindMaterialsCall(
    student: Option<User>, teacher: Option<User>, userText: string, history: seq<ChatMessage>,
    detectReply: string, loads: string -> Option<JValue>, parseFloat: string -> Option<real>,
    tables: Table -> seq<MaterialRow>, topK: nat,
    dumps: seq<map<string, JValue>> -> string, showReal: real -> string): (r: Result<Option<AnswerCall>>)
    ensures r == Ok(None) <==> student.None? && teacher.None?
    ensures r.Err? <==> Raises(ChooseUser(student, teacher), detectReply, loads, parseFloat)
    ensures r.Err? ==> r.error == MissingEmbeddings
    ensures r.Ok? && r.value.Some? ==> HasEmbeddingColumn(r.value.value.table) || !Truthy(ChooseUser(student, teacher).value.dept)
  {
    match ChooseUser(student, teacher)
    case None => Ok(None)
    case Some(u) =>
      TypeToModelDomain();
      var (mtype, conf) := DetectMaterialType(detectReply, loads, parseFloat);
      var table := TypeToModel[mtype];
      var rows :- SimilaritySearch(table, tables(table), u.dept, topK);
      var bundle := seq(|rows|, i requires 0 <= i < |rows| => SerializeRow(rows[i]));
      Ok(Some(AnswerCall(table, rows, history + AnswerMessages(u, userText, mtype, showReal(conf), dumps(bundle)))))
  }

  /** The pipeline raises exactly when there is a user with a dept and the
      detected type is "semester_question", the one table without
      embeddings. */
  predicate Raises(user: Option<User>, detectReply: string, loads: string -> Option<JValue>, parseFloat: string -> Option<real>)
  {
    user.Some? && Truthy(user.value.dept) && DetectMaterialType(detectReply, loads, parseFloat).0 == "semester_question"
  }

  /** The tool's reply: the error text when there is no user, the raised
      error when the search raises, else the answer model's reply to the
      messages. */
  function RunFindMaterials(
    student: Option<User>, teacher: Option<User>, userText: string, history: seq<ChatMessage>,
    detectReply: string, loads: string -> Option<JValue>, parseFloat: string -> Option<real>,
    tables: Table -> seq<MaterialRow>, topK: nat,
    dumps: seq<map<string, JValue>> -> string, showReal: real -> string,
    answer: seq<ChatMessage> -> string): (r: Result<string>)
    ensures student.None? && teacher.None? ==> r == Ok(NoUserContext)
    ensures r.Err? <==> Raises(ChooseUser(student, teacher), detectReply, loads, parseFloat)
    ensures r.Err? ==> r.error == MissingEmbeddings
  {
    var call :- FindMaterialsCall(student, teacher, userText, history, detectReply, loads, parseFloat, tables, topK, dumps, showReal);
    match call
    case None => Ok(NoUserContext)
    case Some(c) => Ok(answer(c.messages))
  }

  /** With a teacher present, the teacher's profile is used and the rows come
      from the teacher's dept only; the history comes first, unchanged. The
      one exception is a semester-question search for a teacher with a dept,
      which raises. */
  lemma TeacherPreferred(
    student: Option<User>, teacher: Option<User>, userText: string, history: seq<ChatMessage>,
    detectReply: string, loads: string -> Option<JValue>, parseFloat: string -> Option<real>,
    tables: Table -> seq<MaterialRow>, topK: nat,
    dumps: seq<map<string, JValue>> -> string, showReal: real -> string)
    requires teacher.Some?
    ensures var call := FindMaterialsCall(student, teacher, userText, history, detectReply, loads, parseFloat, tables, topK, dumps, showReal);
            call.Err? <==> Truthy(teacher.value.dept) && DetectMaterialType(detectReply, loads, parseFloat).0 == "semester_question"
    ensures var call := FindMaterialsCall(student, teacher, userText, history, detectReply, loads, parseFloat, tables, topK, dumps, showReal);
            call.Ok? ==>
            call.value.Some?
            && call.value.value.messages[..|history|] == history
            && call.value.value.messages[|history|].content == ProfileContext(teacher.value)
            && |call.value.value.rows| <= topK
            && forall x :: x in call.value.value.rows ==> x in tables(call.value.value.table) && Candidate(x, teacher.value.dept.value)
  {
    TypeToModelDomain();
    var (mtype, conf) := DetectMaterialType(detectReply, loads, parseFloat);
    SearchIsDeptOnly(TypeToModel[mtype], tables(TypeToModel[mtype]), teacher.value.dept, topK);
  }

  /** A student with a dept asking for semester questions makes the tool
      raise instead of answering, whatever the tables hold. */
  lemma SemesterQuestionsRaise(
    student: User, userText: string, history: seq<ChatMessage>,
    detectReply: string, loads: string -> Option<JValue>, parseFloat: string -> Option<real>,
    tables: Table -> seq<MaterialRow>, topK: nat,
    dumps: seq<map<string, JValue>> -> string, showReal: real -> string,
    answer: seq<ChatMessage> -> string)
    requires Truthy(student.dept)
    requires loads(detectReply) == Some(JObject(map["material_type" := JStr("semester_question"), "confidence" := JFloat(0.9)]))
    ensures RunFindMaterials(Some(student), None, userText, history, detectReply, loads, parseFloat, tables, topK, dumps, showReal, answer)
            == Err(MissingEmbeddings)
  {
    var fields := loads(detectReply).value.fields;
    assert ConfidenceOf(fields) == JFloat(0.9);
    assert DetectMaterialType(detectReply, loads, parseFloat) == ("semester_question", 0.9);
  }

  /** The table searched is the one named by the detected type. */
  lemma SearchesDetectedTable(
    student: Option<User>, teacher: Option<User>, userText: string, history: seq<ChatMessage>,
    detectReply: string, loads: string -> Option<JValue>, parseFloat: string -> Option<real>,
    tables: Table -> seq<MaterialRow>, topK: nat,
    dumps: seq<map<string, JValue>> -> string, showReal: real -> string)
    requires student.Some? || teacher.Some?
    ensures var call := FindMaterialsCall(student, teacher, userText, history, detectReply, loads, parseFloat, tables, topK, dumps, showReal);
            var d := DetectMaterialType(detectReply, loads, parseFloat);
            d.0 in TypeToModel && (call.Ok? ==> call.value.Some? && call.value.value.table == TypeToModel[d.0])
  {
    TypeToModelDomain();
  }

  // ---------------------------------------------------------------------
  // FindMaterialsLLMOutput

  datatype MaterialType = ClassNote | CtQuestion | LectureSlide | SemesterQuestion
  datatype QueryMode = QueryNow | AskUser
  datatype MatchMode = Exact | Contains
  datatype SortBy = Newest | Oldest

  function MaterialTypeOf(s: string): (r: Option<MaterialType>)
    ensures r.Some? <==> s in {"class_note", "ct_question", "lecture_slide", "semester_question"}
  {
    if s == "class_note" then Some(ClassNote)
    else if s == "ct_question" then Some(CtQuestion)
    else if s == "lecture_slide" then Some(LectureSlide)
    else if s == "semester_question" then Some(SemesterQuestion)
    else None
  }

  function QueryModeOf(s: string): (r: Option<QueryMode>)
    ensures r.Some? <==> s in {"query", "ask"}
  {
    if s == "query" then Some(QueryNow) else if s == "ask" then Some(AskUser) else None
  }

  function MatchModeOf(s: string): (r: Option<MatchMode>)
    ensures r.Some? <==> s in {"exact", "contains"}
  {
    if s == "exact" then Some(Exact) else if s == "contains" then Some(Contains) else None
  }

  function SortByOf(s: string): (r: Option<SortBy>)
    ensures r.Some? <==> s in {"newest", "oldest"}
  {
    if s == "newest" then Some(Newest) else if s == "oldest" then Some(Oldest) else None
  }

  /** The validated output, with the schema's defaults filled in. */
  datatype Output = Output(
    mode: QueryMode,
    question: Option<string>,
    missingFields: seq<string>,
    materialType: MaterialType,
    courseCode: Option<string>,
    courseName: Option<string>,
    dept: Option<string>,
    sec: Option<string>,
    series: Option<string>,
    topic: Option<string>,
    writtenBy: Option<string>,
    ctNo: Option<int>,
    year: Option<int>,
    matchMode: MatchMode,
    limit: int,
    offset: int,
    sortBy: SortBy,
    confidence: real)

  /** A key of a decoded object: left out, given as null, or given a value. */
  datatype Given<T> = Absent | Null | Value(v: T)

  /** The value of a key that has a default and is not Optional: a left-out
      key takes the default; an explicit null is refused before this. */
  function OrDefault<T>(g: Given<T>, default: T): T
  {
    if g.Value? then g.v else default
  }

  /** The fields of a decoded object and whether it has any key the schema
      does not declare. An `Optional` field given as null reads as absent;
      the fields that have a default but are not `Optional` (tool, mode,
      missing_fields, match_mode, limit, offset, sort_by, confidence) keep
      null apart, since the schema refuses it there. */
  datatype OutputFields = OutputFields(
    hasExtraKeys: bool,
    tool: Given<string>,
    mode: Given<string>,
    question: Option<string>,
    missingFields: Given<seq<string>>,
    materialType: Option<string>,
    courseCode: Option<string>,
    courseName: Option<string>,
    dept: Option<string>,
    sec: Option<string>,
    series: Option<string>,
    topic: Option<string>,
    writtenBy: Option<string>,
    ctNo: Option<int>,
    year: Option<int>,
    matchMode: Given<string>,
    limit: Given<int>,
    offset: Given<int>,
    sortBy: Given<string>,
    confidence: Given<real>)

  const DefaultLimit := 10
  const MaxLimit := 50
  const DefaultConfidence := 0.7

  /** No defaulted, non-Optional field is given as null. */
  predicate NoNullDefault(raw: OutputFields)
  {
    !raw.tool.Null? && !raw.mode.Null? && !raw.missingFields.Null? && !raw.matchMode.Null?
    && !raw.limit.Null? && !raw.offset.Null? && !raw.sortBy.Null? && !raw.confidence.Null?
  }

  /** The field values the schema accepts. */
  predicate Acceptable(raw: OutputFields)
  {
    && !raw.hasExtraKeys
    && NoNullDefault(raw)
    && (!raw.tool.Value? || raw.tool.v == "find_materials")
    && (!raw.mode.Value? || QueryModeOf(raw.mode.v).Some?)
    && raw.materialType.Some? && MaterialTypeOf(raw.materialType.value).Some?
    && (!raw.matchMode.Value? || MatchModeOf(raw.matchMode.v).Some?)
    && (!raw.sortBy.Value? || SortByOf(raw.sortBy.v).Some?)
    && (!raw.limit.Value? || 1 <= raw.limit.v <= MaxLimit)
    && (!raw.offset.Value? || raw.offset.v >= 0)
    && (!raw.confidence.Value? || 0.0 <= raw.confidence.v <= 1.0)
  }

  /** `FindMaterialsLLMOutput.model_validate`. */
  function ValidateOutput(raw: OutputFields): (r: Result<Output>)
    ensures r.Ok? <==> Acceptable(raw)
    ensures !NoNullDefault(raw) ==> r.Err?
    ensures r.Ok? ==> 1 <= r.value.limit <= MaxLimit && r.value.offset >= 0 && 0.0 <= r.value.confidence <= 1.0
    ensures r.Ok? ==> Some(r.value.materialType) == MaterialTypeOf(raw.materialType.value)
    ensures r.Ok? && raw.mode.Absent? ==> r.value.mode == QueryNow
    ensures r.Ok? && raw.mode.Value? ==> Some(r.value.mode) == QueryModeOf(raw.mode.v)
    ensures r.Ok? && raw.missingFields.Absent? ==> r.value.missingFields == []
    ensures r.Ok? && raw.missingFields.Value? ==> r.value.missingFields == raw.missingFields.v
    ensures r.Ok? && raw.matchMode.Absent? ==> r.value.matchMode == Contains
    ensures r.Ok? && raw.matchMode.Value? ==> Some(r.value.matchMode) == MatchModeOf(raw.matchMode.v)
    ensures r.Ok? && raw.sortBy.Absent? ==> r.value.sortBy == Newest
    ensures r.Ok? && raw.sortBy.Value? ==> Some(r.value.sortBy) == SortByOf(raw.sortBy.v)
    ensures r.Ok? && raw.limit.Absent? ==> r.value.limit == DefaultLimit
    ensures r.Ok? && raw.offset.Absent? ==> r.value.offset == 0
    ensures r.Ok? && raw.confidence.Absent? ==> r.value.confidence == DefaultConfidence
    ensures r.Ok? && raw.confidence.Value? ==> r.value.confidence == raw.confidence.v
    ensures r.Ok? ==> r.value.limit == OrDefault(raw.limit, DefaultLimit) && r.value.offset == OrDefault(raw.offset, 0)
    ensures r.Ok? ==> (r.value.question == raw.question && r.value.courseCode == raw.courseCode
                       && r.value.courseName == raw.courseName && r.value.dept == raw.dept && r.value.sec == raw.sec
                       && r.value.series == raw.series && r.value.topic == raw.topic && r.value.writtenBy == raw.writtenBy
                       && r.value.ctNo == raw.ctNo && r.value.year == raw.year)
  {
    if !Acceptable(raw) then Err(ValueError("validation error for FindMaterialsLLMOutput"))
    else
      Ok(Output(
        if raw.mode.Value? then QueryModeOf(raw.mode.v).value else QueryNow,
        raw.question,
        OrDefault(raw.missingFields, []),
        MaterialTypeOf(raw.materialType.value).value,
        raw.courseCode, raw.courseName, raw.dept, raw.sec, raw.series, raw.topic, raw.writtenBy,
        raw.ctNo, raw.year,
        if raw.matchMode.Value? then MatchModeOf(raw.matchMode.v).value else Contains,
        OrDefault(raw.limit, DefaultLimit),
        OrDefault(raw.offset, 0),
        if raw.sortBy.Value? then SortByOf(raw.sortBy.v).value else Newest,
        OrDefault(raw.confidence, DefaultConfidence)))
  }

  /** An explicit null is refused where the schema has a default but no
      `Optional`, while the same key left out takes the default. */
  lemma NullIsNotAbsent(raw: OutputFields)
    requires Acceptable(raw) && raw.confidence.Absent?
    ensures ValidateOutput(raw).Ok? && ValidateOutput(raw).value.confidence == DefaultConfidence
    ensures ValidateOutput(raw.(confidence := Null)).Err?
  {
  }

  function ModeName(m: QueryMode): string
  {
    match m
    case QueryNow => "query"
    case AskUser => "ask"
  }

  function MaterialTypeName(t: MaterialType): string
  {
    match t
    case ClassNote => "class_note"
    case CtQuestion => "ct_question"
    case LectureSlide => "lecture_slide"
    case SemesterQuestion => "semester_question"
  }

  /** Validation accepts a validated output written back out, and returns it
      unchanged: the validated record is a fixed point. */
  lemma ValidateRoundTrip(o: Output, matchName: string, sortName: string)
    requires 1 <= o.limit <= MaxLimit && o.offset >= 0 && 0.0 <= o.confidence <= 1.0
    requires MatchModeOf(matchName) == Some(o.matchMode) && SortByOf(sortName) == Some(o.sortBy)
    ensures ValidateOutput(OutputFields(false, Value("find_materials"), Value(ModeName(o.mode)), o.question,
              Value(o.missingFields), Some(MaterialTypeName(o.materialType)), o.courseCode, o.courseName,
              o.dept, o.sec, o.series, o.topic, o.writtenBy, o.ctNo, o.year, Value(matchName),
              Value(o.limit), Value(o.offset), Value(sortName), Value(o.confidence))) == Ok(o)
  {
  }

  /** The detection names "classnote" and "lectureslide" are not schema
      enum values (the schema spells them "class_note" and
      "lecture_slide"); the two vocabularies share only "ct_question" and
      "semester_question". */
  lemma TypeVocabularies()
    ensures MaterialTypeOf("classnote").None? && MaterialTypeOf("lectureslide").None?
    ensures MaterialTypeOf("ct_question") == Some(CtQuestion)
    ensures MaterialTypeOf("semester_question") == Some(SemesterQuestion)
  {
  }
}
