/** The notice service: teachers and CRs create, list, read, edit and delete
    their own notices, and students read the feed of their dept, section and
    series. The table is a class over the sequence of rows; the database
    supplies fresh ids and the clock, and the embedding service is a
    function from the template text to an embedding (None when it fails). */
module NoticeService {

  import opened Common
  import opened Text
  import opened Profiles
  import opened Rows
  import opened NoticeRecords
  import opened Sections
  import opened NoticeSchemas
  import opened ViewNotices

  const NotFound := HttpError(404, "Notice not found")
  const CrScopeMessage := "CR profile missing dept/sec/series"
  const StudentScopeMessage := "Student profile missing dept/sec/series"

  /** The signed-in teacher: `str(teacher.id)` and `full_name`. */
  datatype Teacher = Teacher(id: string, fullName: Option<string>)

  /** Who may see and change a notice. */
  datatype Creator = ByTeacher(teacherId: string) | ByCr(crId: string)

  predicate CreatedBy(n: Notice, c: Creator)
  {
    match c
    case ByTeacher(t) => n.createdByTeacherId == Some(t)
    case ByCr(k) => n.createdByCrId == Some(k)
  }

  /** `getattr(user, "full_name", "") or getattr(user, "name", "")`; the
      records have no `name` attribute, so a missing full name reads "". */
  function AuthorName(fullName: Option<string>): string
  {
    OrEmpty(fullName)
  }

  /** The embedding text of a teacher notice: it names a teacher as the
      author and ends with the message. */
  function TeacherTemplate(t: Teacher, n: Notice): (r: string)
    ensures var head := "Class/Dept Notice posted by Teacher "; |r| >= |head| && r[..|head|] == head
    ensures var m := "Message: " + n.message + "."; |r| >= |m| && r[|r| - |m|..] == m
  {
    var head := "Class/Dept Notice posted by Teacher ";
    var middle := AuthorName(t.fullName) + ". "
                  + "Notice audience: dept " + n.dept + ", section " + Shown(n.sec) + ", series " + n.series + ". "
                  + "Title: " + n.title + ". ";
    var tail := "Message: " + n.message + ".";
    Affixes(head, middle, tail);
    head + middle + tail
  }

  /** The embedding text of a CR notice: it names a CR as the author and
      ends with the message. */
  function CrTemplate(cr: Cr, n: Notice): (r: string)
    ensures var head := "Class/Dept Notice posted by CR "; |r| >= |head| && r[..|head|] == head
    ensures var m := "Message: " + n.message + "."; |r| >= |m| && r[|r| - |m|..] == m
  {
    var head := "Class/Dept Notice posted by CR ";
    var middle := AuthorName(cr.profile.fullName) + " (roll " + cr.profile.RollText() + "). "
                  + "CR profile: dept " + n.dept + ", section " + Shown(n.sec) + ", series " + n.series + ". "
                  + "Title: " + n.title + ". ";
    var tail := "Message: " + n.message + ".";
    Affixes(head, middle, tail);
    head + middle + tail
  }

  lemma Affixes(head: string, middle: string, tail: string)
    ensures var r := head + middle + tail;
            |r| >= |head| && r[..|head|] == head && |r| >= |tail| && r[|r| - |tail|..] == tail
  {
  }

  // ---------------------------------------------------------------------
  // Creating

  /** The row `create_notice_by_teacher` stores AS WRITTEN: the section is
      `str(payload.sec)`, so a notice without a section stores the text
      "None". */
  function TeacherNoticeAsWritten(p: TeacherNoticeIn, t: Teacher, id: string, now: int,
                                  embed: string -> Option<Embedding>): (r: Notice)
    ensures r.sec.Some? && (p.sec.Some? ==> r.sec == p.sec) && (p.sec.None? ==> r.sec == Some("None"))
    ensures r.dept == p.dept && r.series == p.series
    ensures r.createdByRole == TeacherRole && CreatedBy(r, ByTeacher(t.id)) && r.createdByCrId.None?
  {
    var n := Notice(id, Strip(p.title), Strip(p.message), TeacherRole, Some(t.id), None,
                    p.dept, Some(Shown(p.sec)), p.series, None, now);
    n.(embedding := embed(TeacherTemplate(t, n)))
  }

  /** The row a teacher's notice is meant to be: a missing section stays
      NULL. */
  function TeacherNotice(p: TeacherNoticeIn, t: Teacher, id: string, now: int,
                         embed: string -> Option<Embedding>): (r: Notice)
    ensures r.sec == p.sec && r.dept == p.dept && r.series == p.series
    ensures r.createdByRole == TeacherRole && CreatedBy(r, ByTeacher(t.id)) && r.createdByCrId.None?
    ensures r.embedding == embed(TeacherTemplate(t, r.(embedding := None)))
    ensures r == TeacherNoticeAsWritten(p, t, id, now, embed).(sec := p.sec, embedding := r.embedding)
  {
    var n := Notice(id, Strip(p.title), Strip(p.message), TeacherRole, Some(t.id), None,
                    p.dept, p.sec, p.series, None, now);
    n.(embedding := embed(TeacherTemplate(t, n)))
  }

  /** As written, a section-less teacher notice reaches no student's search:
      its stored section is neither NULL nor a section letter. */
  lemma SectionlessTeacherNoticeHidden(p: TeacherNoticeIn, t: Teacher, id: string, now: int,
                                       embed: string -> Option<Embedding>, st: StudentProfile)
    requires p.sec.None?
    ensures TeacherNoticeAsWritten(p, t, id, now, embed).sec == Some("None")
    ensures ScopeOf(st).Some? ==> !Visible(TeacherNoticeAsWritten(p, t, id, now, embed), ScopeOf(st).value)
  {
  }

  /** Stored as NULL, a section-less teacher notice that was embedded reaches
      every student of its dept and series, with or without a section. */
  lemma SectionlessTeacherNoticeVisible(p: TeacherNoticeIn, t: Teacher, id: string, now: int,
                                        embed: string -> Option<Embedding>, st: StudentProfile)
    requires p.sec.None? && TeacherNotice(p, t, id, now, embed).embedding.Some?
    requires ScopeOf(st).Some? && ScopeOf(st).value.dept == p.dept && ScopeOf(st).value.series == p.series
    ensures Visible(TeacherNotice(p, t, id, now, embed), ScopeOf(st).value)
  {
  }

  /** A teacher notice for one section reaches exactly the students of that
      section among those of its dept and series. */
  lemma SectionedTeacherNoticeAudience(p: TeacherNoticeIn, t: Teacher, id: string, now: int,
                                       embed: string -> Option<Embedding>, s: Scope)
    requires p.sec.Some? && TeacherNotice(p, t, id, now, embed).embedding.Some?
    requires s.dept == p.dept && s.series == p.series
    ensures Visible(TeacherNotice(p, t, id, now, embed), s) <==> s.sec == p.sec
  {
  }

  /** The audience a CR posts to: dept, `section or sec` and series, all of
      them non-empty. */
  predicate CrHasScope(cr: Cr)
  {
    Truthy(cr.profile.dept) && Truthy(cr.profile.Section()) && Truthy(cr.profile.series)
  }

  /** `create_notice_by_cr`: the audience comes from the CR's profile, and a
      CR without a complete one gets a 400. */
  function CrNotice(p: CrNoticeIn, cr: Cr, id: string, now: int,
                    embed: string -> Option<Embedding>): (r: Result<Notice>)
    ensures r.Err? <==> !CrHasScope(cr)
    ensures r.Err? ==> r.error == HttpError(400, CrScopeMessage)
    ensures r.Ok? ==> r.value.dept == cr.profile.dept.value && r.value.sec == cr.profile.Section()
                      && r.value.series == cr.profile.series.value
    ensures r.Ok? ==> r.value.createdByRole == CrRole && CreatedBy(r.value, ByCr(cr.id))
                      && r.value.createdByTeacherId.None? && r.value.id == id
    ensures r.Ok? ==> r.value.title == Strip(p.title) && r.value.message == Strip(p.message)
  {
    if !CrHasScope(cr) then Err(HttpError(400, CrScopeMessage))
    else
      var n := Notice(id, Strip(p.title), Strip(p.message), CrRole, None, Some(cr.id),
                      cr.profile.dept.value, cr.profile.Section(), cr.profile.series.value, None, now);
      Ok(n.(embedding := embed(CrTemplate(cr, n))))
  }

  /** A CR's notice always names a section, so it never reaches students of
      another section. */
  lemma CrNoticeSectioned(p: CrNoticeIn, cr: Cr, id: string, now: int,
                          embed: string -> Option<Embedding>, s: Scope)
    requires CrNotice(p, cr, id, now, embed).Ok?
    ensures Visible(CrNotice(p, cr, id, now, embed).value, s) ==> s.sec == cr.profile.Section()
  {
  }

  // ---------------------------------------------------------------------
  // Lookups over rows

  predicate UniqueIds(rows: seq<Notice>)
  {
    forall i, j :: 0 <= i < j < |rows| ==> rows[i].id != rows[j].id
  }

  function Ids(rows: seq<Notice>): (r: set<string>)
    ensures forall x :: x in r <==> exists i :: 0 <= i < |rows| && rows[i].id == x
  {
    if rows == [] then {} else {rows[0].id} + Ids(rows[1..])
  }

  /** The index of the first row with this id and creator, or -1. */
  function FindOwned(rows: seq<Notice>, c: Creator, id: string): (k: int)
    ensures -1 <= k < |rows|
    ensures k >= 0 ==> rows[k].id == id && CreatedBy(rows[k], c)
    ensures k >= 0 ==> forall i :: 0 <= i < k ==> !(rows[i].id == id && CreatedBy(rows[i], c))
    ensures k == -1 <==> forall i :: 0 <= i < |rows| ==> !(rows[i].id == id && CreatedBy(rows[i], c))
  {
    if rows == [] then -1
    else if rows[0].id == id && CreatedBy(rows[0], c) then 0
    else
      var k := FindOwned(rows[1..], c, id);
      if k == -1 then -1 else k + 1
  }

  /** With unique ids the row found is the only row with that id. */
  lemma FindOwnedUnique(rows: seq<Notice>, c: Creator, id: string, i: int)
    requires UniqueIds(rows) && 0 <= i < |rows| && rows[i].id == id
    ensures FindOwned(rows, c, id) == (if CreatedBy(rows[i], c) then i else -1)
  {
  }

  function Owned(rows: seq<Notice>, c: Creator): (r: seq<Notice>)
    ensures forall x :: x in r <==> x in rows && CreatedBy(x, c)
  {
    if rows == [] then []
    else if CreatedBy(rows[0], c) then [rows[0]] + Owned(rows[1..], c)
    else Owned(rows[1..], c)
  }

  /** The student feed filter: exactly the student's dept, section and
      series. */
  predicate InFeed(n: Notice, dept: string, sec: string, series: string)
  {
    n.dept == dept && n.sec == Some(sec) && n.series == series
  }

  function FeedRows(rows: seq<Notice>, dept: string, sec: string, series: string): (r: seq<Notice>)
    ensures forall x :: x in r <==> x in rows && InFeed(x, dept, sec, series)
  {
    if rows == [] then []
    else if InFeed(rows[0], dept, sec, series) then [rows[0]] + FeedRows(rows[1..], dept, sec, series)
    else FeedRows(rows[1..], dept, sec, series)
  }

  // ---------------------------------------------------------------------
  // Editing

  /** The fields `update_cr_notice` changes: title and message, stripped,
      when given. */
  function CrApplied(n: Notice, p: CrNoticeUpdateIn): Notice
  {
    n.(title := if p.title.Some? then Strip(p.title.value) else n.title,
       message := if p.message.Some? then Strip(p.message.value) else n.message)
  }

  function CrChanges(p: CrNoticeUpdateIn): bool
  {
    p.title.Some? || p.message.Some?
  }

  /** `update_cr_notice` on a found row: re-embedded only when something was
      given, and the old embedding kept when embedding fails. */
  function CrEdited(n: Notice, p: CrNoticeUpdateIn, cr: Cr, embed: string -> Option<Embedding>): (r: Notice)
    ensures r.id == n.id && r.dept == n.dept && r.sec == n.sec && r.series == n.series
    ensures r.createdByRole == n.createdByRole && r.createdByTeacherId == n.createdByTeacherId
            && r.createdByCrId == n.createdByCrId && r.createdAt == n.createdAt
    ensures !CrChanges(p) ==> r == n
    ensures CrChanges(p) && embed(CrTemplate(cr, CrApplied(n, p))).None? ==> r.embedding == n.embedding
  {
    var m := CrApplied(n, p);
    if !CrChanges(p) then m
    else
      match embed(CrTemplate(cr, m))
      case Some(e) => m.(embedding := Some(e))
      case None => m
  }

  /** The fields `update_teacher_notice` changes: title and message
      (stripped), dept, sec and series, each only when given. */
  function TeacherApplied(n: Notice, p: TeacherNoticeUpdateIn): Notice
  {
    n.(title := if p.title.Some? then Strip(p.title.value) else n.title,
       message := if p.message.Some? then Strip(p.message.value) else n.message,
       dept := if p.dept.Some? then p.dept.value else n.dept,
       sec := if p.sec.Some? then p.sec else n.sec,
       series := if p.series.Some? then p.series.value else n.series)
  }

  function TeacherChanges(p: TeacherNoticeUpdateIn): bool
  {
    p.title.Some? || p.message.Some? || p.dept.Some? || p.sec.Some? || p.series.Some?
  }

  function TeacherEdited(n: Notice, p: TeacherNoticeUpdateIn, t: Teacher,
                         embed: string -> Option<Embedding>): (r: Notice)
    ensures r.id == n.id && r.createdByRole == n.createdByRole && r.createdByTeacherId == n.createdByTeacherId
            && r.createdByCrId == n.createdByCrId && r.createdAt == n.createdAt
    ensures !TeacherChanges(p) ==> r == n
    ensures p.sec.None? ==> r.sec == n.sec
    ensures TeacherChanges(p) && embed(TeacherTemplate(t, TeacherApplied(n, p))).None? ==>
              r.embedding == n.embedding
  {
    var m := TeacherApplied(n, p);
    if !TeacherChanges(p) then m
    else
      match embed(TeacherTemplate(t, m))
      case Some(e) => m.(embedding := Some(e))
      case None => m
  }

  /** Once a notice has a section, an update cannot make it section-less
      again: a null spelling validates to None, and None leaves the section
      as it is. */
  lemma SectionCannotBeCleared(n: Notice, p: TeacherNoticeUpdateIn, t: Teacher,
                               embed: string -> Option<Embedding>)
    requires ValidateTeacherUpdate(p).Ok? && p.sec.Some? && NullSpelling(p.sec.value)
    ensures TeacherEdited(n, ValidateTeacherUpdate(p).value, t, embed).sec == n.sec
  {
    UpdateNullSectionIsAbsent(p);
  }

  /** A first page of the caller's notices holds as many as the limit
      allows, the newest ones, and all of them when they fit. */
  lemma OwnedFirstPage(rows: seq<Notice>, c: Creator, skip: nat, limit: nat)
    ensures var page := Page(ByNewest(Owned(rows, c), CreatedAt), skip, limit);
      skip == 0 ==>
        |page| == Min(limit, |Owned(rows, c)|)
        && (forall x, k :: x in rows && CreatedBy(x, c) && x !in page && k in page ==> x.createdAt <= k.createdAt)
        && (|Owned(rows, c)| <= limit ==> forall x :: x in rows && CreatedBy(x, c) ==> x in page)
  {
    if skip == 0 {
      var own := Owned(rows, c);
      var page := Page(ByNewest(own, CreatedAt), 0, limit);
      NewestKept(own, limit, CreatedAt);
      FirstPageComplete(own, limit, CreatedAt);
      forall x, k | x in rows && CreatedBy(x, c) && x !in page && k in page ensures x.createdAt <= k.createdAt {
        assert x in own;
        assert CreatedAt(x) <= CreatedAt(k);
      }
    }
  }

  /** The same for the rows of a student's feed. */
  lemma FeedFirstPage(rows: seq<Notice>, dept: string, sec: string, series: string, skip: nat, limit: nat)
    ensures var page := Page(ByNewest(FeedRows(rows, dept, sec, series), CreatedAt), skip, limit);
      skip == 0 ==>
        |page| == Min(limit, |FeedRows(rows, dept, sec, series)|)
        && (forall x, k :: x in rows && InFeed(x, dept, sec, series) && x !in page && k in page
                           ==> x.createdAt <= k.createdAt)
        && (|FeedRows(rows, dept, sec, series)| <= limit ==>
              forall x :: x in rows && InFeed(x, dept, sec, series) ==> x in page)
  {
    if skip == 0 {
      var feed := FeedRows(rows, dept, sec, series);
      var page := Page(ByNewest(feed, CreatedAt), 0, limit);
      NewestKept(feed, limit, CreatedAt);
      FirstPageComplete(feed, limit, CreatedAt);
      forall x, k | x in rows && InFeed(x, dept, sec, series) && x !in page && k in page
        ensures x.createdAt <= k.createdAt
      {
        assert x in feed;
        assert CreatedAt(x) <= CreatedAt(k);
      }
    }
  }

  // ---------------------------------------------------------------------
  // The table

  class NoticeTable {
    var rows: seq<Notice>

    ghost predicate Valid()
      reads this
    {
      UniqueIds(rows)
    }

    constructor()
      ensures rows == [] && Valid()
    {
      rows := [];
    }

    /** `create_notice_by_teacher`; `id` is the fresh key the database
        assigns. */
    method CreateByTeacher(p: TeacherNoticeIn, t: Teacher, id: string, now: int,
                           embed: string -> Option<Embedding>) returns (n: Notice)
      requires Valid() && id !in Ids(rows)
      modifies this
      ensures n == TeacherNotice(p, t, id, now, embed)
      ensures rows == old(rows) + [n] && Valid()
    {
      n := TeacherNotice(p, t, id, now, embed);
      rows := rows + [n];
    }

    /** `create_notice_by_cr` */
    method CreateByCr(p: CrNoticeIn, cr: Cr, id: string, now: int,
                      embed: string -> Option<Embedding>) returns (r: Result<Notice>)
      requires Valid() && id !in Ids(rows)
      modifies this
      ensures r == CrNotice(p, cr, id, now, embed)
      ensures r.Ok? ==> rows == old(rows) + [r.value]
      ensures r.Err? ==> rows == old(rows)
      ensures Valid()
    {
      r := CrNotice(p, cr, id, now, embed);
      if r.Ok? {
        rows := rows + [r.value];
      }
    }

    /** `get_teacher_notices` / `get_cr_notices`: the creator's own notices,
        newest first, then `offset(skip).limit(limit)`. */
    function Mine(c: Creator, skip: nat, limit: nat): (r: seq<Notice>)
      reads this
      ensures |r| <= limit && NewestFirst(r, CreatedAt)
      ensures forall x :: x in r ==> x in rows && CreatedBy(x, c)
      ensures skip == 0 ==> |r| == Min(limit, |Owned(rows, c)|)
      ensures skip == 0 ==> forall x, k :: x in rows && CreatedBy(x, c) && x !in r && k in r ==> x.createdAt <= k.createdAt
      ensures skip == 0 && |Owned(rows, c)| <= limit ==> forall x :: x in rows && CreatedBy(x, c) ==> x in r
    {
      NewestPage(Owned(rows, c), skip, limit, CreatedAt);
      OwnedFirstPage(rows, c, skip, limit);
      Page(ByNewest(Owned(rows, c), CreatedAt), skip, limit)
    }

    /** `get_teacher_notice_by_id` / `get_cr_notice_by_id` */
    function ById(c: Creator, id: string): (r: Result<Notice>)
      reads this
      ensures r.Ok? <==> exists i :: 0 <= i < |rows| && rows[i].id == id && CreatedBy(rows[i], c)
      ensures r.Ok? ==> r.value in rows && r.value.id == id && CreatedBy(r.value, c)
      ensures r.Err? ==> r.error == NotFound
    {
      var k := FindOwned(rows, c, id);
      if k == -1 then Err(NotFound) else Ok(rows[k])
    }

    /** `get_student_notices`: a student needs dept, section and series;
        the feed holds exactly the matching notices, newest first, paged. */
    function StudentFeed(st: StudentProfile, skip: nat, limit: nat): (r: Result<seq<Notice>>)
      reads this
      ensures r.Err? <==> !(Truthy(st.dept) && Truthy(st.Section()) && Truthy(st.series))
      ensures r.Err? ==> r.error == HttpError(400, StudentScopeMessage)
      ensures r.Ok? ==> |r.value| <= limit && NewestFirst(r.value, CreatedAt)
      ensures r.Ok? ==> forall x :: x in r.value ==>
                x in rows && InFeed(x, st.dept.value, st.Section().value, st.series.value)
      ensures r.Ok? && skip == 0 ==>
                |r.value| == Min(limit, |FeedRows(rows, st.dept.value, st.Section().value, st.series.value)|)
      ensures r.Ok? && skip == 0 ==> forall x, k ::
                x in rows && InFeed(x, st.dept.value, st.Section().value, st.series.value) && x !in r.value && k in r.value
                ==> x.createdAt <= k.createdAt
      ensures r.Ok? && skip == 0 && |FeedRows(rows, st.dept.value, st.Section().value, st.series.value)| <= limit ==>
                forall x :: x in rows && InFeed(x, st.dept.value, st.Section().value, st.series.value) ==> x in r.value
    {
      if !(Truthy(st.dept) && Truthy(st.Section()) && Truthy(st.series)) then
        Err(HttpError(400, StudentScopeMessage))
      else
        var matching := FeedRows(rows, st.dept.value, st.Section().value, st.series.value);
        NewestPage(matching, skip, limit, CreatedAt);
        FeedFirstPage(rows, st.dept.value, st.Section().value, st.series.value, skip, limit);
        Ok(Page(ByNewest(matching, CreatedAt), skip, limit))
    }

    /** `update_cr_notice` */
    method UpdateByCr(cr: Cr, id: string, p: CrNoticeUpdateIn, embed: string -> Option<Embedding>)
      returns (r: Result<Notice>)
      requires Valid()
      modifies this
      ensures var k := FindOwned(old(rows), ByCr(cr.id), id);
              if k == -1 then r == Err(NotFound) && rows == old(rows)
              else r == Ok(CrEdited(old(rows)[k], p, cr, embed)) && rows == old(rows)[k := r.value]
      ensures Valid()
    {
      var k := FindOwned(rows, ByCr(cr.id), id);
      if k == -1 {
        return Err(NotFound);
      }
      var n := CrEdited(rows[k], p, cr, embed);
      rows := rows[k := n];
      r := Ok(n);
    }

    /** `update_teacher_notice` */
    method UpdateByTeacher(t: Teacher, id: string, p: TeacherNoticeUpdateIn, embed: string -> Option<Embedding>)
      returns (r: Result<Notice>)
      requires Valid()
      modifies this
      ensures var k := FindOwned(old(rows), ByTeacher(t.id), id);
              if k == -1 then r == Err(NotFound) && rows == old(rows)
              else r == Ok(TeacherEdited(old(rows)[k], p, t, embed)) && rows == old(rows)[k := r.value]
      ensures Valid()
    {
      var k := FindOwned(rows, ByTeacher(t.id), id);
      if k == -1 {
        return Err(NotFound);
      }
      var n := TeacherEdited(rows[k], p, t, embed);
      rows := rows[k := n];
      r := Ok(n);
    }

    /** `delete_teacher_notice` / `delete_cr_notice` */
    method Delete(c: Creator, id: string) returns (r: Result<()>)
      requires Valid()
      modifies this
      ensures var k := FindOwned(old(rows), c, id);
              if k == -1 then r == Err(NotFound) && rows == old(rows)
              else r == Ok(()) && rows == old(rows)[..k] + old(rows)[k + 1..]
      ensures Valid()
    {
      var k := FindOwned(rows, c, id);
      if k == -1 {
        return Err(NotFound);
      }
      rows := rows[..k] + rows[k + 1..];
      r := Ok(());
    }
  }

  /** After a delete no row with that id is left: ids are unique, so the row
      removed was the only one. */
  lemma DeleteRemovesId(rows: seq<Notice>, c: Creator, id: string)
    requires UniqueIds(rows) && FindOwned(rows, c, id) >= 0
    ensures var k := FindOwned(rows, c, id);
            id !in Ids(rows[..k] + rows[k + 1..])
  {
    var k := FindOwned(rows, c, id);
    var rest := rows[..k] + rows[k + 1..];
    forall i | 0 <= i < |rest| ensures rest[i].id != id {
      if i < k {
        assert rest[i] == rows[i];
      } else {
        assert rest[i] == rows[i + 1];
      }
    }
  }
}
