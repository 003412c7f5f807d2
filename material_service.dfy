/** The CR material routers and the lookups they share: each kind of material
    has its own table, and a CR creates, lists, reads, patches and deletes
    only their own uploads. The database supplies fresh ids and the clock;
    the embedding service is a function from a text to the list of vectors
    it returns (None when it raises). */
module MaterialService {

  import opened Common
  import opened Text
  import opened Rows
  import opened Profiles
  import opened MaterialSchemas
  import NoticeRecords

  type Embedding = NoticeRecords.Embedding

  /** `EMBED_DIM` */
  const EmbedDim := 384

  /** A stored material row; the kind-specific fields are None for the
      kinds without them. */
  datatype Material = Material(
    id: string,
    kind: Kind,
    driveUrl: string,
    courseCode: string,
    courseName: string,
    topic: Option<string>,
    writtenBy: Option<string>,
    ctNo: Option<int>,
    year: Option<int>,
    dept: Option<string>,
    sec: Option<string>,
    series: string,
    uploadedBy: string,
    embedding: Option<Embedding>,
    createdAt: int)

  function CreatedAt(m: Material): int
  {
    m.createdAt
  }

  // ---------------------------------------------------------------------
  // material_service

  function NotFoundMessage(k: Kind): string
  {
    match k
    case ClassNote => "Class note not found"
    case CtQuestion => "CT Question not found"
    case LectureSlide => "Lecture slide not found"
    case SemesterQuestion => "Semester question not found"
  }

  const NotAllowed := HttpError(403, "Not allowed")

  /** The index of the first row with this id, or -1. */
  function FindId(rows: seq<Material>, id: string): (k: int)
    ensures -1 <= k < |rows|
    ensures k >= 0 ==> rows[k].id == id && forall i :: 0 <= i < k ==> rows[i].id != id
    ensures k == -1 <==> forall i :: 0 <= i < |rows| ==> rows[i].id != id
  {
    if rows == [] then -1
    else if rows[0].id == id then 0
    else
      var k := FindId(rows[1..], id);
      if k == -1 then -1 else k + 1
  }

  /** `get_class_note_or_404` and its three siblings. */
  function GetOr404(rows: seq<Material>, k: Kind, id: string): (r: Result<Material>)
    ensures r.Ok? <==> exists i :: 0 <= i < |rows| && rows[i].id == id
    ensures r.Ok? ==> r.value == rows[FindId(rows, id)] && r.value.id == id
    ensures r.Err? ==> r.error == HttpError(404, NotFoundMessage(k))
  {
    var i := FindId(rows, id);
    if i == -1 then Err(HttpError(404, NotFoundMessage(k))) else Ok(rows[i])
  }

  /** `ensure_cr_owns_note` and its three siblings: 403 unless the uploader
      is this CR; the record itself is returned untouched. */
  function EnsureOwns(m: Material, crId: string): (r: Result<Material>)
    ensures r.Err? <==> m.uploadedBy != crId
    ensures r.Err? ==> r.error == NotAllowed
    ensures r.Ok? ==> r.value == m
  {
    if m.uploadedBy != crId then Err(NotAllowed) else Ok(m)
  }

  // ---------------------------------------------------------------------
  // The class-note embedding

  /** The "key: value" parts of `_build_classnote_template`; a missing value
      prints as "None". */
  function ClassNoteParts(m: Material): seq<string>
  {
    ["material: class_note",
     "course_code: " + m.courseCode,
     "course_name: " + m.courseName,
     "topic: " + Shown(m.topic),
     "written_by: " + Shown(m.writtenBy),
     "dept: " + Shown(m.dept),
     "sec: " + Shown(m.sec),
     "series: " + m.series,
     "url: " + m.driveUrl]
  }

  /** A part is kept when it is non-empty and does not contain "None". */
  predicate Keepable(p: string)
  {
    p != "" && !ContainsSub(p, "None")
  }

  /** `_build_classnote_template` */
  function ClassNoteTemplate(m: Material): string
  {
    Join(Filter(ClassNoteParts(m), Keepable), " | ")
  }

  /** The template never contains "None": every part containing it was
      dropped, and the separator cannot complete one across two parts. */
  lemma TemplateHasNoNone(m: Material)
    ensures !ContainsSub(ClassNoteTemplate(m), "None")
  {
    var kept := Filter(ClassNoteParts(m), Keepable);
    forall i | 0 <= i < |kept| ensures !ContainsSub(kept[i], "None") {
      assert kept[i] in kept;
    }
    JoinAvoids(kept, " | ", "None");
  }

  /** A text containing "None" still contains it behind a prefix. */
  lemma ContainsBehindPrefix(a: string, t: string, w: string)
    requires ContainsSub(t, w)
    ensures ContainsSub(a + t, w)
  {
    var i :| 0 <= i <= |t| - |w| && OccursAt(t, w, i);
    assert (a + t)[|a| + i..|a| + i + |w|] == t[i..i + |w|];
    assert OccursAt(a + t, w, |a| + i);
  }

  /** A part whose value contains "None", and so every missing value, is
      left out of the template; e.g. a topic "None of these" is dropped. */
  lemma NoneValuesDropped(m: Material, i: int)
    requires 3 <= i <= 6
    requires var v := [m.topic, m.writtenBy, m.dept, m.sec][i - 3]; v.None? || ContainsSub(v.value, "None")
    ensures ClassNoteParts(m)[i] !in Filter(ClassNoteParts(m), Keepable)
  {
    var v := [m.topic, m.writtenBy, m.dept, m.sec][i - 3];
    var prefix := ["topic: ", "written_by: ", "dept: ", "sec: "][i - 3];
    assert ClassNoteParts(m)[i] == prefix + Shown(v);
    if v.None? {
      assert OccursAt("None", "None", 0);
    }
    ContainsBehindPrefix(prefix, Shown(v), "None");
  }

  /** `_try_update_classnote_embedding` after the service answered: the new
      vector is taken only from a non-empty answer whose first vector has
      384 numbers; otherwise the old embedding stays. */
  function EmbeddingUpdate(kept: Option<Embedding>, vecs: Option<seq<Embedding>>): (r: Option<Embedding>)
    ensures r == kept || (vecs.Some? && |vecs.value| > 0 && r == Some(vecs.value[0]))
    ensures r != kept ==> |r.value| == EmbedDim
    ensures vecs.None? || |vecs.value| == 0 ==> r == kept
  {
    match vecs
    case None => kept
    case Some(vs) =>
      if |vs| == 0 then kept
      else if |vs[0]| != EmbedDim then kept
      else Some(vs[0])
  }

  /** Every stored embedding has the dimension of the vector column. */
  predicate EmbeddingFits(m: Material)
  {
    m.embedding.None? || |m.embedding.value| == EmbedDim
  }

  lemma EmbeddingUpdateFits(m: Material, vecs: Option<seq<Embedding>>)
    ensures EmbeddingFits(m) ==> EmbeddingFits(m.(embedding := EmbeddingUpdate(m.embedding, vecs)))
  {
  }

  // ---------------------------------------------------------------------
  // The routers

  /** `getattr(cr, "sec", None) or getattr(cr, "section", None)` */
  function CrSec(cr: Cr): Option<string>
  {
    OrElse(cr.profile.sec, cr.profile.section)
  }

  /** The CR's own uploads within the CR's current dept, section and
      series: the list filter of the four routers. */
  predicate InCrScope(m: Material, cr: Cr)
  {
    m.uploadedBy == cr.id && m.dept == cr.profile.dept && m.sec == CrSec(cr)
    && m.series == Shown(cr.profile.series)
  }

  /** The row a create route stores: the payload's fields and the CR's
      scope and id. The class-note route upper-cases the code once more and
      embeds the note before saving; the other kinds are stored without an
      embedding. */
  function NewMaterial(k: Kind, p: MaterialIn, cr: Cr, id: string, now: int,
                       embed: string -> Option<seq<Embedding>>): (r: Material)
    requires Complete(k, p)
    ensures r.kind == k && r.id == id && r.createdAt == now
    ensures InCrScope(r, cr)
    ensures r.driveUrl == p.driveUrl.value && r.courseName == p.courseName.value
    ensures r.courseCode == (if k == ClassNote then Upper(p.courseCode.value) else p.courseCode.value)
    ensures EmbeddingFits(r)
    ensures k != ClassNote ==> r.embedding.None?
  {
    var m := Material(id, k, p.driveUrl.value,
                      if k == ClassNote then Upper(p.courseCode.value) else p.courseCode.value,
                      p.courseName.value, p.topic, p.writtenBy, p.ctNo, p.year,
                      cr.profile.dept, CrSec(cr), Shown(cr.profile.series), cr.id, None, now);
    if k == ClassNote then m.(embedding := EmbeddingUpdate(None, embed(ClassNoteTemplate(m)))) else m
  }

  /** For a body the create schema produced, the extra upper-casing of the
      class-note route changes nothing. */
  lemma CreateCodeUpperOnce(k: Kind, m: MaterialIn, cr: Cr, id: string, now: int,
                            embed: string -> Option<seq<Embedding>>)
    requires ValidateCreate(k, m).Ok?
    ensures NewMaterial(k, ValidateCreate(k, m).value, cr, id, now, embed).courseCode == Upper(m.courseCode.value)
  {
    UpperIdempotent(m.courseCode.value);
  }

  /** A patch names a semantic field of a class note. */
  predicate TouchesSemantics(p: MaterialIn)
  {
    p.driveUrl.Some? || p.courseCode.Some? || p.courseName.Some? || p.topic.Some? || p.writtenBy.Some?
  }

  /** The `setattr` loop over the supplied fields, with the course code
      upper-cased. */
  function Applied(m: Material, p: MaterialIn): (r: Material)
    ensures r.id == m.id && r.kind == m.kind && r.uploadedBy == m.uploadedBy && r.createdAt == m.createdAt
    ensures r.dept == m.dept && r.sec == m.sec && r.series == m.series && r.embedding == m.embedding
    ensures r.driveUrl == p.driveUrl.GetOr(m.driveUrl) && r.courseName == p.courseName.GetOr(m.courseName)
    ensures r.courseCode == (if p.courseCode.Some? then Upper(p.courseCode.value) else m.courseCode)
    ensures r.topic == (if p.topic.Some? then p.topic else m.topic)
    ensures r.writtenBy == (if p.writtenBy.Some? then p.writtenBy else m.writtenBy)
    ensures r.ctNo == (if p.ctNo.Some? then p.ctNo else m.ctNo)
    ensures r.year == (if p.year.Some? then p.year else m.year)
  {
    m.(driveUrl := p.driveUrl.GetOr(m.driveUrl),
       courseCode := if p.courseCode.Some? then Upper(p.courseCode.value) else m.courseCode,
       courseName := p.courseName.GetOr(m.courseName),
       topic := if p.topic.Some? then p.topic else m.topic,
       writtenBy := if p.writtenBy.Some? then p.writtenBy else m.writtenBy,
       ctNo := if p.ctNo.Some? then p.ctNo else m.ctNo,
       year := if p.year.Some? then p.year else m.year)
  }

  /** A patch route on a found, owned row: the supplied fields, then for a
      class note a new embedding when a semantic field was supplied. */
  function Patched(m: Material, p: MaterialIn, embed: string -> Option<seq<Embedding>>): (r: Material)
    ensures r == Applied(m, p).(embedding := r.embedding)
    ensures m.kind != ClassNote || !TouchesSemantics(p) ==> r.embedding == m.embedding
    ensures EmbeddingFits(m) ==> EmbeddingFits(r)
  {
    var a := Applied(m, p);
    EmbeddingUpdateFits(a, embed(ClassNoteTemplate(a)));
    a.(embedding := if m.kind == ClassNote && TouchesSemantics(p)
                    then EmbeddingUpdate(a.embedding, embed(ClassNoteTemplate(a)))
                    else a.embedding)
  }

  /** An empty patch changes nothing. */
  lemma EmptyPatchIsIdentity(m: Material, embed: string -> Option<seq<Embedding>>)
    ensures Patched(m, MaterialIn(None, None, None, None, None, None, None), embed) == m
  {
  }

  predicate UniqueIds(rows: seq<Material>)
  {
    forall i, j :: 0 <= i < j < |rows| ==> rows[i].id != rows[j].id
  }

  function Ids(rows: seq<Material>): (r: set<string>)
    ensures forall x :: x in r <==> exists i :: 0 <= i < |rows| && rows[i].id == x
  {
    if rows == [] then {} else {rows[0].id} + Ids(rows[1..])
  }

  /** The table of one kind of material. */
  class MaterialTable {
    const kind: Kind
    var rows: seq<Material>

    ghost predicate Valid()
      reads this
    {
      UniqueIds(rows) && forall i :: 0 <= i < |rows| ==> rows[i].kind == kind && EmbeddingFits(rows[i])
    }

    constructor(k: Kind)
      ensures kind == k && rows == [] && Valid()
    {
      kind := k;
      rows := [];
    }

    /** The create route; `id` is the fresh key the database assigns. */
    method Create(p: MaterialIn, cr: Cr, id: string, now: int, embed: string -> Option<seq<Embedding>>)
      returns (m: Material)
      requires Valid() && Complete(kind, p) && id !in Ids(rows)
      modifies this
      ensures m == NewMaterial(kind, p, cr, id, now, embed)
      ensures rows == old(rows) + [m] && Valid()
    {
      m := NewMaterial(kind, p, cr, id, now, embed);
      rows := rows + [m];
    }

    /** The list route: the CR's uploads within the CR's scope, newest
        first. */
    function List(cr: Cr): (r: seq<Material>)
      reads this
      ensures NewestFirst(r, CreatedAt)
      ensures forall x :: x in r <==> x in rows && InCrScope(x, cr)
    {
      ByNewestSameRows(Filter(rows, x => InCrScope(x, cr)), CreatedAt);
      ByNewest(Filter(rows, x => InCrScope(x, cr)), CreatedAt)
    }

    /** The get route: 404 for an unknown id, 403 for another CR's row. */
    function Get(cr: Cr, id: string): (r: Result<Material>)
      reads this
      ensures r.Ok? <==> exists i :: 0 <= i < |rows| && rows[i].id == id && rows[i].uploadedBy == cr.id
                                     && forall j :: 0 <= j < i ==> rows[j].id != id
      ensures r.Ok? ==> r.value in rows && r.value.id == id && r.value.uploadedBy == cr.id
      ensures r.Err? ==> r.error == HttpError(404, NotFoundMessage(kind)) || r.error == NotAllowed
      ensures (forall i :: 0 <= i < |rows| ==> rows[i].id != id) <==> r == Err(HttpError(404, NotFoundMessage(kind)))
    {
      var m :- GetOr404(rows, kind, id);
      EnsureOwns(m, cr.id)
    }

    /** The patch route. */
    method Patch(cr: Cr, id: string, p: MaterialIn, embed: string -> Option<seq<Embedding>>)
      returns (r: Result<Material>)
      requires Valid()
      modifies this
      ensures old(Get(cr, id)).Err? ==> r == old(Get(cr, id)) && rows == old(rows)
      ensures old(Get(cr, id)).Ok? ==>
                var k := FindId(old(rows), id);
                r == Ok(Patched(old(rows)[k], p, embed)) && rows == old(rows)[k := r.value]
      ensures Valid()
    {
      var g := Get(cr, id);
      if g.Err? {
        return g;
      }
      var k := FindId(rows, id);
      var n := Patched(rows[k], p, embed);
      rows := rows[k := n];
      r := Ok(n);
    }

    /** The delete route. */
    method Delete(cr: Cr, id: string) returns (r: Result<()>)
      requires Valid()
      modifies this
      ensures old(Get(cr, id)).Err? ==> r == Err(old(Get(cr, id)).error) && rows == old(rows)
      ensures old(Get(cr, id)).Ok? ==>
                var k := FindId(old(rows), id);
                r == Ok(()) && rows == old(rows)[..k] + old(rows)[k + 1..]
      ensures Valid()
    {
      var g := Get(cr, id);
      if g.Err? {
        return Err(g.error);
      }
      var k := FindId(rows, id);
      rows := rows[..k] + rows[k + 1..];
      r := Ok(());
    }
  }

  /** What a CR uploads shows up in their own list while their scope stays
      the same. */
  lemma CreatedIsListed(t: MaterialTable, p: MaterialIn, cr: Cr, id: string, now: int,
                        embed: string -> Option<seq<Embedding>>)
    requires Complete(t.kind, p) && NewMaterial(t.kind, p, cr, id, now, embed) in t.rows
    ensures NewMaterial(t.kind, p, cr, id, now, embed) in t.List(cr)
  {
  }

  /** No CR can read, patch or delete another CR's upload. */
  lemma OthersCannotReach(t: MaterialTable, cr: Cr, id: string, i: int)
    requires UniqueIds(t.rows) && 0 <= i < |t.rows| && t.rows[i].id == id && t.rows[i].uploadedBy != cr.id
    ensures t.Get(cr, id) == Err(NotAllowed)
  {
    assert FindId(t.rows, id) == i;
  }
}
