/** The teacher's result-sheet endpoints: creating a sheet (refused when the
    same group already has one), saving a batch of marks with one upsert
    statement, reading an owned sheet with its entries, and the history
    list. Row ids and the clock are parameters. */
module SheetRouter {

  import opened Common
  import opened Text
  import opened Rows
  import opened ResultRecords
  import opened ResultSchemas
  import opened ResultService

  const DuplicateSheet := "Result sheet already exists for this course and CT no."
  const SectionRequired := "section: Field required"

  /** The columns of the unique group of a sheet. */
  datatype Group = Group(teacher: Option<string>, dept: string, section: Option<string>, series: string,
                         courseCode: string, ctNo: Option<int>)

  function GroupOf(s: Sheet): Group
  {
    Group(s.createdByTeacherId, s.dept, Some(s.section), s.series, s.courseCode, s.ctNo)
  }

  /** The group a payload asks for; `== None` on a column is `IS NULL`. */
  function RequestedGroup(teacherId: string, p: SheetIn): Group
  {
    Group(Some(teacherId), p.dept, p.section, IntToString(p.series), p.courseCode, p.ctNo)
  }

  /** No two sheets share a group. */
  predicate UniqueGroups(sheets: seq<Sheet>)
  {
    forall i, j :: 0 <= i < j < |sheets| ==> GroupOf(sheets[i]) != GroupOf(sheets[j])
  }

  /** The duplicate query finds a sheet. */
  predicate Taken(sheets: seq<Sheet>, teacherId: string, p: SheetIn)
  {
    exists s :: s in sheets && GroupOf(s) == RequestedGroup(teacherId, p)
  }

  /** The stored row: the creator, the generated title, the series as text,
      the other columns from the payload. */
  function NewSheet(id: string, teacherId: string, p: SheetIn, section: string, now: int): (s: Sheet)
    ensures s.title == Some(Title(p)) && s.createdByTeacherId == Some(teacherId)
  {
    Sheet(id, Some(teacherId), Some(Title(p)), p.ctNo, p.courseCode, p.courseName, p.dept, section,
          IntToString(p.series), p.startingRoll, p.endingRoll, now)
  }

  /** `create_result_sheet` as written: 409 for a taken group; otherwise
      the row is inserted, and a payload without a section breaks the NOT
      NULL rule of `result_sheets.section`. */
  function CreateAsWritten(sheets: seq<Sheet>, teacherId: string, p: SheetIn, id: string, now: int): (r: Result<Sheet>)
    ensures Taken(sheets, teacherId, p) ==> r == Err(HttpError(409, DuplicateSheet))
    ensures !Taken(sheets, teacherId, p) && p.section.None? ==> r.Err? && r.error.IntegrityError?
    ensures r.Ok? ==> p.section.Some? && r.value == NewSheet(id, teacherId, p, p.section.value, now)
  {
    if Taken(sheets, teacherId, p) then Err(HttpError(409, DuplicateSheet))
    else if p.section.None? then Err(IntegrityError("NOT NULL result_sheets.section"))
    else Ok(NewSheet(id, teacherId, p, p.section.value, now))
  }

  /** The schema lets a sheet have no section and the title generator
      documents one, but no such sheet can be stored. */
  lemma SectionlessSheetNeverStored(sheets: seq<Sheet>, teacherId: string, p: SheetIn, id: string, now: int)
    requires p.section.None?
    ensures CreateAsWritten(sheets, teacherId, p, id, now).Err?
    ensures CreateAsWritten(sheets, teacherId, p, id, now).error.IntegrityError?
  {
    forall s | s in sheets ensures GroupOf(s) != RequestedGroup(teacherId, p) {
      assert GroupOf(s).section.Some?;
    }
  }

  /** Sheet creation with the section required up front, as the column
      and every later lookup by section need: 422 without a section, 409 for
      a taken group, else the new row. */
  function CreateSheet(sheets: seq<Sheet>, teacherId: string, p: SheetIn, id: string, now: int): (r: Result<Sheet>)
    ensures p.section.None? ==> r == Err(HttpError(422, SectionRequired))
    ensures p.section.Some? && Taken(sheets, teacherId, p) ==> r == Err(HttpError(409, DuplicateSheet))
    ensures r.Ok? <==> p.section.Some? && !Taken(sheets, teacherId, p)
    ensures r.Ok? ==> r.value == NewSheet(id, teacherId, p, p.section.value, now)
                      && GroupOf(r.value) == RequestedGroup(teacherId, p)
  {
    if p.section.None? then Err(HttpError(422, SectionRequired))
    else CreateAsWritten(sheets, teacherId, p, id, now)
  }

  /** With a section, the corrected creation agrees with the code. */
  lemma CreateSheetAgrees(sheets: seq<Sheet>, teacherId: string, p: SheetIn, id: string, now: int)
    requires p.section.Some?
    ensures CreateSheet(sheets, teacherId, p, id, now) == CreateAsWritten(sheets, teacherId, p, id, now)
  {
  }

  /** Creating keeps groups unique. */
  lemma CreateKeepsGroupsUnique(sheets: seq<Sheet>, teacherId: string, p: SheetIn, id: string, now: int)
    requires UniqueGroups(sheets)
    requires CreateSheet(sheets, teacherId, p, id, now).Ok?
    ensures UniqueGroups(sheets + [CreateSheet(sheets, teacherId, p, id, now).value])
  {
    var s := CreateSheet(sheets, teacherId, p, id, now).value;
    var all := sheets + [s];
    forall i, j | 0 <= i < j < |all| ensures GroupOf(all[i]) != GroupOf(all[j]) {
      if j == |sheets| {
        assert all[i] in sheets;
      }
    }
  }

  // ---------------------------------------------------------------------
  // Entries

  /** A submitted entry as stored: marks stripped and upper-cased. */
  function Stored(sheetId: string, e: EntryIn): (r: Entry)
    ensures r.sheetId == sheetId && r.rollNo == e.rollNo && r.marks == Upper(Strip(e.marks))
  {
    Entry(sheetId, e.rollNo, Upper(Strip(e.marks)))
  }

  /** The rows of one statement may not hit the same (sheet, roll) twice. */
  predicate DistinctRolls(es: seq<EntryIn>)
  {
    forall i, j :: 0 <= i < j < |es| ==> es[i].rollNo != es[j].rollNo
  }

  predicate SameKey(a: Entry, b: Entry)
  {
    a.sheetId == b.sheetId && a.rollNo == b.rollNo
  }

  /** The index of the entry with the key of `x`, or -1. */
  function KeyIndex(entries: seq<Entry>, x: Entry): (i: int)
    ensures -1 <= i < |entries|
    ensures i >= 0 ==> SameKey(entries[i], x)
    ensures i == -1 <==> forall k :: 0 <= k < |entries| ==> !SameKey(entries[k], x)
  {
    if entries == [] then -1
    else if SameKey(entries[0], x) then 0
    else
      var j := KeyIndex(entries[1..], x);
      assert forall k :: 1 <= k < |entries| ==> entries[k] == entries[1..][k - 1];
      if j == -1 then -1 else j + 1
  }

  /** One row of `INSERT ... ON CONFLICT (sheet, roll) DO UPDATE SET
      marks`: an existing entry gets the new marks, otherwise the row is
      added. */
  function UpsertEntry(entries: seq<Entry>, x: Entry): (r: seq<Entry>)
    ensures |entries| <= |r| <= |entries| + 1
    ensures UniqueEntries(entries) ==> UniqueEntries(r)
    ensures x in r
    ensures forall e :: e in entries && !SameKey(e, x) ==> e in r
    ensures forall e :: e in r ==> e == x || (e in entries && !SameKey(e, x)) || !UniqueEntries(entries)
  {
    var i := KeyIndex(entries, x);
    if i >= 0 then
      var r := entries[i := entries[i].(marks := x.marks)];
      assert r[i] == x;
      assert forall k :: 0 <= k < |entries| && k != i ==> r[k] == entries[k];
      assert forall e :: e in entries && !SameKey(e, x) ==> e in r by {
        forall e | e in entries && !SameKey(e, x) ensures e in r {
          var k :| 0 <= k < |entries| && entries[k] == e;
          assert k != i && r[k] == e;
        }
      }
      r
    else
      entries + [x]
  }

  /** The whole statement: the batch's rows in order. */
  function UpsertAll(entries: seq<Entry>, sheetId: string, es: seq<EntryIn>): (r: seq<Entry>)
    ensures |entries| <= |r| <= |entries| + |es|
    ensures es != [] ==> Stored(sheetId, es[|es| - 1]) in r
    decreases |es|
  {
    if es == [] then entries
    else UpsertEntry(UpsertAll(entries, sheetId, es[..|es| - 1]), Stored(sheetId, es[|es| - 1]))
  }

  /** The key is one of the batch's. */
  predicate InBatch(sheetId: string, es: seq<EntryIn>, e: Entry)
  {
    e.sheetId == sheetId && exists i :: 0 <= i < |es| && es[i].rollNo == e.rollNo
  }

  /** The statement keeps the table's keys unique. */
  lemma {:induction false} UpsertAllUnique(entries: seq<Entry>, sheetId: string, es: seq<EntryIn>)
    requires UniqueEntries(entries)
    ensures UniqueEntries(UpsertAll(entries, sheetId, es))
    decreases |es|
  {
    if es != [] {
      UpsertAllUnique(entries, sheetId, es[..|es| - 1]);
    }
  }

  /** Every submitted entry is stored as submitted. */
  lemma {:induction false} UpsertAllStores(entries: seq<Entry>, sheetId: string, es: seq<EntryIn>)
    requires DistinctRolls(es)
    ensures forall i :: 0 <= i < |es| ==> Stored(sheetId, es[i]) in UpsertAll(entries, sheetId, es)
    decreases |es|
  {
    if es != [] {
      var init := es[..|es| - 1];
      var x := Stored(sheetId, es[|es| - 1]);
      assert DistinctRolls(init);
      UpsertAllStores(entries, sheetId, init);
      forall i | 0 <= i < |es| - 1 ensures Stored(sheetId, es[i]) in UpsertAll(entries, sheetId, es) {
        assert init[i] == es[i];
        assert !SameKey(Stored(sheetId, es[i]), x);
      }
    }
  }

  /** An entry of a key outside the batch is kept. */
  lemma {:induction false} UpsertAllKeeps(entries: seq<Entry>, sheetId: string, es: seq<EntryIn>)
    ensures forall e :: e in entries && !InBatch(sheetId, es, e) ==> e in UpsertAll(entries, sheetId, es)
    decreases |es|
  {
    if es != [] {
      var init := es[..|es| - 1];
      var x := Stored(sheetId, es[|es| - 1]);
      UpsertAllKeeps(entries, sheetId, init);
      forall e | e in entries && !InBatch(sheetId, es, e) ensures e in UpsertAll(entries, sheetId, es) {
        assert !InBatch(sheetId, init, e) by {
          forall i | 0 <= i < |init| ensures !(e.sheetId == sheetId && init[i].rollNo == e.rollNo) {
            assert es[i] == init[i];
          }
        }
        assert !SameKey(e, x);
      }
    }
  }

  /** An entry after the statement: a submitted one, or a kept one. */
  predicate Accounted(entries: seq<Entry>, sheetId: string, es: seq<EntryIn>, e: Entry)
  {
    (exists i :: 0 <= i < |es| && e == Stored(sheetId, es[i])) || (e in entries && !InBatch(sheetId, es, e))
  }

  lemma AccountedStep(entries: seq<Entry>, sheetId: string, es: seq<EntryIn>, e: Entry)
    requires es != [] && Accounted(entries, sheetId, es[..|es| - 1], e)
    requires !SameKey(e, Stored(sheetId, es[|es| - 1]))
    ensures Accounted(entries, sheetId, es, e)
  {
    var init := es[..|es| - 1];
    if i :| 0 <= i < |init| && e == Stored(sheetId, init[i]) {
      assert init[i] == es[i];
    } else {
      KeptStays(entries, sheetId, es, e);
    }
  }

  lemma KeptStays(entries: seq<Entry>, sheetId: string, es: seq<EntryIn>, e: Entry)
    requires es != [] && e in entries && !InBatch(sheetId, es[..|es| - 1], e)
    requires !(e.sheetId == sheetId && e.rollNo == es[|es| - 1].rollNo)
    ensures !InBatch(sheetId, es, e)
  {
    var init := es[..|es| - 1];
    forall i | 0 <= i < |es| ensures !(e.sheetId == sheetId && es[i].rollNo == e.rollNo) {
      if i < |init| {
        assert init[i] == es[i];
      }
    }
  }

  /** Nothing but submitted entries and kept ones is in the table. */
  lemma {:induction false} UpsertAllOnly(entries: seq<Entry>, sheetId: string, es: seq<EntryIn>)
    requires UniqueEntries(entries)
    ensures forall e :: e in UpsertAll(entries, sheetId, es) ==> Accounted(entries, sheetId, es, e)
    decreases |es|
  {
    if es != [] {
      var init := es[..|es| - 1];
      var x := Stored(sheetId, es[|es| - 1]);
      var before := UpsertAll(entries, sheetId, init);
      UpsertAllOnly(entries, sheetId, init);
      UpsertAllUnique(entries, sheetId, init);
      forall e | e in UpsertAll(entries, sheetId, es) ensures Accounted(entries, sheetId, es, e) {
        if e == x {
          assert e == Stored(sheetId, es[|es| - 1]);
        } else {
          assert e in before && !SameKey(e, x);
          AccountedStep(entries, sheetId, es, e);
        }
      }
    }
  }

  /** The whole effect of the statement. */
  lemma UpsertAllEffect(entries: seq<Entry>, sheetId: string, es: seq<EntryIn>)
    requires UniqueEntries(entries) && DistinctRolls(es)
    ensures UniqueEntries(UpsertAll(entries, sheetId, es))
    ensures forall i :: 0 <= i < |es| ==> Stored(sheetId, es[i]) in UpsertAll(entries, sheetId, es)
    ensures forall e :: e in entries && !InBatch(sheetId, es, e) ==> e in UpsertAll(entries, sheetId, es)
    ensures forall e :: e in UpsertAll(entries, sheetId, es) ==> Accounted(entries, sheetId, es, e)
  {
    UpsertAllUnique(entries, sheetId, es);
    UpsertAllStores(entries, sheetId, es);
    UpsertAllKeeps(entries, sheetId, es);
    UpsertAllOnly(entries, sheetId, es);
  }

  const BatchConflict := "ON CONFLICT DO UPDATE command cannot affect row a second time"

  /** `batch_upsert_entries` on validated entries: 404 unless the teacher
      owns the sheet; the upsert statement fails when two entries share a
      roll; otherwise the new table and the number of submitted entries. */
  function BatchUpsert(sheets: seq<Sheet>, entries: seq<Entry>, teacherId: string, sheetId: string,
                       es: seq<EntryIn>): (r: Result<(seq<Entry>, int)>)
    ensures TeacherSheet(sheets, sheetId, teacherId).Err? ==> r == Err(HttpError(404, SheetNotFound))
    ensures r.Ok? <==> TeacherSheet(sheets, sheetId, teacherId).Ok? && DistinctRolls(es)
    ensures r.Ok? ==> r.value.1 == |es| && r.value.0 == UpsertAll(entries, sheetId, es)
  {
    var _ :- TeacherSheet(sheets, sheetId, teacherId);
    if !DistinctRolls(es) then Err(IntegrityError(BatchConflict))
    else Ok((UpsertAll(entries, sheetId, es), |es|))
  }

  /** After a saved batch, looking up any submitted roll of the sheet gives
      exactly the submitted marks, normalised. */
  lemma BatchStoresMarks(sheets: seq<Sheet>, entries: seq<Entry>, teacherId: string, sheetId: string,
                         es: seq<EntryIn>, i: int)
    requires UniqueEntries(entries) && 0 <= i < |es|
    requires BatchUpsert(sheets, entries, teacherId, sheetId, es).Ok?
    ensures FindEntry(BatchUpsert(sheets, entries, teacherId, sheetId, es).value.0, sheetId, es[i].rollNo)
            == Some(Entry(sheetId, es[i].rollNo, Upper(Strip(es[i].marks))))
  {
    var after := UpsertAll(entries, sheetId, es);
    UpsertAllEffect(entries, sheetId, es);
    var x := Stored(sheetId, es[i]);
    var f := FindEntry(after, sheetId, es[i].rollNo);
    assert f.Some?;
    var a :| 0 <= a < |after| && after[a] == f.value;
    var b :| 0 <= b < |after| && after[b] == x;
    assert a == b;
  }

  /** The entries of one sheet (the relationship loads them by roll). */
  function EntriesOf(entries: seq<Entry>, sheetId: string): (r: seq<Entry>)
    ensures forall e :: e in r <==> e in entries && e.sheetId == sheetId
  {
    Filter(entries, (e: Entry) => e.sheetId == sheetId)
  }

  /** `get_sheet`: the owned sheet with its entries, 404 otherwise. */
  function SheetWithEntries(sheets: seq<Sheet>, entries: seq<Entry>, teacherId: string, sheetId: string)
    : (r: Result<(Sheet, seq<Entry>)>)
    ensures r.Ok? <==> exists s :: s in sheets && OwnedBy(s, sheetId, teacherId)
    ensures r.Ok? ==> r.value.0 in sheets && OwnedBy(r.value.0, sheetId, teacherId)
                      && forall e :: e in r.value.1 <==> e in entries && e.sheetId == sheetId
    ensures r.Err? ==> r.error == HttpError(404, SheetNotFound)
  {
    var s :- TeacherSheet(sheets, sheetId, teacherId);
    Ok((s, EntriesOf(entries, sheetId)))
  }

  function SheetAt(s: Sheet): int
  {
    s.createdAt
  }

  function OwnSheets(sheets: seq<Sheet>, teacherId: string): seq<Sheet>
  {
    Filter(sheets, (s: Sheet) => s.createdByTeacherId == Some(teacherId))
  }

  /** `list_result_sheets_history`: the teacher's sheets, newest first. */
  function History(sheets: seq<Sheet>, teacherId: string): (r: seq<Sheet>)
    ensures Rows.NewestFirst(r, SheetAt)
    ensures forall s :: s in r <==> s in sheets && s.createdByTeacherId == Some(teacherId)
    ensures |r| <= |sheets|
  {
    ByNewestSameRows(OwnSheets(sheets, teacherId), SheetAt);
    var r := ByNewest(OwnSheets(sheets, teacherId), SheetAt);
    assert |r| == |multiset(r)|;
    r
  }

  /** The `result_sheets` and `result_entries` tables. */
  class ResultTables {
    var sheets: seq<Sheet>
    var entries: seq<Entry>

    ghost predicate Valid()
      reads this
    {
      UniqueGroups(sheets) && UniqueEntries(entries)
    }

    constructor()
      ensures Valid() && sheets == [] && entries == []
    {
      sheets := [];
      entries := [];
    }

    /** `create_result_sheet`, with the section required. */
    method Create(teacherId: string, p: SheetIn, id: string, now: int) returns (r: Result<Sheet>)
      requires Valid()
      modifies this
      ensures Valid()
      ensures r == CreateSheet(old(sheets), teacherId, p, id, now)
      ensures sheets == (if r.Ok? then old(sheets) + [r.value] else old(sheets))
      ensures entries == old(entries)
    {
      r := CreateSheet(sheets, teacherId, p, id, now);
      if r.Ok? {
        CreateKeepsGroupsUnique(sheets, teacherId, p, id, now);
        sheets := sheets + [r.value];
      }
    }

    /** `batch_upsert_entries`: on failure the statement is rolled back. */
    method SaveBatch(teacherId: string, sheetId: string, es: seq<EntryIn>) returns (r: Result<int>)
      requires Valid()
      modifies this
      ensures Valid()
      ensures sheets == old(sheets)
      ensures var b := BatchUpsert(old(sheets), old(entries), teacherId, sheetId, es);
              && (b.Ok? ==> r == Ok(b.value.1) && entries == b.value.0)
              && (b.Err? ==> r == Err(b.error) && entries == old(entries))
    {
      var b := BatchUpsert(sheets, entries, teacherId, sheetId, es);
      if b.Ok? {
        UpsertAllEffect(entries, sheetId, es);
        entries := b.value.0;
        r := Ok(b.value.1);
      } else {
        r := Err(b.error);
      }
    }
  }
}
