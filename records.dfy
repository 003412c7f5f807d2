/** Rows of the `result_sheets` and `result_entries` tables, shared by the
    check-marks tool, the mark-sheet tool and the sheet endpoints. */
module ResultRecords {

  import opened Common

  /** A result sheet; `createdAt` is the creation time as a number. */
  datatype Sheet = Sheet(
    id: string,
    createdByTeacherId: Option<string>,
    title: Option<string>,
    ctNo: Option<int>,
    courseCode: string,
    courseName: string,
    dept: string,
    section: string,
    series: string,
    startingRoll: Option<string>,
    endingRoll: Option<string>,
    createdAt: int)

  datatype Entry = Entry(sheetId: string, rollNo: string, marks: string)

  /** Rows in descending creation time (`ORDER BY created_at DESC`). */
  ghost predicate NewestFirst(sheets: seq<Sheet>)
  {
    forall i, j :: 0 <= i < j < |sheets| ==> sheets[i].createdAt >= sheets[j].createdAt
  }

  /** `result_entries` holds at most one row per (sheet, roll). */
  ghost predicate UniqueEntries(entries: seq<Entry>)
  {
    forall i, j :: 0 <= i < j < |entries| ==>
      !(entries[i].sheetId == entries[j].sheetId && entries[i].rollNo == entries[j].rollNo)
  }

  /** The first entry of the sheet for the roll (`.first()`). */
  function FindEntry(entries: seq<Entry>, sheetId: string, roll: string): (r: Option<Entry>)
    ensures r.Some? ==> r.value in entries && r.value.sheetId == sheetId && r.value.rollNo == roll
    ensures r.None? <==> forall e :: e in entries ==> !(e.sheetId == sheetId && e.rollNo == roll)
  {
    if |entries| == 0 then None
    else if entries[0].sheetId == sheetId && entries[0].rollNo == roll then Some(entries[0])
    else FindEntry(entries[1..], sheetId, roll)
  }
}
