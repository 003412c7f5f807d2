/** The data preparation of the CT mark sheet: full marks, the roll range,
    the marks map, the per-CT statistics, the table rows and the cells styled
    as absent. Parsing a mark as a float and printing numbers are given as
    `toFloat`, `fmtNum` (`_fmt_num`) and `fmtAvg` (`f"{x:.2f}"`). */
module MarkSheet {

  import opened Common
  import opened Text

  /** One element of `marks_batch_entries`. */
  datatype MarkEntry = MarkEntry(rollNo: string, ctNo: int, marks: string)

  /** `ct_full_marks`: one number for every CT, or a sequence with one per CT. */
  datatype FullMarksArg = Each(n: int) | PerCt(marks: seq<int>)

  const DefaultCtCount: nat := 4
  const DefaultFullMarks: FullMarksArg := Each(20)

  // ---------------------------------------------------------------------
  // Full marks and rolls

  function FullMarks(arg: FullMarksArg, ctCount: nat): (r: Result<seq<int>>)
    ensures r.Ok? ==> |r.value| == ctCount
    ensures arg.Each? ==> r.Ok? && forall i :: 0 <= i < ctCount ==> r.value[i] == arg.n
    ensures arg.PerCt? ==> (r.Ok? <==> |arg.marks| == ctCount)
    ensures arg.PerCt? && r.Ok? ==> r.value == arg.marks
    ensures r.Err? ==> r.error == ValueError("ct_full_marks must match ct_count")
  {
    match arg
    case Each(n) => Ok(seq(ctCount, _ => n))
    case PerCt(ms) =>
      if |ms| != ctCount then Err(ValueError("ct_full_marks must match ct_count")) else Ok(ms)
  }

  /** `[str(r) for r in range(start, end + 1)]` */
  function Range(start: int, end: int): (r: seq<string>)
    ensures |r| == if end < start then 0 else end - start + 1
    ensures forall i :: 0 <= i < |r| ==> r[i] == IntToString(start + i)
    decreases end - start
  {
    if end < start then [] else [IntToString(start)] + Range(start + 1, end)
  }

  function RollRange(start: int, end: int): (r: Result<seq<string>>)
    ensures r.Ok? <==> start <= end
    ensures r.Ok? ==> r.value == Range(start, end) && |r.value| == end - start + 1
    ensures r.Err? ==> r.error == ValueError("to_roll must be >= from_roll")
  {
    if end < start then Err(ValueError("to_roll must be >= from_roll")) else Ok(Range(start, end))
  }

  // ---------------------------------------------------------------------
  // The marks map

  type MarksMap = map<(string, int), string>

  /** An entry after `str(...).strip()` of its roll and marks. */
  datatype Cell = Cell(roll: string, ct: int, marks: string)

  function Clean(e: MarkEntry): Cell
  {
    Cell(Strip(e.rollNo), e.ctNo, Strip(e.marks))
  }

  function CleanAll(es: seq<MarkEntry>): (r: seq<Cell>)
    ensures |r| == |es|
    ensures forall i :: 0 <= i < |es| ==> r[i] == Clean(es[i])
  {
    seq(|es|, i requires 0 <= i < |es| => Clean(es[i]))
  }

  /** A cell with a non-empty roll and a CT number in 1..ct_count is kept. */
  predicate Kept(c: Cell, ctCount: nat)
  {
    |c.roll| > 0 && 1 <= c.ct <= ctCount
  }

  /** The map after the cells, in order: a later cell overwrites. */
  function MapOf(cells: seq<Cell>, ctCount: nat): MarksMap
  {
    if |cells| == 0 then map[]
    else
      var m := MapOf(cells[..|cells| - 1], ctCount);
      var c := cells[|cells| - 1];
      if Kept(c, ctCount) then m[(c.roll, c.ct) := c.marks] else m
  }

  function MarksMapOf(es: seq<MarkEntry>, ctCount: nat): MarksMap
  {
    MapOf(CleanAll(es), ctCount)
  }

  /** The loop filling `marks_map`. */
  method BuildMarksMap(es: seq<MarkEntry>, ctCount: nat) returns (m: MarksMap)
    ensures m == MarksMapOf(es, ctCount)
  {
    ghost var cells := CleanAll(es);
    m := map[];
    var i := 0;
    while i < |es|
      invariant 0 <= i <= |es|
      invariant m == MapOf(cells[..i], ctCount)
    {
      MapOfStep(cells, i, ctCount);
      var roll := Strip(es[i].rollNo);
      var ct := es[i].ctNo;
      var marks := Strip(es[i].marks);
      if roll != "" && 1 <= ct <= ctCount {
        m := m[(roll, ct) := marks];
      }
      i := i + 1;
    }
    assert cells[..i] == cells;
  }

  lemma MapOfStep(cells: seq<Cell>, i: nat, ctCount: nat)
    requires i < |cells|
    ensures var c := cells[i];
            MapOf(cells[..i + 1], ctCount)
            == if Kept(c, ctCount) then MapOf(cells[..i], ctCount)[(c.roll, c.ct) := c.marks] else MapOf(cells[..i], ctCount)
  {
    assert cells[..i + 1][..i] == cells[..i];
  }

  /** Some kept cell has the key. */
  predicate HasKey(cells: seq<Cell>, ctCount: nat, key: (string, int))
  {
    exists j :: 0 <= j < |cells| && Kept(cells[j], ctCount) && (cells[j].roll, cells[j].ct) == key
  }

  lemma HasKeyStep(cells: seq<Cell>, ctCount: nat, key: (string, int))
    requires |cells| > 0
    ensures var c := cells[|cells| - 1];
            HasKey(cells, ctCount, key) <==>
            HasKey(cells[..|cells| - 1], ctCount, key) || (Kept(c, ctCount) && (c.roll, c.ct) == key)
  {
    var init := cells[..|cells| - 1];
    if HasKey(init, ctCount, key) {
      var j :| 0 <= j < |init| && Kept(init[j], ctCount) && (init[j].roll, init[j].ct) == key;
      assert cells[j] == init[j];
    }
  }

  /** A key is in the map exactly when some kept cell has it. */
  lemma {:induction false} MapDomain(cells: seq<Cell>, ctCount: nat, key: (string, int))
    ensures key in MapOf(cells, ctCount) <==> HasKey(cells, ctCount, key)
  {
    if |cells| > 0 {
      MapDomain(cells[..|cells| - 1], ctCount, key);
      HasKeyStep(cells, ctCount, key);
    }
  }

  /** Last write wins: the value under a key is the marks of the last kept
      cell with that key. */
  lemma {:induction false} MapLastWins(cells: seq<Cell>, ctCount: nat, j: int)
    requires 0 <= j < |cells| && Kept(cells[j], ctCount)
    requires forall l :: j < l < |cells| ==>
               !(Kept(cells[l], ctCount) && cells[l].roll == cells[j].roll && cells[l].ct == cells[j].ct)
    ensures (cells[j].roll, cells[j].ct) in MapOf(cells, ctCount)
    ensures MapOf(cells, ctCount)[(cells[j].roll, cells[j].ct)] == cells[j].marks
  {
    var n := |cells|;
    if j < n - 1 {
      var init := cells[..n - 1];
      assert init[j] == cells[j];
      forall l | j < l < |init|
        ensures !(Kept(init[l], ctCount) && init[l].roll == init[j].roll && init[l].ct == init[j].ct)
      {
        assert init[l] == cells[l];
      }
      MapLastWins(init, ctCount, j);
    }
  }

  /** On the batch entries: an entry's stripped marks are stored under its
      stripped roll and CT unless a later kept entry has the same pair. */
  lemma MarksMapLastWins(es: seq<MarkEntry>, ctCount: nat, j: int)
    requires 0 <= j < |es| && Kept(Clean(es[j]), ctCount)
    requires forall l :: j < l < |es| ==>
               !(Kept(Clean(es[l]), ctCount) && Clean(es[l]).roll == Clean(es[j]).roll && es[l].ctNo == es[j].ctNo)
    ensures (Strip(es[j].rollNo), es[j].ctNo) in MarksMapOf(es, ctCount)
    ensures MarksMapOf(es, ctCount)[(Strip(es[j].rollNo), es[j].ctNo)] == Strip(es[j].marks)
  {
    MapLastWins(CleanAll(es), ctCount, j);
  }

  /** `marks_map.get((roll, ct), "")` */
  function Lookup(m: MarksMap, roll: string, ct: int): string
  {
    if (roll, ct) in m then m[(roll, ct)] else ""
  }

  // ---------------------------------------------------------------------
  // Statistics

  /** `str(raw).strip().upper() == "A"` */
  predicate IsAbsentMark(raw: string)
  {
    var u := Upper(Strip(raw));
    |u| == 1 && u[0] == 'A'
  }

  /** `_parse_mark_to_float`, with `float()` as `toFloat`. */
  function ParseMark(raw: string, toFloat: string -> Option<real>): (r: Option<real>)
    ensures raw == "" || IsAbsentMark(raw) ==> r.None?
    ensures r.Some? ==> toFloat(raw) == r
  {
    if raw == "" || IsAbsentMark(raw) then None else toFloat(raw)
  }

  /** The numeric marks of CT `ct` over the rolls, in roll order. */
  function Numeric(rolls: seq<string>, m: MarksMap, ct: int, toFloat: string -> Option<real>): seq<real>
  {
    if |rolls| == 0 then []
    else
      Numeric(rolls[..|rolls| - 1], m, ct, toFloat)
      + match ParseMark(Lookup(m, rolls[|rolls| - 1], ct), toFloat)
        case Some(v) => [v]
        case None => []
  }

  /** A CT's column after one more roll. */
  function Extended(col: seq<real>, roll: string, m: MarksMap, ct: int, toFloat: string -> Option<real>): seq<real>
  {
    col + match ParseMark(Lookup(m, roll, ct), toFloat) case Some(v) => [v] case None => []
  }

  lemma NumericAt(rolls: seq<string>, i: int, m: MarksMap, ct: int, toFloat: string -> Option<real>)
    requires 0 <= i < |rolls|
    ensures Numeric(rolls[..i + 1], m, ct, toFloat) == Extended(Numeric(rolls[..i], m, ct, toFloat), rolls[i], m, ct, toFloat)
  {
    assert rolls[..i + 1][..i] == rolls[..i];
  }

  /** Every value counted for a CT is the parse of a displayed roll's mark, so
      a roll outside the range or an absent mark never counts. */
  lemma {:induction false} NumericFromRolls(rolls: seq<string>, m: MarksMap, ct: int,
                                            toFloat: string -> Option<real>, v: real)
    requires v in Numeric(rolls, m, ct, toFloat)
    ensures exists r :: r in rolls && ParseMark(Lookup(m, r, ct), toFloat) == Some(v)
  {
    var n := |rolls|;
    var init := rolls[..n - 1];
    if v in Numeric(init, m, ct, toFloat) {
      NumericFromRolls(init, m, ct, toFloat, v);
      var r :| r in init && ParseMark(Lookup(m, r, ct), toFloat) == Some(v);
      assert r in rolls;
    } else {
      assert rolls[n - 1] in rolls;
    }
  }

  /** `ct_numeric`, indexed from 0 for CT 1. */
  function NumericAll(rolls: seq<string>, m: MarksMap, ctCount: nat, toFloat: string -> Option<real>)
    : (r: seq<seq<real>>)
    ensures |r| == ctCount
    ensures forall c :: 0 <= c < ctCount ==> r[c] == Numeric(rolls, m, c + 1, toFloat)
  {
    seq(ctCount, c requires 0 <= c < ctCount => Numeric(rolls, m, c + 1, toFloat))
  }

  /** The nested loop over rolls and CTs filling `ct_numeric`. */
  method CollectNumeric(rolls: seq<string>, m: MarksMap, ctCount: nat, toFloat: string -> Option<real>)
    returns (nums: seq<seq<real>>)
    ensures nums == NumericAll(rolls, m, ctCount, toFloat)
  {
    nums := seq(ctCount, _ => []);
    var i := 0;
    while i < |rolls|
      invariant 0 <= i <= |rolls|
      invariant |nums| == ctCount
      invariant forall c :: 0 <= c < ctCount ==> nums[c] == Numeric(rolls[..i], m, c + 1, toFloat)
    {
      var next := AddRollMarks(nums, rolls[i], m, toFloat);
      forall c | 0 <= c < ctCount ensures next[c] == Numeric(rolls[..i + 1], m, c + 1, toFloat) {
        NumericAt(rolls, i, m, c + 1, toFloat);
      }
      nums := next;
      i := i + 1;
    }
    assert rolls[..i] == rolls;
    ColumnsAreAll(nums, rolls, m, ctCount, toFloat);
  }

  lemma ColumnsAreAll(nums: seq<seq<real>>, rolls: seq<string>, m: MarksMap, ctCount: nat, toFloat: string -> Option<real>)
    requires |nums| == ctCount
    requires forall c :: 0 <= c < ctCount ==> nums[c] == Numeric(rolls, m, c + 1, toFloat)
    ensures nums == NumericAll(rolls, m, ctCount, toFloat)
  {
  }

  /** One step of the inner loop: column `ct` gains the roll's mark when it
      is numeric and every other column is kept. */
  lemma ExtendedStep(nums: seq<seq<real>>, prev: seq<seq<real>>, out: seq<seq<real>>, roll: string, m: MarksMap,
                     ct: int, toFloat: string -> Option<real>)
    requires 1 <= ct <= |nums| && |prev| == |nums|
    requires forall c :: 0 <= c < ct - 1 ==> prev[c] == Extended(nums[c], roll, m, c + 1, toFloat)
    requires forall c :: ct - 1 <= c < |nums| ==> prev[c] == nums[c]
    requires |out| == |prev| && out[ct - 1] == Extended(prev[ct - 1], roll, m, ct, toFloat)
    requires forall c :: 0 <= c < |prev| && c != ct - 1 ==> out[c] == prev[c]
    ensures |out| == |nums|
    ensures forall c :: 0 <= c < ct ==> out[c] == Extended(nums[c], roll, m, c + 1, toFloat)
    ensures forall c :: ct <= c < |nums| ==> out[c] == nums[c]
  {
  }

  /** The inner loop over the CTs for one roll: each CT's column gains the
      roll's mark when it is numeric. */
  method AddRollMarks(nums: seq<seq<real>>, roll: string, m: MarksMap, toFloat: string -> Option<real>)
    returns (out: seq<seq<real>>)
    ensures |out| == |nums|
    ensures forall c :: 0 <= c < |nums| ==> out[c] == Extended(nums[c], roll, m, c + 1, toFloat)
  {
    out := nums;
    var ct := 1;
    while ct <= |nums|
      invariant 1 <= ct <= |nums| + 1
      invariant |out| == |nums|
      invariant forall c :: 0 <= c < ct - 1 ==> out[c] == Extended(nums[c], roll, m, c + 1, toFloat)
      invariant forall c :: ct - 1 <= c < |nums| ==> out[c] == nums[c]
    {
      var val := ParseMark(Lookup(m, roll, ct), toFloat);
      var prev := out;
      if val.Some? {
        out := out[ct - 1 := out[ct - 1] + [val.value]];
      }
      ExtendedStep(nums, prev, out, roll, m, ct, toFloat);
      ct := ct + 1;
    }
  }

  function MaxOf(xs: seq<real>): (r: real)
    requires |xs| > 0
    ensures r in xs
    ensures forall x :: x in xs ==> x <= r
  {
    if |xs| == 1 then xs[0]
    else
      var t := MaxOf(xs[1..]);
      assert forall x :: x in xs ==> x == xs[0] || x in xs[1..];
      if xs[0] >= t then xs[0] else t
  }

  function MinOf(xs: seq<real>): (r: real)
    requires |xs| > 0
    ensures r in xs
    ensures forall x :: x in xs ==> r <= x
  {
    if |xs| == 1 then xs[0]
    else
      var t := MinOf(xs[1..]);
      assert forall x :: x in xs ==> x == xs[0] || x in xs[1..];
      if xs[0] <= t then xs[0] else t
  }

  function Sum(xs: seq<real>): real
  {
    if |xs| == 0 then 0.0 else Sum(xs[..|xs| - 1]) + xs[|xs| - 1]
  }

  /** The highest, lowest and average cells of one CT. */
  datatype StatCells = StatCells(highest: string, lowest: string, average: string)

  function StatOf(nums: seq<real>, showDiv0: bool, fmtNum: real -> string, fmtAvg: real -> string)
    : (r: StatCells)
    ensures |nums| == 0 ==> r.highest == "0.0" && r.lowest == "0.0"
    ensures |nums| == 0 ==> r.average == (if showDiv0 then "#DIV/0!" else "0.0")
    ensures |nums| > 0 ==> exists hi, lo :: hi in nums && lo in nums && r.highest == fmtNum(hi) && r.lowest == fmtNum(lo)
                                         && (forall x :: x in nums ==> lo <= x <= hi)
  {
    if |nums| > 0 then
      StatCells(fmtNum(MaxOf(nums)), fmtNum(MinOf(nums)), fmtAvg(Sum(nums) / (|nums| as real)))
    else
      StatCells("0.0", "0.0", if showDiv0 then "#DIV/0!" else "0.0")
  }

  function StatsOf(numeric: seq<seq<real>>, showDiv0: bool, fmtNum: real -> string, fmtAvg: real -> string)
    : (r: seq<StatCells>)
    ensures |r| == |numeric|
    ensures forall c :: 0 <= c < |numeric| ==> r[c] == StatOf(numeric[c], showDiv0, fmtNum, fmtAvg)
  {
    seq(|numeric|, c requires 0 <= c < |numeric| => StatOf(numeric[c], showDiv0, fmtNum, fmtAvg))
  }

  /** The loop appending to `highest`, `lowest` and `average`. */
  method Stats(numeric: seq<seq<real>>, showDiv0: bool, fmtNum: real -> string, fmtAvg: real -> string)
    returns (highest: seq<string>, lowest: seq<string>, average: seq<string>)
    ensures |highest| == |lowest| == |average| == |numeric|
    ensures forall c :: 0 <= c < |numeric| ==>
              StatCells(highest[c], lowest[c], average[c]) == StatOf(numeric[c], showDiv0, fmtNum, fmtAvg)
  {
    highest, lowest, average := [], [], [];
    var c := 0;
    while c < |numeric|
      invariant 0 <= c <= |numeric|
      invariant |highest| == |lowest| == |average| == c
      invariant forall k :: 0 <= k < c ==>
                  StatCells(highest[k], lowest[k], average[k]) == StatOf(numeric[k], showDiv0, fmtNum, fmtAvg)
    {
      var nums := numeric[c];
      if |nums| > 0 {
        highest := highest + [fmtNum(MaxOf(nums))];
        lowest := lowest + [fmtNum(MinOf(nums))];
        average := average + [fmtAvg(Sum(nums) / (|nums| as real))];
      } else {
        highest := highest + ["0.0"];
        lowest := lowest + ["0.0"];
        average := average + [if showDiv0 then "#DIV/0!" else "0.0"];
      }
      c := c + 1;
    }
  }

  // ---------------------------------------------------------------------
  // Table rows

  /** `f"{i:02d}"` for a non-negative number. */
  function TwoDigits(i: nat): (r: string)
    ensures |r| >= 2
    ensures i >= 10 ==> r == NatToString(i)
  {
    if i < 10 then "0" + NatToString(i) else
      assert |NatToString(i / 10)| >= 1;
      NatToString(i)
  }

  function HeaderRow(ctCount: nat): (r: seq<string>)
    ensures |r| == ctCount + 1 && r[0] == "Roll No."
    ensures forall c :: 1 <= c <= ctCount ==> r[c] == "CT-" + TwoDigits(c)
  {
    ["Roll No."] + seq(ctCount, i requires 0 <= i < ctCount => "CT-" + TwoDigits(i + 1))
  }

  function LabelRow(name: string, cells: seq<string>): (r: seq<string>)
    ensures |r| == |cells| + 1 && r[0] == name && r[1..] == cells
  {
    [name] + cells
  }

  /** One row per roll: the roll, then its mark for each CT or "". */
  function RollRow(roll: string, m: MarksMap, ctCount: nat): (r: seq<string>)
    ensures |r| == ctCount + 1 && r[0] == roll
    ensures forall c :: 1 <= c <= ctCount ==> r[c] == Lookup(m, roll, c)
  {
    [roll] + seq(ctCount, i requires 0 <= i < ctCount => Lookup(m, roll, i + 1))
  }

  /** The inner loop building one roll's row. */
  method BuildRollRow(roll: string, m: MarksMap, ctCount: nat) returns (row: seq<string>)
    ensures row == RollRow(roll, m, ctCount)
  {
    row := [roll];
    var ct := 1;
    while ct <= ctCount
      invariant 1 <= ct <= ctCount + 1
      invariant |row| == ct && row[0] == roll
      invariant forall c :: 1 <= c < ct ==> row[c] == Lookup(m, roll, c)
    {
      row := row + [Lookup(m, roll, ct)];
      ct := ct + 1;
    }
  }

  function IntStrings(xs: seq<int>): (r: seq<string>)
    ensures |r| == |xs|
    ensures forall i :: 0 <= i < |xs| ==> r[i] == IntToString(xs[i])
  {
    seq(|xs|, i requires 0 <= i < |xs| => IntToString(xs[i]))
  }

  function Highests(stats: seq<StatCells>): seq<string>
  {
    seq(|stats|, i requires 0 <= i < |stats| => stats[i].highest)
  }

  function Lowests(stats: seq<StatCells>): seq<string>
  {
    seq(|stats|, i requires 0 <= i < |stats| => stats[i].lowest)
  }

  function Averages(stats: seq<StatCells>): seq<string>
  {
    seq(|stats|, i requires 0 <= i < |stats| => stats[i].average)
  }

  /** `table_data`: the header, Marks, Highest, Lowest and Average rows, then
      one row per roll. */
  function TableOf(rolls: seq<string>, fullMarks: seq<int>, stats: seq<StatCells>, m: MarksMap, ctCount: nat)
    : (r: seq<seq<string>>)
    ensures |r| == 5 + |rolls|
    ensures r[0] == HeaderRow(ctCount)
    ensures r[1] == LabelRow("Marks", IntStrings(fullMarks))
    ensures r[2] == LabelRow("Highest", Highests(stats))
    ensures r[3] == LabelRow("Lowest", Lowests(stats))
    ensures r[4] == LabelRow("Average", Averages(stats))
    ensures forall i :: 0 <= i < |rolls| ==> r[5 + i] == RollRow(rolls[i], m, ctCount)
  {
    [HeaderRow(ctCount), LabelRow("Marks", IntStrings(fullMarks)), LabelRow("Highest", Highests(stats)),
     LabelRow("Lowest", Lowests(stats)), LabelRow("Average", Averages(stats))]
    + seq(|rolls|, i requires 0 <= i < |rolls| => RollRow(rolls[i], m, ctCount))
  }

  /** The rows appended to `table_data`. */
  method BuildTable(rolls: seq<string>, fullMarks: seq<int>, stats: seq<StatCells>, m: MarksMap, ctCount: nat)
    returns (table: seq<seq<string>>)
    ensures table == TableOf(rolls, fullMarks, stats, m, ctCount)
  {
    table := [HeaderRow(ctCount), LabelRow("Marks", IntStrings(fullMarks)), LabelRow("Highest", Highests(stats)),
              LabelRow("Lowest", Lowests(stats)), LabelRow("Average", Averages(stats))];
    ghost var top := table;
    var i := 0;
    while i < |rolls|
      invariant 0 <= i <= |rolls|
      invariant |table| == 5 + i && table[..5] == top
      invariant forall k :: 0 <= k < i ==> table[5 + k] == RollRow(rolls[k], m, ctCount)
    {
      var row := BuildRollRow(rolls[i], m, ctCount);
      table := table + [row];
      i := i + 1;
    }
  }

  // ---------------------------------------------------------------------
  // Absent styling

  /** A cell (column, row) of a roll row is styled red and bold when its
      text satisfies `absent`. */
  predicate Styled(table: seq<seq<string>>, ctCount: nat, absent: string -> bool, cell: (int, int))
  {
    var (c, r) := cell;
    5 <= r < |table| && 1 <= c <= ctCount && c < |table[r]| && absent(table[r][c])
  }

  /** The styled cells of row `r`, columns 1..`upto`-1. */
  function AbsentInRow(table: seq<seq<string>>, r: int, upto: int, absent: string -> bool): seq<(int, int)>
    requires 0 <= r < |table| && 1 <= upto <= |table[r]|
    decreases upto
  {
    if upto == 1 then []
    else AbsentInRow(table, r, upto - 1, absent) + (if absent(table[r][upto - 1]) then [(upto - 1, r)] else [])
  }

  /** The styled cells of rows 5..`upto`-1, row by row. */
  function AbsentRows(table: seq<seq<string>>, ctCount: nat, upto: int, absent: string -> bool): seq<(int, int)>
    requires 5 <= upto <= |table|
    requires forall r :: 0 <= r < |table| ==> |table[r]| == ctCount + 1
    decreases upto
  {
    if upto == 5 then []
    else AbsentRows(table, ctCount, upto - 1, absent) + AbsentInRow(table, upto - 1, ctCount + 1, absent)
  }

  lemma {:induction false} AbsentInRowIff(table: seq<seq<string>>, r: int, upto: int,
                                          absent: string -> bool, cell: (int, int))
    requires 0 <= r < |table| && 1 <= upto <= |table[r]|
    ensures cell in AbsentInRow(table, r, upto, absent) <==>
            cell.1 == r && 1 <= cell.0 < upto && absent(table[r][cell.0])
    decreases upto
  {
    if upto > 1 {
      AbsentInRowIff(table, r, upto - 1, absent, cell);
    }
  }

  /** A cell is styled exactly when it is a mark cell of a roll row whose text
      satisfies `absent`. */
  lemma {:induction false} AbsentRowsIff(table: seq<seq<string>>, ctCount: nat, upto: int,
                                         absent: string -> bool, cell: (int, int))
    requires 5 <= upto <= |table|
    requires forall r :: 0 <= r < |table| ==> |table[r]| == ctCount + 1
    ensures cell in AbsentRows(table, ctCount, upto, absent) <==> Styled(table[..upto], ctCount, absent, cell)
    decreases upto
  {
    if upto > 5 {
      AbsentRowsIff(table, ctCount, upto - 1, absent, cell);
      AbsentInRowIff(table, upto - 1, ctCount + 1, absent, cell);
    }
  }

  /** The nested loop calling `style.add` for the marks `absent` accepts. */
  method AbsentCells(table: seq<seq<string>>, ctCount: nat, absent: string -> bool) returns (cells: seq<(int, int)>)
    requires |table| >= 5
    requires forall r :: 0 <= r < |table| ==> |table[r]| == ctCount + 1
    ensures cells == AbsentRows(table, ctCount, |table|, absent)
  {
    cells := [];
    var r := 5;
    while r < |table|
      invariant 5 <= r <= |table|
      invariant cells == AbsentRows(table, ctCount, r, absent)
    {
      ghost var before := cells;
      var c := 1;
      while c <= ctCount
        invariant 1 <= c <= ctCount + 1
        invariant cells == before + AbsentInRow(table, r, c, absent)
      {
        if absent(table[r][c]) {
          cells := cells + [(c, r)];
        }
        c := c + 1;
      }
      r := r + 1;
    }
  }

  /** The sheet's absent cells are exactly the roll-row mark cells reading "A". */
  lemma AbsentCellsExact(table: seq<seq<string>>, ctCount: nat, cell: (int, int))
    requires |table| >= 5
    requires forall r :: 0 <= r < |table| ==> |table[r]| == ctCount + 1
    ensures cell in AbsentRows(table, ctCount, |table|, IsAbsentMark) <==>
            5 <= cell.1 < |table| && 1 <= cell.0 <= ctCount && IsAbsentMark(table[cell.1][cell.0])
  {
    AbsentRowsIff(table, ctCount, |table|, IsAbsentMark, cell);
    assert table[..|table|] == table;
  }

  // ---------------------------------------------------------------------
  // Headings

  predicate IsSectionLetter(s: string)
  {
    s == "A" || s == "B" || s == "C"
  }

  /** The section shown in the course heading, if any. */
  function HeadingSection(section: Option<string>): (r: Option<string>)
    ensures r.Some? <==> section.Some? && IsSectionLetter(Upper(Strip(section.value)))
    ensures r.Some? ==> r.value == Upper(Strip(section.value))
  {
    if section.Some? && Strip(section.value) != ""
       && Lower(Strip(section.value)) != "none" && Lower(Strip(section.value)) != "null"
       && IsSectionLetter(Upper(Strip(section.value)))
    then Some(Upper(Strip(section.value)))
    else None
  }

  function CourseHeading(section: Option<string>, courseCode: string, courseName: string): string
  {
    match HeadingSection(section)
    case Some(s) => "<b>Class Test Marks (" + s + " Section), " + courseCode + " : " + courseName + "</b>"
    case None => "<b>Class Test Marks, " + courseCode + " : " + courseName + "</b>"
  }

  /** The paragraphs above the table. */
  function Headings(dept: string, series: string, section: Option<string>, courseCode: string, courseName: string)
    : seq<string>
  {
    ["Heaven's Light is Our Guide",
     "<b>Rajshahi University of Engineering & Technology</b>",
     "<b>Department of " + dept + "</b>",
     CourseHeading(section, courseCode, courseName),
     "<b>" + series + " Series</b>"]
  }

  // ---------------------------------------------------------------------
  // `generate_mark_sheet`

  datatype MarkSheetArgs = MarkSheetArgs(
    dept: string, series: string, section: Option<string>, courseCode: string, courseName: string,
    fromRoll: int, toRoll: int, entries: seq<MarkEntry>,
    ctCount: nat, fullMarks: FullMarksArg, showDiv0: bool)

  /** What the PDF shows: the paragraphs, the table and the absent cells. */
  datatype SheetLayout = SheetLayout(headings: seq<string>, table: seq<seq<string>>, absent: seq<(int, int)>)

  function MarkSheetSpec(a: MarkSheetArgs, toFloat: string -> Option<real>,
                         fmtNum: real -> string, fmtAvg: real -> string): (r: Result<SheetLayout>)
    ensures r.Ok? ==> a.fromRoll <= a.toRoll && |r.value.headings| == 5 && |r.value.table| >= 5
    ensures r.Ok? ==> forall cell :: cell in r.value.absent <==>
              5 <= cell.1 < |r.value.table| && 1 <= cell.0 <= a.ctCount && 0 <= cell.0 < |r.value.table[cell.1]|
              && IsAbsentMark(r.value.table[cell.1][cell.0])
  {
    var fm :- FullMarks(a.fullMarks, a.ctCount);
    var rolls :- RollRange(a.fromRoll, a.toRoll);
    var m := MarksMapOf(a.entries, a.ctCount);
    var stats := StatsOf(NumericAll(rolls, m, a.ctCount, toFloat), a.showDiv0, fmtNum, fmtAvg);
    var table := TableOf(rolls, fm, stats, m, a.ctCount);
    TableRowWidths(rolls, fm, stats, m, a.ctCount);
    AbsentCellsAll(table, a.ctCount);
    Ok(SheetLayout(Headings(a.dept, a.series, a.section, a.courseCode, a.courseName), table,
                   AbsentRows(table, a.ctCount, |table|, IsAbsentMark)))
  }

  /** AbsentCellsExact for every cell at once. */
  lemma AbsentCellsAll(table: seq<seq<string>>, ctCount: nat)
    requires |table| >= 5
    requires forall r :: 0 <= r < |table| ==> |table[r]| == ctCount + 1
    ensures forall cell :: cell in AbsentRows(table, ctCount, |table|, IsAbsentMark) <==>
              5 <= cell.1 < |table| && 1 <= cell.0 <= ctCount && 0 <= cell.0 < |table[cell.1]|
              && IsAbsentMark(table[cell.1][cell.0])
  {
    forall cell: (int, int) ensures cell in AbsentRows(table, ctCount, |table|, IsAbsentMark) <==>
              5 <= cell.1 < |table| && 1 <= cell.0 <= ctCount && 0 <= cell.0 < |table[cell.1]|
              && IsAbsentMark(table[cell.1][cell.0])
    {
      AbsentCellsExact(table, ctCount, cell);
    }
  }

  /** Every row of the table has one roll/label cell and one cell per CT. */
  lemma TableRowWidths(rolls: seq<string>, fullMarks: seq<int>, stats: seq<StatCells>, m: MarksMap, ctCount: nat)
    requires |fullMarks| == ctCount && |stats| == ctCount
    ensures var t := TableOf(rolls, fullMarks, stats, m, ctCount);
            forall r :: 0 <= r < |t| ==> |t[r]| == ctCount + 1
  {
    var t := TableOf(rolls, fullMarks, stats, m, ctCount);
    forall r | 0 <= r < |t|
      ensures |t[r]| == ctCount + 1
    {
      if r >= 5 {
        assert t[5 + (r - 5)] == RollRow(rolls[r - 5], m, ctCount);
      }
    }
  }

  /** `generate_mark_sheet` up to drawing the PDF. */
  method GenerateMarkSheet(a: MarkSheetArgs, toFloat: string -> Option<real>,
                           fmtNum: real -> string, fmtAvg: real -> string)
    returns (r: Result<SheetLayout>)
    ensures r == MarkSheetSpec(a, toFloat, fmtNum, fmtAvg)
  {
    var fm := FullMarks(a.fullMarks, a.ctCount);
    if fm.Err? {
      return Err(fm.error);
    }
    if a.toRoll < a.fromRoll {
      return Err(ValueError("to_roll must be >= from_roll"));
    }
    var rolls := Range(a.fromRoll, a.toRoll);
    var m := BuildMarksMap(a.entries, a.ctCount);
    var numeric := CollectNumeric(rolls, m, a.ctCount, toFloat);
    var highest, lowest, average := Stats(numeric, a.showDiv0, fmtNum, fmtAvg);
    var stats := seq(a.ctCount, c requires 0 <= c < a.ctCount => StatCells(highest[c], lowest[c], average[c]));
    assert stats == StatsOf(numeric, a.showDiv0, fmtNum, fmtAvg);
    var table := BuildTable(rolls, fm.value, stats, m, a.ctCount);
    TableRowWidths(rolls, fm.value, stats, m, a.ctCount);
    var absent := AbsentCells(table, a.ctCount, IsAbsentMark);
    r := Ok(SheetLayout(Headings(a.dept, a.series, a.section, a.courseCode, a.courseName), table, absent));
    MarkSheetSpecOk(a, toFloat, fmtNum, fmtAvg);
  }

  /** The sheet the specification gives once both checks pass. */
  lemma MarkSheetSpecOk(a: MarkSheetArgs, toFloat: string -> Option<real>,
                        fmtNum: real -> string, fmtAvg: real -> string)
    requires FullMarks(a.fullMarks, a.ctCount).Ok? && a.fromRoll <= a.toRoll
    ensures var fm := FullMarks(a.fullMarks, a.ctCount).value;
            var rolls := Range(a.fromRoll, a.toRoll);
            var m := MarksMapOf(a.entries, a.ctCount);
            var table := TableOf(rolls, fm, StatsOf(NumericAll(rolls, m, a.ctCount, toFloat), a.showDiv0, fmtNum, fmtAvg),
                                 m, a.ctCount);
            MarkSheetSpec(a, toFloat, fmtNum, fmtAvg)
            == Ok(SheetLayout(Headings(a.dept, a.series, a.section, a.courseCode, a.courseName), table,
                              AbsentRows(table, a.ctCount, |table|, IsAbsentMark)))
  {
  }

  /** The checks run in order: full marks first, then the roll range. */
  lemma MarkSheetErrors(a: MarkSheetArgs, toFloat: string -> Option<real>,
                        fmtNum: real -> string, fmtAvg: real -> string)
    ensures var r := MarkSheetSpec(a, toFloat, fmtNum, fmtAvg);
            (r.Err? <==> FullMarks(a.fullMarks, a.ctCount).Err? || a.toRoll < a.fromRoll)
            && (FullMarks(a.fullMarks, a.ctCount).Err? ==> r == Err(ValueError("ct_full_marks must match ct_count")))
            && (FullMarks(a.fullMarks, a.ctCount).Ok? && a.toRoll < a.fromRoll ==>
                  r == Err(ValueError("to_roll must be >= from_roll")))
  {
  }

  /** The roll rows of the table start with the rolls, in order. */
  lemma TableRollColumn(rolls: seq<string>, fullMarks: seq<int>, stats: seq<StatCells>, m: MarksMap, ctCount: nat)
    requires |fullMarks| == ctCount && |stats| == ctCount
    ensures var t := TableOf(rolls, fullMarks, stats, m, ctCount);
            |t| == 5 + |rolls| && forall i :: 5 <= i < |t| ==> t[i][0] == rolls[i - 5]
  {
    var t := TableOf(rolls, fullMarks, stats, m, ctCount);
    forall i | 5 <= i < |t|
      ensures t[i][0] == rolls[i - 5]
    {
      assert t[5 + (i - 5)] == RollRow(rolls[i - 5], m, ctCount);
    }
  }

  /** 5 + (to - from + 1) rows, the roll rows showing the rolls from..to in
      order, and one cell per CT after the first in every row. */
  predicate TableShaped(t: seq<seq<string>>, fromRoll: int, toRoll: int, ctCount: nat)
  {
    |t| == 5 + (toRoll - fromRoll + 1)
    && (forall r :: 0 <= r < |t| ==> |t[r]| == ctCount + 1)
    && (forall i :: 5 <= i < |t| ==> t[i][0] == IntToString(fromRoll + (i - 5)))
  }

  lemma TableOfShaped(a: MarkSheetArgs, fm: seq<int>, stats: seq<StatCells>, m: MarksMap)
    requires a.fromRoll <= a.toRoll && |fm| == a.ctCount && |stats| == a.ctCount
    ensures TableShaped(TableOf(Range(a.fromRoll, a.toRoll), fm, stats, m, a.ctCount), a.fromRoll, a.toRoll, a.ctCount)
  {
    var rolls := Range(a.fromRoll, a.toRoll);
    TableRowWidths(rolls, fm, stats, m, a.ctCount);
    TableRollColumn(rolls, fm, stats, m, a.ctCount);
    ShapedOfRange(TableOf(rolls, fm, stats, m, a.ctCount), rolls, a.fromRoll, a.toRoll, a.ctCount);
  }

  lemma ShapedOfRange(t: seq<seq<string>>, rolls: seq<string>, fromRoll: int, toRoll: int, ctCount: nat)
    requires |rolls| == toRoll - fromRoll + 1
    requires forall i :: 0 <= i < |rolls| ==> rolls[i] == IntToString(fromRoll + i)
    requires |t| == 5 + |rolls| && forall r :: 0 <= r < |t| ==> |t[r]| == ctCount + 1
    requires forall i :: 5 <= i < |t| ==> t[i][0] == rolls[i - 5]
    ensures TableShaped(t, fromRoll, toRoll, ctCount)
  {
    forall i | 5 <= i < |t| ensures t[i][0] == IntToString(fromRoll + (i - 5)) {
      assert t[i][0] == rolls[i - 5];
    }
  }

  /** The shape of every sheet the generator accepts. */
  lemma MarkSheetShape(a: MarkSheetArgs, toFloat: string -> Option<real>,
                       fmtNum: real -> string, fmtAvg: real -> string)
    requires MarkSheetSpec(a, toFloat, fmtNum, fmtAvg).Ok?
    ensures TableShaped(MarkSheetSpec(a, toFloat, fmtNum, fmtAvg).value.table, a.fromRoll, a.toRoll, a.ctCount)
  {
    var fm := FullMarks(a.fullMarks, a.ctCount).value;
    var rolls := Range(a.fromRoll, a.toRoll);
    var m := MarksMapOf(a.entries, a.ctCount);
    var stats := StatsOf(NumericAll(rolls, m, a.ctCount, toFloat), a.showDiv0, fmtNum, fmtAvg);
    TableOfShaped(a, fm, stats, m);
  }
}
