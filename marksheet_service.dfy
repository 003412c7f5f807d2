/** The generate-marksheet tool: the language model's JSON reply is validated,
    the calling teacher's result sheets for the requested CTs are collected,
    their entries become the mark-sheet generator's input, and a download link
    is returned. The model's reply, the JSON decoder, `repr`, the clock and the
    number formatting of the generator are parameters. */
module MarksheetService {

  import opened Common
  import opened Text
  import opened Json
  import opened ResultRecords
  import opened MarkSheet
  import CheckMarks

  // ---------------------------------------------------------------------
  // Course codes

  /** No whitespace at either end. */
  predicate Trimmed(s: string)
  {
    s == [] || (!IsSpace(s[0]) && !IsSpace(s[|s| - 1]))
  }

  lemma InsertHyphenMembers(c: string)
    requires |c| > 3
    ensures var r := c[..3] + "-" + c[3..];
      && (forall x :: x in r <==> x == '-' || x in c)
      && |r| == |c| + 1 && r[0] == c[0] && r[|r| - 1] == c[|c| - 1]
  {
    var r := c[..3] + "-" + c[3..];
    forall x ensures x in r <==> x == '-' || x in c {
      if x in c {
        var i :| 0 <= i < |c| && c[i] == x;
        if i < 3 { assert r[i] == x; } else { assert r[i + 1] == x; }
      }
      if x in r && x != '-' {
        var i :| 0 <= i < |r| && r[i] == x;
        if i < 3 { assert c[i] == x; } else { assert c[i - 1] == x; }
      }
    }
    assert r[|r| - 1] == c[3..][|c| - 4];
  }

  lemma InsertHyphenRemoved(x: string, y: string)
    ensures RemoveChar(x + "-" + y, '-') == RemoveChar(x + y, '-')
  {
    var h := "-";
    var xh := x + h;
    CheckMarks.RemoveCharConcat(xh, y, '-');
    CheckMarks.RemoveCharConcat(x, h, '-');
    CheckMarks.RemoveCharConcat(x, y, '-');
    assert h[0] == '-' && h[1..] == "";
    assert RemoveChar(h, '-') == "";
    assert RemoveChar(xh, '-') == RemoveChar(x, '-') + "" == RemoveChar(x, '-');
  }

  /** The hyphen step of `_normalize_course_code`: a "-" after the third
      character of a hyphen-less code of seven or more characters. */
  function Hyphenate(c: string): (r: string)
    requires NoLower(c) && ' ' !in c && '_' !in c
    ensures NoLower(r) && ' ' !in r && '_' !in r
    ensures |r| >= 7 ==> '-' in r
    ensures RemoveChar(r, '-') == RemoveChar(c, '-')
    ensures |c| <= |r| <= |c| + 1
    ensures Trimmed(c) ==> Trimmed(r)
  {
    if '-' !in c && |c| >= 7 then
      InsertHyphenMembers(c);
      InsertHyphenRemoved(c[..3], c[3..]);
      assert c[..3] + c[3..] == c;
      c[..3] + "-" + c[3..]
    else c
  }

  /** `_normalize_course_code` of the mark-sheet tool: strip, upper-case,
      remove spaces, "_" to "-", then the hyphen step. */
  function NormalizeCourseCode(code: string): (r: string)
    ensures NoLower(r) && ' ' !in r && '_' !in r
    ensures |r| >= 7 ==> '-' in r
    ensures RemoveChar(r, '-') == RemoveChar(CheckMarks.Cleaned(code), '-')
    ensures |CheckMarks.Cleaned(code)| <= |r| <= |CheckMarks.Cleaned(code)| + 1
  {
    Hyphenate(CheckMarks.Cleaned(code))
  }

  lemma {:induction false} RemoveCharKeepsEnds(s: string, a: char)
    requires |s| > 0 && s[0] != a && s[|s| - 1] != a
    ensures var r := RemoveChar(s, a); |r| > 0 && r[0] == s[0] && r[|r| - 1] == s[|s| - 1]
  {
    var n := |s|;
    assert s == s[..n - 1] + [s[n - 1]];
    CheckMarks.RemoveCharConcat(s[..n - 1], [s[n - 1]], a);
    assert RemoveChar([s[n - 1]], a) == [s[n - 1]];
  }

  /** The cleaned code has no whitespace at its ends. */
  lemma CleanedTrimmed(raw: string)
    ensures Trimmed(CheckMarks.Cleaned(raw))
  {
    var t := Strip(raw);
    var u := Upper(t);
    var r := RemoveChar(u, ' ');
    UpperTrimmed(t);
    RemoveTrimmed(u);
    ReplaceTrimmed(r);
    assert CheckMarks.Cleaned(raw) == ReplaceChar(r, '_', '-');
  }

  lemma UpperTrimmed(t: string)
    requires Trimmed(t)
    ensures Trimmed(Upper(t))
  {
    var u := Upper(t);
    if |u| > 0 {
      assert u[0] == UpperChar(t[0]) && u[|u| - 1] == UpperChar(t[|t| - 1]);
    }
  }

  lemma RemoveTrimmed(u: string)
    requires Trimmed(u)
    ensures Trimmed(RemoveChar(u, ' '))
  {
    if |u| > 0 {
      assert u[0] != ' ' && u[|u| - 1] != ' ';
      RemoveCharKeepsEnds(u, ' ');
    } else {
      assert RemoveChar(u, ' ') == [];
    }
  }

  lemma ReplaceTrimmed(r: string)
    requires Trimmed(r)
    ensures Trimmed(ReplaceChar(r, '_', '-'))
  {
    var c := ReplaceChar(r, '_', '-');
    if |c| > 0 {
      assert c[0] == (if r[0] == '_' then '-' else r[0]);
      assert c[|c| - 1] == (if r[|r| - 1] == '_' then '-' else r[|r| - 1]);
    }
  }

  /** A code that is already upper-case, trimmed and free of spaces and
      underscores is its own cleaned form. */
  lemma CleanedOfClean(s: string)
    requires NoLower(s) && ' ' !in s && '_' !in s && Trimmed(s)
    ensures CheckMarks.Cleaned(s) == s
  {
    TrimStartFixed(s);
    TrimEndFixed(s);
    UpperOfNoLower(s);
    RemoveCharAbsent(s, ' ');
    ReplaceCharAbsent(s, '_', '-');
  }

  lemma NormalizeTrimmed(code: string)
    ensures Trimmed(NormalizeCourseCode(code))
  {
    var c := CheckMarks.Cleaned(code);
    CleanedTrimmed(code);
    assert Trimmed(Hyphenate(c));
  }

  /** Normalising a normalised code changes nothing. */
  lemma NormalizeCourseCodeIdempotent(code: string)
    ensures NormalizeCourseCode(NormalizeCourseCode(code)) == NormalizeCourseCode(code)
  {
    var r := NormalizeCourseCode(code);
    NormalizeTrimmed(code);
    calc {
      NormalizeCourseCode(r);
      Hyphenate(CheckMarks.Cleaned(r));
      { CleanedOfClean(r); }
      Hyphenate(r);
      { HyphenateFixed(r); }
      r;
    }
  }

  /** A code with a hyphen, or shorter than seven, is left as it is. */
  lemma HyphenateFixed(c: string)
    requires NoLower(c) && ' ' !in c && '_' !in c
    requires |c| >= 7 ==> '-' in c
    ensures Hyphenate(c) == c
  {
  }

  /** Letters then digits get the hyphen after the letters. */
  lemma HyphenateJoined(A: string, d: string)
    requires |A| == 3 && |d| >= 4 && NoLower(A + d) && ' ' !in A + d && '_' !in A + d
    requires '-' !in A && '-' !in d
    ensures Hyphenate(A + d) == A + "-" + d
  {
    var c := A + d;
    assert '-' !in c;
    assert c[..3] == A && c[3..] == d;
  }

  /** "cse2101", "cse 2101", "cse_2101" and "CSE-2101" all give "CSE-2101". */
  lemma NormalizeCourseCodeSpellings(a: string, sep: string, d: string)
    requires |a| == 3 && |d| >= 4 && CheckMarks.Letters(a) && CheckMarks.Digits(d)
    requires sep == "" || sep == " " || sep == "_" || sep == "-"
    ensures NormalizeCourseCode(a + sep + d) == Upper(a) + "-" + d
  {
    CheckMarks.UpperLettersAll(a);
    assert !IsLetter('-') && !IsDigit('-');
    CheckMarks.LettersAvoid(Upper(a), '-');
    CheckMarks.DigitsAvoid(d, '-');
    if sep == "" || sep == " " {
      SpellingCompact(a, sep, d);
    } else {
      SpellingJoined(a, sep, d);
    }
  }

  lemma SpellingCompact(a: string, sep: string, d: string)
    requires |a| == 3 && |d| >= 4 && CheckMarks.Letters(a) && CheckMarks.Digits(d)
    requires sep == "" || sep == " "
    requires '-' !in Upper(a) && '-' !in d
    ensures NormalizeCourseCode(a + sep + d) == Upper(a) + "-" + d
  {
    CheckMarks.CleanedSpelling(a, sep, d);
    var A := Upper(a);
    CheckMarks.EmptyMiddle(A, d);
    assert CheckMarks.Cleaned(a + sep + d) == A + d;
    HyphenateJoined(A, d);
  }

  lemma SpellingJoined(a: string, sep: string, d: string)
    requires |a| == 3 && |d| >= 4 && CheckMarks.Letters(a) && CheckMarks.Digits(d)
    requires sep == "_" || sep == "-"
    ensures NormalizeCourseCode(a + sep + d) == Upper(a) + "-" + d
  {
    CheckMarks.CleanedSpelling(a, sep, d);
    var A := Upper(a);
    var c := CheckMarks.Cleaned(a + sep + d);
    assert c == A + "-" + d;
    HyphenAtFour(A, d);
    HyphenateFixed(c);
    assert NormalizeCourseCode(a + sep + d) == Hyphenate(c);
  }

  lemma HyphenAtFour(A: string, d: string)
    requires |A| == 3
    ensures '-' in A + "-" + d
  {
    assert (A + "-" + d)[3] == '-';
  }

  // ---------------------------------------------------------------------
  // Departments and file names

  const DeptNames: map<string, string> := map[
    "CSE" := "Computer Science & Engineering",
    "EEE" := "Electrical & Electronic Engineering",
    "CE" := "Civil Engineering",
    "ETE" := "Electronics & Telecommunication Engineering",
    "ECE" := "Electrical & Computer Engineering",
    "ARCH" := "Architecture",
    "URP" := "Urban & Regional Planning",
    "ME" := "Mechanical Engineering",
    "IPE" := "Industrial & Production Engineering",
    "MTE" := "Mechatronics Engineering",
    "GCE" := "Glass & Ceramic Engineering",
    "CFPE" := "Chemical & Food Process Engineering",
    "MSE" := "Materials Science & Engineering"
  ]

  /** `_dept_full_name`: the full name of a known code, looked up upper-cased
      and stripped; any other input is returned as it was given. */
  function DeptFullName(deptCode: string): (r: string)
    ensures Strip(Upper(deptCode)) in DeptNames ==> r == DeptNames[Strip(Upper(deptCode))]
    ensures Strip(Upper(deptCode)) !in DeptNames ==> r == deptCode
  {
    var key := Strip(Upper(deptCode));
    if key in DeptNames then DeptNames[key] else deptCode
  }

  lemma UpperOfLower(s: string)
    ensures Upper(Lower(s)) == Upper(s)
  {
  }

  /** The lookup ignores case: a known code in lower or upper case names the
      same department. */
  lemma DeptFullNameIgnoresCase(deptCode: string)
    requires Strip(Upper(deptCode)) in DeptNames
    ensures DeptFullName(Lower(deptCode)) == DeptFullName(deptCode)
    ensures DeptFullName(Upper(deptCode)) == DeptFullName(deptCode)
  {
    UpperOfLower(deptCode);
    UpperIdempotent(deptCode);
  }

  /** `_safe_filename`: every character other than a letter, a digit, "-" or
      "_" becomes "_". */
  function SafeName(s: string): (r: string)
    ensures |r| == |s|
    ensures forall c :: c in r ==> IsSafeChar(c)
    ensures forall i :: 0 <= i < |s| && IsSafeChar(s[i]) ==> r[i] == s[i]
    ensures forall i :: 0 <= i < |s| && !IsSafeChar(s[i]) ==> r[i] == '_'
  {
    seq(|s|, i requires 0 <= i < |s| => if IsSafeChar(s[i]) then s[i] else '_')
  }

  /** A name made of safe characters is left alone, so the cleaning is idempotent. */
  lemma SafeNameOfSafe(s: string)
    requires forall c :: c in s ==> IsSafeChar(c)
    ensures SafeName(s) == s
  {
    forall i | 0 <= i < |s| ensures SafeName(s)[i] == s[i] {
      assert s[i] in s;
    }
  }

  lemma SafeNameIdempotent(s: string)
    ensures SafeName(SafeName(s)) == SafeName(s)
  {
    SafeNameOfSafe(SafeName(s));
  }

  // ---------------------------------------------------------------------
  // Sorting the CT numbers (`sorted`)

  predicate Sorted(xs: seq<int>)
  {
    forall i, j :: 0 <= i < j < |xs| ==> xs[i] <= xs[j]
  }

  function Insert(x: int, xs: seq<int>): (r: seq<int>)
    ensures multiset(r) == multiset(xs) + multiset{x}
  {
    if |xs| == 0 then [x]
    else if x <= xs[0] then [x] + xs
    else
      assert xs == [xs[0]] + xs[1..];
      [xs[0]] + Insert(x, xs[1..])
  }

  /** Insertion keeps a sorted sequence sorted. */
  lemma {:induction false} InsertSorted(x: int, xs: seq<int>)
    requires Sorted(xs)
    ensures Sorted(Insert(x, xs))
  {
    if |xs| > 0 && x > xs[0] {
      var rest := Insert(x, xs[1..]);
      InsertSorted(x, xs[1..]);
      forall k | 0 <= k < |rest| ensures xs[0] <= rest[k] {
        assert rest[k] in multiset(rest);
        if rest[k] != x {
          assert rest[k] in multiset(xs[1..]);
          var j :| 0 <= j < |xs[1..]| && xs[1..][j] == rest[k];
          assert xs[j + 1] == rest[k];
        }
      }
      assert Insert(x, xs) == [xs[0]] + rest;
    }
  }

  /** `sorted(xs)` by insertion. */
  function Sort(xs: seq<int>): (r: seq<int>)
    ensures Sorted(r) && multiset(r) == multiset(xs)
  {
    if |xs| == 0 then []
    else
      assert xs == [xs[0]] + xs[1..];
      var rest := Sort(xs[1..]);
      InsertSorted(xs[0], rest);
      Insert(xs[0], rest)
  }

  /** Two sorted sequences holding the same numbers are equal. */
  lemma {:induction false} SortedUnique(a: seq<int>, b: seq<int>)
    requires Sorted(a) && Sorted(b) && multiset(a) == multiset(b)
    ensures a == b
    decreases |a|
  {
    if |a| == 0 {
      assert |multiset(b)| == 0;
    } else {
      assert |b| == |a| && a[0] == b[0] by {
        assert |multiset(b)| == |multiset(a)|;
        HeadIsLeast(b, a[0]);
        HeadIsLeast(a, b[0]);
      }
      MultisetOfTail(a);
      MultisetOfTail(b);
      SortedTail(a);
      SortedTail(b);
      SortedUnique(a[1..], b[1..]);
      ConsEqual(a, b);
    }
  }

  lemma SortedTail(a: seq<int>)
    requires Sorted(a) && |a| > 0
    ensures Sorted(a[1..])
  {
  }

  lemma ConsEqual(a: seq<int>, b: seq<int>)
    requires |a| > 0 && |b| > 0 && a[0] == b[0] && a[1..] == b[1..]
    ensures a == b
  {
    assert a == [a[0]] + a[1..];
    assert b == [b[0]] + b[1..];
  }

  lemma HeadIsLeast(a: seq<int>, x: int)
    requires Sorted(a) && x in multiset(a)
    ensures |a| > 0 && a[0] <= x
  {
    assert x in a;
    var k :| 0 <= k < |a| && a[k] == x;
  }

  lemma MultisetOfTail(a: seq<int>)
    requires |a| > 0
    ensures multiset(a[1..]) == multiset(a) - multiset{a[0]}
  {
    assert a == [a[0]] + a[1..];
  }

  /** The sorted order does not depend on the order of the input. */
  lemma SortIgnoresOrder(xs: seq<int>, ys: seq<int>)
    requires multiset(xs) == multiset(ys)
    ensures Sort(xs) == Sort(ys)
  {
    SortedUnique(Sort(xs), Sort(ys));
  }

  // ---------------------------------------------------------------------
  // The extracted JSON object

  datatype Key = Mode | Question | Dept | Section | Series | CourseCode | CtNo

  function KeyName(k: Key): string
  {
    match k
    case Mode => "mode"
    case Question => "question"
    case Dept => "dept"
    case Section => "section"
    case Series => "series"
    case CourseCode => "course_code"
    case CtNo => "ct_no"
  }

  /** `data.get(key)` */
  function Get(data: map<string, JValue>, k: Key): Option<JValue>
  {
    var name := KeyName(k);
    if name in data then Some(data[name]) else None
  }

  /** The position of a required field in the required list. */
  function Rank(k: Key): nat
  {
    match k
    case Dept => 0
    case Section => 1
    case Series => 2
    case CourseCode => 3
    case CtNo => 4
    case Mode => 5
    case Question => 6
  }

  const Required: seq<Key> := [Dept, Section, Series, CourseCode, CtNo]

  predicate InRankOrder(ks: seq<Key>)
  {
    forall i, j :: 0 <= i < j < |ks| ==> Rank(ks[i]) < Rank(ks[j])
  }

  /** The tail of a rank-ordered list is rank-ordered and ranks above its head. */
  lemma TailAfterHead(keys: seq<Key>)
    requires |keys| > 0 && InRankOrder(keys)
    ensures InRankOrder(keys[1..])
    ensures forall k :: k in keys[1..] ==> Rank(keys[0]) < Rank(k)
  {
    forall k | k in keys[1..] ensures Rank(keys[0]) < Rank(k) {
      var j :| 0 <= j < |keys[1..]| && keys[1..][j] == k;
      assert keys[j + 1] == k;
    }
  }

  /** A key ranked below every key of a rank-ordered list may lead it. */
  lemma ConsInRankOrder(x: Key, rest: seq<Key>)
    requires InRankOrder(rest)
    requires forall k :: k in rest ==> Rank(x) < Rank(k)
    ensures InRankOrder([x] + rest)
  {
    var r := [x] + rest;
    forall i, j | 0 <= i < j < |r| ensures Rank(r[i]) < Rank(r[j]) {
      assert r[j] == rest[j - 1] && r[j] in rest;
      if i > 0 { assert r[i] == rest[i - 1]; }
    }
  }

  /** The keys of `keys` whose value is falsy or absent, in the order of `keys`. */
  function MissingFrom(keys: seq<Key>, data: map<string, JValue>): (r: seq<Key>)
    requires InRankOrder(keys)
    ensures forall k :: k in r <==> k in keys && FalsyOpt(Get(data, k))
    ensures InRankOrder(r)
  {
    if |keys| == 0 then []
    else
      TailAfterHead(keys);
      var rest := MissingFrom(keys[1..], data);
      assert forall k :: k in keys <==> k == keys[0] || k in keys[1..];
      if FalsyOpt(Get(data, keys[0])) then
        ConsInRankOrder(keys[0], rest);
        [keys[0]] + rest
      else rest
  }

  /** The required keys are listed in rank order: each one's rank is its position. */
  lemma RequiredInRankOrder()
    ensures InRankOrder(Required)
  {
    assert Rank(Required[0]) == 0 && Rank(Required[1]) == 1 && Rank(Required[2]) == 2;
    assert Rank(Required[3]) == 3 && Rank(Required[4]) == 4;
    assert forall i :: 0 <= i < |Required| ==> Rank(Required[i]) == i;
  }

  /** `missing = [k for k in required if not data.get(k)]` */
  function MissingRequired(data: map<string, JValue>): (r: seq<Key>)
    ensures forall k :: k in r <==> k in Required && FalsyOpt(Get(data, k))
    ensures InRankOrder(r)
  {
    RequiredInRankOrder();
    MissingFrom(Required, data)
  }

  function MissingMessage(ks: seq<Key>): string
  {
    "Missing: " + Join(seq(|ks|, i requires 0 <= i < |ks| => KeyName(ks[i])), ", ")
  }

  /** `isinstance(v, list) and all(isinstance(x, int) for x in v)` */
  predicate IsIntList(v: JValue)
  {
    v.JList? && forall c :: c in v.items ==> IsInt(c)
  }

  predicate AllInts(items: seq<JValue>)
  {
    forall c :: c in items ==> IsInt(c)
  }

  function IntValues(items: seq<JValue>): (r: seq<int>)
    requires AllInts(items)
    ensures |r| == |items|
    ensures forall i :: 0 <= i < |items| ==> r[i] == IntValue(items[i])
  {
    seq(|items|, i requires 0 <= i < |items| => IntValue(items[i]))
  }

  /** The validated request: upper-cased and stripped dept and section,
      stripped series, normalised course code and the CT list as given. */
  datatype Request = Request(dept: string, section: string, series: string, courseCode: string, cts: seq<JValue>)

  /** `str(data[k])` */
  function Field(data: map<string, JValue>, k: Key, repr: JValue -> string): string
    requires Get(data, k).Some?
  {
    PyStr(Get(data, k).value, repr)
  }

  /** `s.upper().strip()` */
  function UpperStrip(s: string): (r: string)
    ensures NoLower(r) && Trimmed(r)
  {
    UpperNoLower(s);
    StripOfNoLower(Upper(s));
    Strip(Upper(s))
  }

  function RequestOf(data: map<string, JValue>, repr: JValue -> string): (r: Request)
    requires MissingRequired(data) == [] && IsIntList(Get(data, CtNo).value)
    ensures AllInts(r.cts)
    ensures NoLower(r.dept) && NoLower(r.section) && Trimmed(r.dept) && Trimmed(r.section) && Trimmed(r.series)
  {
    assert Dept in Required && Section in Required && Series in Required && CourseCode in Required && CtNo in Required;
    Request(UpperStrip(Field(data, Dept, repr)), UpperStrip(Field(data, Section, repr)),
            Strip(Field(data, Series, repr)), NormalizeCourseCode(Field(data, CourseCode, repr)),
            Get(data, CtNo).value.items)
  }

  lemma StripOfNoLower(s: string)
    requires NoLower(s)
    ensures NoLower(Strip(s))
  {
    var t := Strip(s);
    var k := |TrimStart(s)|;
    forall c | c in t ensures !IsLower(c) {
      assert c in TrimStart(s);
      assert TrimStart(s) == s[|s| - k..];
    }
  }

  // ---------------------------------------------------------------------
  // Sheet selection

  /** The query's filter: the teacher's own sheet for this group, course and
      one of the requested CTs. */
  predicate Matches(s: Sheet, teacherId: string, req: Request)
    requires AllInts(req.cts)
  {
    s.createdByTeacherId == Some(teacherId) && s.dept == req.dept && s.section == req.section
    && s.series == req.series && s.courseCode == req.courseCode
    && s.ctNo.Some? && s.ctNo.value in IntValues(req.cts)
  }

  function MatchingSheets(sheets: seq<Sheet>, teacherId: string, req: Request): (r: seq<Sheet>)
    requires AllInts(req.cts)
    ensures forall s :: s in r <==> s in sheets && Matches(s, teacherId, req)
    ensures (forall s :: s in sheets ==> !Matches(s, teacherId, req)) ==> r == []
  {
    if |sheets| == 0 then []
    else
      assert forall s :: s in sheets <==> s == sheets[0] || s in sheets[1..];
      (if Matches(sheets[0], teacherId, req) then [sheets[0]] else []) + MatchingSheets(sheets[1..], teacherId, req)
  }

  /** `{s.ct_no for s in sheets}` */
  function FoundCts(ms: seq<Sheet>): set<int>
  {
    set i | 0 <= i < |ms| && ms[i].ctNo.Some? :: ms[i].ctNo.value
  }

  /** The requested CTs that no sheet covers, in request order. */
  function MissingCts(cts: seq<JValue>, found: set<int>): (r: seq<JValue>)
    requires AllInts(cts)
    ensures AllInts(r)
    ensures forall c :: c in r <==> c in cts && IntValue(c) !in found
  {
    if |cts| == 0 then []
    else
      assert forall c :: c in cts <==> c == cts[0] || c in cts[1..];
      (if IntValue(cts[0]) !in found then [cts[0]] else []) + MissingCts(cts[1..], found)
  }

  /** `str(x)` of an int or a bool. */
  function IntRepr(v: JValue): string
    requires IsInt(v)
  {
    if v.JBool? then (if v.b then "True" else "False") else IntToString(v.i)
  }

  /** `str(xs)` of a list of ints: "[1, 2]". */
  function IntListRepr(vs: seq<JValue>): string
    requires AllInts(vs)
  {
    "[" + Join(seq(|vs|, i requires 0 <= i < |vs| => IntRepr(vs[i])), ", ") + "]"
  }

  const ParseFailure := "Failed to parse marksheet request JSON."
  const DefaultQuestion := "Please provide missing info."
  const BadCtList := "ct_no must be a list of integers like [1] or [1,2]."
  const NoSheets := "No matching result sheets found for your request."

  function MissingCtsMessage(missing: seq<JValue>): string
    requires AllInts(missing)
  {
    "Sheets missing for CT: " + IntListRepr(missing) + ". Create them first, then upload entries."
  }

  // ---------------------------------------------------------------------
  // The generator's entries

  /** `s.entries`: the sheet's rows of the entries table, in the order the
      relationship loads them. */
  function EntriesOf(entries: seq<Entry>, sheetId: string): (r: seq<Entry>)
    ensures forall e :: e in r <==> e in entries && e.sheetId == sheetId
  {
    if |entries| == 0 then []
    else
      assert forall e :: e in entries <==> e == entries[0] || e in entries[1..];
      (if entries[0].sheetId == sheetId then [entries[0]] else []) + EntriesOf(entries[1..], sheetId)
  }

  /** One generator entry per row of a sheet with the sheet's CT number. */
  function Rows(ct: int, es: seq<Entry>): (r: seq<MarkEntry>)
    ensures |r| == |es|
  {
    seq(|es|, i requires 0 <= i < |es| => MarkEntry(es[i].rollNo, ct, es[i].marks))
  }

  lemma RowsStep(ct: int, es: seq<Entry>, j: int)
    requires 0 <= j < |es|
    ensures Rows(ct, es[..j + 1]) == Rows(ct, es[..j]) + [MarkEntry(es[j].rollNo, ct, es[j].marks)]
  {
  }

  predicate AllNumbered(ms: seq<Sheet>)
  {
    forall i :: 0 <= i < |ms| ==> ms[i].ctNo.Some?
  }

  /** `marks_batch_entries`: sheet by sheet, each sheet's rows in order. */
  function BatchOf(ms: seq<Sheet>, entries: seq<Entry>): seq<MarkEntry>
    requires AllNumbered(ms)
  {
    if |ms| == 0 then []
    else
      var s := ms[|ms| - 1];
      BatchOf(ms[..|ms| - 1], entries) + Rows(s.ctNo.value, EntriesOf(entries, s.id))
  }

  lemma BatchOfAt(ms: seq<Sheet>, entries: seq<Entry>, i: int)
    requires AllNumbered(ms) && 0 <= i < |ms|
    ensures BatchOf(ms[..i + 1], entries)
         == BatchOf(ms[..i], entries) + Rows(ms[i].ctNo.value, EntriesOf(entries, ms[i].id))
  {
    assert ms[..i + 1][..i] == ms[..i];
  }

  method BuildBatch(ms: seq<Sheet>, entries: seq<Entry>) returns (batch: seq<MarkEntry>)
    requires AllNumbered(ms)
    ensures batch == BatchOf(ms, entries)
  {
    batch := [];
    var i := 0;
    while i < |ms|
      invariant 0 <= i <= |ms|
      invariant batch == BatchOf(ms[..i], entries)
    {
      var s := ms[i];
      var ct := s.ctNo.value;
      var es := EntriesOf(entries, s.id);
      ghost var before := batch;
      var j := 0;
      while j < |es|
        invariant 0 <= j <= |es|
        invariant batch == before + Rows(ct, es[..j])
      {
        RowsStep(ct, es, j);
        batch := batch + [MarkEntry(es[j].rollNo, ct, es[j].marks)];
        j := j + 1;
      }
      assert es[..j] == es;
      BatchOfAt(ms, entries, i);
      i := i + 1;
    }
    assert ms[..i] == ms;
  }

  /** Entry `e` of sheet `s` gives the generator entry `b`. */
  predicate FromSheet(s: Sheet, e: Entry, b: MarkEntry)
  {
    e.sheetId == s.id && s.ctNo.Some? && b == MarkEntry(e.rollNo, s.ctNo.value, e.marks)
  }

  lemma RowsMember(s: Sheet, entries: seq<Entry>, b: MarkEntry)
    requires s.ctNo.Some?
    ensures b in Rows(s.ctNo.value, EntriesOf(entries, s.id)) <==> exists e :: e in entries && FromSheet(s, e, b)
  {
    var es := EntriesOf(entries, s.id);
    var rs := Rows(s.ctNo.value, es);
    if b in rs {
      var k :| 0 <= k < |rs| && rs[k] == b;
      assert es[k] in es && FromSheet(s, es[k], b);
    }
    if e :| e in entries && FromSheet(s, e, b) {
      var k :| 0 <= k < |es| && es[k] == e;
      assert rs[k] == b;
    }
  }

  /** Every generator entry comes from a row of one of the selected sheets. */
  lemma {:induction false} BatchMembersSourced(ms: seq<Sheet>, entries: seq<Entry>, b: MarkEntry)
    requires AllNumbered(ms) && b in BatchOf(ms, entries)
    ensures exists s, e :: s in ms && e in entries && FromSheet(s, e, b)
  {
    var n := |ms| - 1;
    assert ms == ms[..n] + [ms[n]];
    if b in BatchOf(ms[..n], entries) {
      BatchMembersSourced(ms[..n], entries, b);
      var s, e :| s in ms[..n] && e in entries && FromSheet(s, e, b);
      assert s in ms;
    } else {
      RowsMember(ms[n], entries, b);
      var e :| e in entries && FromSheet(ms[n], e, b);
      assert ms[n] in ms;
    }
  }

  /** Every row of a selected sheet reaches the generator. */
  lemma {:induction false} BatchMembersComplete(ms: seq<Sheet>, entries: seq<Entry>, s: Sheet, e: Entry)
    requires AllNumbered(ms) && s in ms && e in entries && e.sheetId == s.id
    ensures s.ctNo.Some? && MarkEntry(e.rollNo, s.ctNo.value, e.marks) in BatchOf(ms, entries)
  {
    var n := |ms| - 1;
    var b := MarkEntry(e.rollNo, s.ctNo.value, e.marks);
    assert ms == ms[..n] + [ms[n]];
    if s == ms[n] {
      assert FromSheet(s, e, b);
      RowsMember(ms[n], entries, b);
    } else {
      assert s in ms[..n];
      BatchMembersComplete(ms[..n], entries, s, e);
    }
  }

  // ---------------------------------------------------------------------
  // Roll range

  /** `_safe_int(x)` = `int(str(x))` or None; `str(None)` is "None", which does
      not parse. */
  function SafeInt(x: Option<string>): Option<int>
  {
    if x.None? then None else ParseInt(x.value)
  }

  /** The values of the `Some` elements, in order. */
  function Somes(ps: seq<Option<int>>): (r: seq<int>)
    ensures forall x :: x in r <==> Some(x) in ps
  {
    if |ps| == 0 then []
    else
      assert forall p :: p in ps <==> p == ps[0] || p in ps[1..];
      (if ps[0].Some? then [ps[0].value] else []) + Somes(ps[1..])
  }

  /** `all_rolls`: the entry rolls that parse as integers. */
  function RollNumbers(batch: seq<MarkEntry>): (r: seq<int>)
    ensures forall x :: x in r <==> exists i :: 0 <= i < |batch| && ParseInt(batch[i].rollNo) == Some(x)
  {
    var ps := seq(|batch|, i requires 0 <= i < |batch| => ParseInt(batch[i].rollNo));
    var r := Somes(ps);
    assert forall x :: Some(x) in ps <==> exists i :: 0 <= i < |batch| && ParseInt(batch[i].rollNo) == Some(x) by {
      forall x ensures Some(x) in ps <==> exists i :: 0 <= i < |batch| && ParseInt(batch[i].rollNo) == Some(x) {
        if Some(x) in ps {
          var i :| 0 <= i < |ps| && ps[i] == Some(x);
          assert ParseInt(batch[i].rollNo) == Some(x);
        }
        if exists i :: 0 <= i < |batch| && ParseInt(batch[i].rollNo) == Some(x) {
          var i :| 0 <= i < |batch| && ParseInt(batch[i].rollNo) == Some(x);
          assert ps[i] == Some(x);
        }
      }
    }
    r
  }

  function MinInt(xs: seq<int>): (r: int)
    requires |xs| > 0
    ensures r in xs && forall x :: x in xs ==> r <= x
  {
    if |xs| == 1 then xs[0]
    else
      var m := MinInt(xs[1..]);
      assert forall x :: x in xs <==> x == xs[0] || x in xs[1..];
      if xs[0] <= m then xs[0] else m
  }

  function MaxInt(xs: seq<int>): (r: int)
    requires |xs| > 0
    ensures r in xs && forall x :: x in xs ==> x <= r
  {
    if |xs| == 1 then xs[0]
    else
      var m := MaxInt(xs[1..]);
      assert forall x :: x in xs <==> x == xs[0] || x in xs[1..];
      if xs[0] >= m then xs[0] else m
  }

  /** `from_roll`: the sheet's starting roll when it parses to a non-zero
      integer, else the smallest entry roll, else 0. */
  function FromRoll(startingRoll: Option<string>, rolls: seq<int>): (r: int)
    ensures SafeInt(startingRoll).Some? && SafeInt(startingRoll).value != 0 ==> r == SafeInt(startingRoll).value
    ensures !(SafeInt(startingRoll).Some? && SafeInt(startingRoll).value != 0) && |rolls| > 0 ==>
              r in rolls && forall x :: x in rolls ==> r <= x
    ensures !(SafeInt(startingRoll).Some? && SafeInt(startingRoll).value != 0) && |rolls| == 0 ==> r == 0
  {
    var s := SafeInt(startingRoll);
    if s.Some? && s.value != 0 then s.value else if |rolls| > 0 then MinInt(rolls) else 0
  }

  /** `to_roll`: the sheet's ending roll when it parses to a non-zero
      integer, else the largest entry roll, else 0. */
  function ToRoll(endingRoll: Option<string>, rolls: seq<int>): (r: int)
    ensures SafeInt(endingRoll).Some? && SafeInt(endingRoll).value != 0 ==> r == SafeInt(endingRoll).value
    ensures !(SafeInt(endingRoll).Some? && SafeInt(endingRoll).value != 0) && |rolls| > 0 ==>
              r in rolls && forall x :: x in rolls ==> x <= r
    ensures !(SafeInt(endingRoll).Some? && SafeInt(endingRoll).value != 0) && |rolls| == 0 ==> r == 0
  {
    var s := SafeInt(endingRoll);
    if s.Some? && s.value != 0 then s.value else if |rolls| > 0 then MaxInt(rolls) else 0
  }

  /** Without usable sheet bounds the range spans the entry rolls, so the
      generator's roll-order check passes. */
  lemma FallbackRangeOrdered(startingRoll: Option<string>, endingRoll: Option<string>, rolls: seq<int>)
    requires SafeInt(startingRoll).None? && SafeInt(endingRoll).None?
    ensures FromRoll(startingRoll, rolls) <= ToRoll(endingRoll, rolls)
  {
    if |rolls| > 0 {
      assert FromRoll(startingRoll, rolls) in rolls;
    }
  }

  // ---------------------------------------------------------------------
  // File name and message

  function IntStringsOf(xs: seq<int>): (r: seq<string>)
    ensures |r| == |xs|
  {
    seq(|xs|, i requires 0 <= i < |xs| => IntToString(xs[i]))
  }

  /** `"_".join(map(str, sorted(ct_list)))` */
  function CtRange(cts: seq<int>): string
  {
    Join(IntStringsOf(Sort(cts)), "_")
  }

  /** `{course}_CT-{ct_range}_{dept}-{series}-{section}_{ts}.pdf`, each part
      made safe; `ts` is the UTC time stamp. */
  function FileName(req: Request, ts: string): (r: string)
    requires AllInts(req.cts)
    ensures EndsWith(r, ".pdf")
    ensures StartsWith(r, SafeName(req.courseCode) + "_CT-")
  {
    var head := SafeName(req.courseCode) + "_CT-";
    var body := CtRange(IntValues(req.cts)) + "_" + SafeName(req.dept) + "-" + SafeName(req.series) + "-"
                + SafeName(req.section) + "_" + ts;
    var r := head + (body + ".pdf");
    assert r[..|head|] == head;
    assert r[|r| - 4..] == ".pdf";
    r
  }

  /** The file name does not depend on the order in which the CTs were asked
      for. */
  lemma FileNameIgnoresCtOrder(req1: Request, req2: Request, ts: string)
    requires AllInts(req1.cts) && AllInts(req2.cts)
    requires req1.(cts := req2.cts) == req2
    requires multiset(IntValues(req1.cts)) == multiset(IntValues(req2.cts))
    ensures FileName(req1, ts) == FileName(req2, ts)
  {
    SortIgnoresOrder(IntValues(req1.cts), IntValues(req2.cts));
  }

  const DownloadBase := "/downloads/"

  const Headline := " CT Marksheet generated successfully.\n\n"
  const LinkLine := " Download PDF:\n"
  const PartyPopper: char := '\U{1F389}'
  const PageFacingUp: char := '\U{1F4C4}'

  /** The success message as the source file spells it: in place of each
      emoji, its UTF-8 bytes read back as Windows-1252 text. */
  function SuccessTextAsWritten(filename: string): string
  {
    "\U{F0}\U{178}\U{17D}\U{2030}" + Headline + "\U{F0}\U{178}\U{201C}\U{201E}" + LinkLine + DownloadBase + filename
  }

  /** The success message with the party-popper and page emoji the cover tool
      uses in the same place. */
  function SuccessText(filename: string): (r: string)
    ensures |r| > 0 && r[0] == PartyPopper
    ensures EndsWith(r, DownloadBase + filename)
  {
    var head := [PartyPopper] + Headline + [PageFacingUp] + LinkLine;
    var r := head + (DownloadBase + filename);
    assert r[|r| - |DownloadBase + filename|..] == DownloadBase + filename;
    r
  }

  /** The four UTF-8 bytes of a code point above U+FFFF. */
  function Utf8Four(cp: int): seq<int>
    requires 0x10000 <= cp <= 0x10FFFF
  {
    [0xF0 + cp / 0x40000, 0x80 + (cp / 0x1000) % 0x40, 0x80 + (cp / 0x40) % 0x40, 0x80 + cp % 0x40]
  }

  /** Windows-1252 decoding of one byte; the five unassigned bytes give None. */
  function Cp1252(b: int): Option<char>
    requires 0 <= b < 0x100
  {
    if b < 0x80 || b >= 0xA0 then Some(b as char)
    else
      match b
      case 0x80 => Some('\U{20AC}') case 0x82 => Some('\U{201A}') case 0x83 => Some('\U{192}')
      case 0x84 => Some('\U{201E}') case 0x85 => Some('\U{2026}') case 0x86 => Some('\U{2020}')
      case 0x87 => Some('\U{2021}') case 0x88 => Some('\U{2C6}') case 0x89 => Some('\U{2030}')
      case 0x8A => Some('\U{160}') case 0x8B => Some('\U{2039}') case 0x8C => Some('\U{152}')
      case 0x8E => Some('\U{17D}') case 0x91 => Some('\U{2018}') case 0x92 => Some('\U{2019}')
      case 0x93 => Some('\U{201C}') case 0x94 => Some('\U{201D}') case 0x95 => Some('\U{2022}')
      case 0x96 => Some('\U{2013}') case 0x97 => Some('\U{2014}') case 0x98 => Some('\U{2DC}')
      case 0x99 => Some('\U{2122}') case 0x9A => Some('\U{161}') case 0x9B => Some('\U{203A}')
      case 0x9C => Some('\U{153}') case 0x9E => Some('\U{17E}') case 0x9F => Some('\U{178}')
      case _ => None
  }

  /** The text an emoji turns into when its UTF-8 bytes are read as Windows-1252. */
  function Misread(c: char): string
    requires 0x10000 <= c as int
  {
    var bs := Utf8Four(c as int);
    var cs := seq(4, i requires 0 <= i < 4 => Cp1252(bs[i]));
    if forall i :: 0 <= i < 4 ==> cs[i].Some? then seq(4, i requires 0 <= i < 4 => cs[i].value) else ""
  }

  /** The message as written is the intended one with each emoji replaced
      by its misreading, so the two differ for every file name. */
  lemma SuccessTextMojibake(filename: string)
    ensures SuccessText(filename) == [PartyPopper] + Headline + [PageFacingUp] + LinkLine + DownloadBase + filename
    ensures SuccessTextAsWritten(filename)
         == Misread(PartyPopper) + Headline + Misread(PageFacingUp) + LinkLine + DownloadBase + filename
    ensures SuccessTextAsWritten(filename) != SuccessText(filename)
  {
    assert Utf8Four(0x1F389) == [0xF0, 0x9F, 0x8E, 0x89];
    assert Utf8Four(0x1F4C4) == [0xF0, 0x9F, 0x93, 0x84];
    assert Misread(PartyPopper) == "\U{F0}\U{178}\U{17D}\U{2030}";
    assert Misread(PageFacingUp) == "\U{F0}\U{178}\U{201C}\U{201E}";
    assert SuccessTextAsWritten(filename)[0] == '\U{F0}';
  }

  // ---------------------------------------------------------------------
  // The pipeline

  datatype Outcome =
    | Say(text: string)
    | AskBack(question: JValue)
    | Generated(args: MarkSheetArgs, fileName: string, layout: SheetLayout, text: string)

  /** The generator's arguments for a validated request and its sheets. */
  function ArgsOf(req: Request, ms: seq<Sheet>, batch: seq<MarkEntry>): (a: MarkSheetArgs)
    requires |ms| > 0
    ensures a.entries == batch && a.courseName == ms[0].courseName
    ensures a.dept == DeptFullName(req.dept) && a.section == Some(req.section)
    ensures a.ctCount == DefaultCtCount && a.fullMarks == DefaultFullMarks && a.showDiv0
  {
    var rolls := RollNumbers(batch);
    MarkSheetArgs(DeptFullName(req.dept), req.series, Some(req.section), req.courseCode, ms[0].courseName,
                  FromRoll(ms[0].startingRoll, rolls), ToRoll(ms[0].endingRoll, rolls), batch,
                  DefaultCtCount, DefaultFullMarks, true)
  }

  /** Steps 3 to 8 of the pipeline for a validated request. */
  function Collect(req: Request, teacherId: string, sheets: seq<Sheet>, entries: seq<Entry>, ts: string,
                   toFloat: string -> Option<real>, fmtNum: real -> string, fmtAvg: real -> string): (r: Result<Outcome>)
    requires AllInts(req.cts)
    ensures r.Ok? && r.value.Generated? ==>
              |MatchingSheets(sheets, teacherId, req)| > 0
              && r.value.fileName == FileName(req, ts) && r.value.text == SuccessText(r.value.fileName)
              && r.value.args.dept == DeptFullName(req.dept) && r.value.args.section == Some(req.section)
    ensures r.Ok? ==> r.value.Say? || r.value.Generated?
  {
    var ms := MatchingSheets(sheets, teacherId, req);
    if |ms| == 0 then Ok(Say(NoSheets))
    else
      var missing := MissingCts(req.cts, FoundCts(ms));
      if |missing| > 0 then Ok(Say(MissingCtsMessage(missing)))
      else
        assert AllNumbered(ms) by {
          forall i | 0 <= i < |ms| ensures ms[i].ctNo.Some? { assert ms[i] in ms; }
        }
        var args := ArgsOf(req, ms, BatchOf(ms, entries));
        var name := FileName(req, ts);
        var layout :- MarkSheetSpec(args, toFloat, fmtNum, fmtAvg);
        Ok(Generated(args, name, layout, SuccessText(name)))
  }

  /** The pipeline on the decoded object. */
  function Respond(data: map<string, JValue>, repr: JValue -> string, teacherId: string,
                   sheets: seq<Sheet>, entries: seq<Entry>, ts: string,
                   toFloat: string -> Option<real>, fmtNum: real -> string, fmtAvg: real -> string): (r: Result<Outcome>)
    ensures Get(data, Mode) == Some(JStr("ask")) ==> r.Ok? && r.value.AskBack?
    ensures r.Ok? && r.value.Generated? ==> Get(data, Mode) != Some(JStr("ask")) && MissingRequired(data) == []
  {
    if Get(data, Mode) == Some(JStr("ask")) then Ok(AskBack(Get(data, Question).GetOr(JStr(DefaultQuestion))))
    else
      var missing := MissingRequired(data);
      if |missing| > 0 then Ok(Say(MissingMessage(missing)))
      else
        assert CtNo in Required;
        if !IsIntList(Get(data, CtNo).value) then Ok(Say(BadCtList))
        else Collect(RequestOf(data, repr), teacherId, sheets, entries, ts, toFloat, fmtNum, fmtAvg)
  }

  /** `run_generate_marksheet_pipeline` after the model call: `loads` is
      `json.loads` (None when it raises); a value that is not an object has
      no `get`. */
  function MarksheetSpec(reply: string, loads: string -> Option<JValue>, repr: JValue -> string,
                         teacherId: string, sheets: seq<Sheet>, entries: seq<Entry>, ts: string,
                         toFloat: string -> Option<real>, fmtNum: real -> string, fmtAvg: real -> string): (r: Result<Outcome>)
    ensures loads(reply).None? ==> r == Err(HttpError(400, ParseFailure))
    ensures loads(reply).Some? && !loads(reply).value.JObject? ==> r == Err(AttributeError("get"))
    ensures r.Ok? ==> loads(reply).Some? && loads(reply).value.JObject?
  {
    match loads(reply)
    case None => Err(HttpError(400, ParseFailure))
    case Some(v) =>
      if !v.JObject? then Err(AttributeError("get"))
      else Respond(v.fields, repr, teacherId, sheets, entries, ts, toFloat, fmtNum, fmtAvg)
  }

  method RunMarksheetPipeline(reply: string, loads: string -> Option<JValue>, repr: JValue -> string,
                              teacherId: string, sheets: seq<Sheet>, entries: seq<Entry>, ts: string,
                              toFloat: string -> Option<real>, fmtNum: real -> string, fmtAvg: real -> string)
    returns (r: Result<Outcome>)
    ensures r == MarksheetSpec(reply, loads, repr, teacherId, sheets, entries, ts, toFloat, fmtNum, fmtAvg)
  {
    var parsed := loads(reply);
    if parsed.None? {
      return Err(HttpError(400, ParseFailure));
    }
    if !parsed.value.JObject? {
      return Err(AttributeError("get"));
    }
    var data := parsed.value.fields;
    if Get(data, Mode) == Some(JStr("ask")) {
      return Ok(AskBack(Get(data, Question).GetOr(JStr(DefaultQuestion))));
    }
    var missing := MissingRequired(data);
    if |missing| > 0 {
      return Ok(Say(MissingMessage(missing)));
    }
    assert CtNo in Required;
    if !IsIntList(Get(data, CtNo).value) {
      return Ok(Say(BadCtList));
    }
    r := CollectSheets(RequestOf(data, repr), teacherId, sheets, entries, ts, toFloat, fmtNum, fmtAvg);
  }

  /** Steps 3 to 8: the sheet queries, the CT coverage check, the batch and
      the generator call. */
  method CollectSheets(req: Request, teacherId: string, sheets: seq<Sheet>, entries: seq<Entry>, ts: string,
                       toFloat: string -> Option<real>, fmtNum: real -> string, fmtAvg: real -> string)
    returns (r: Result<Outcome>)
    requires AllInts(req.cts)
    ensures r == Collect(req, teacherId, sheets, entries, ts, toFloat, fmtNum, fmtAvg)
  {
    var ms := MatchingSheets(sheets, teacherId, req);
    if |ms| == 0 {
      return Ok(Say(NoSheets));
    }
    var missingCts := MissingCts(req.cts, FoundCts(ms));
    if |missingCts| > 0 {
      return Ok(Say(MissingCtsMessage(missingCts)));
    }
    assert AllNumbered(ms) by {
      forall i | 0 <= i < |ms| ensures ms[i].ctNo.Some? { assert ms[i] in ms; }
    }
    var batch := BuildBatch(ms, entries);
    var args := ArgsOf(req, ms, batch);
    var name := FileName(req, ts);
    var generated := GenerateMarkSheet(args, toFloat, fmtNum, fmtAvg);
    if generated.Err? {
      return Err(generated.error);
    }
    r := Ok(Generated(args, name, generated.value, SuccessText(name)));
  }

  // ---------------------------------------------------------------------
  // Properties of the pipeline

  /** A reply asking for more information is answered before anything else,
      whatever the sheets hold. */
  lemma AskIgnoresSheets(data: map<string, JValue>, repr: JValue -> string, teacherId: string,
                         sheets1: seq<Sheet>, entries1: seq<Entry>, sheets2: seq<Sheet>, entries2: seq<Entry>, ts: string,
                         toFloat: string -> Option<real>, fmtNum: real -> string, fmtAvg: real -> string)
    requires Get(data, Mode) == Some(JStr("ask"))
    ensures Respond(data, repr, teacherId, sheets1, entries1, ts, toFloat, fmtNum, fmtAvg)
         == Respond(data, repr, teacherId, sheets2, entries2, ts, toFloat, fmtNum, fmtAvg)
    ensures Respond(data, repr, teacherId, sheets1, entries1, ts, toFloat, fmtNum, fmtAvg).Ok?
  {
  }

  /** A falsy required field is reported by name, all of them in the
      order dept, section, series, course_code, ct_no. */
  lemma MissingReported(data: map<string, JValue>, repr: JValue -> string, teacherId: string,
                        sheets: seq<Sheet>, entries: seq<Entry>, ts: string,
                        toFloat: string -> Option<real>, fmtNum: real -> string, fmtAvg: real -> string, k: Key)
    requires Get(data, Mode) != Some(JStr("ask"))
    requires k in Required && FalsyOpt(Get(data, k))
    ensures Respond(data, repr, teacherId, sheets, entries, ts, toFloat, fmtNum, fmtAvg)
         == Ok(Say(MissingMessage(MissingRequired(data))))
    ensures k in MissingRequired(data)
  {
  }

  /** Predicates over the generated outcome. */
  predicate CtsCovered(cts: seq<JValue>, ms: seq<Sheet>)
    requires AllInts(cts)
  {
    forall c :: c in cts ==> exists s :: s in ms && s.ctNo == Some(IntValue(c))
  }

  predicate BatchSourced(batch: seq<MarkEntry>, ms: seq<Sheet>, entries: seq<Entry>)
  {
    forall b :: b in batch ==> exists s, e :: s in ms && e in entries && FromSheet(s, e, b)
  }

  predicate BatchComplete(batch: seq<MarkEntry>, ms: seq<Sheet>, entries: seq<Entry>)
  {
    forall s, e :: s in ms && e in entries && e.sheetId == s.id && s.ctNo.Some? ==>
      MarkEntry(e.rollNo, s.ctNo.value, e.marks) in batch
  }

  /** A generated mark sheet covers every requested CT, and its entries are
      exactly the rows of the teacher's matching sheets. */
  lemma GeneratedFromMatchingSheets(req: Request, teacherId: string, sheets: seq<Sheet>, entries: seq<Entry>,
                                    ts: string, toFloat: string -> Option<real>, fmtNum: real -> string,
                                    fmtAvg: real -> string)
    requires AllInts(req.cts)
    requires Collect(req, teacherId, sheets, entries, ts, toFloat, fmtNum, fmtAvg).Ok?
    requires Collect(req, teacherId, sheets, entries, ts, toFloat, fmtNum, fmtAvg).value.Generated?
    ensures CtsCovered(req.cts, MatchingSheets(sheets, teacherId, req))
    ensures BatchSourced(Collect(req, teacherId, sheets, entries, ts, toFloat, fmtNum, fmtAvg).value.args.entries,
                         MatchingSheets(sheets, teacherId, req), entries)
    ensures BatchComplete(Collect(req, teacherId, sheets, entries, ts, toFloat, fmtNum, fmtAvg).value.args.entries,
                          MatchingSheets(sheets, teacherId, req), entries)
    ensures Collect(req, teacherId, sheets, entries, ts, toFloat, fmtNum, fmtAvg).value.fileName == FileName(req, ts)
  {
    var ms := MatchingSheets(sheets, teacherId, req);
    assert AllNumbered(ms) by {
      forall i | 0 <= i < |ms| ensures ms[i].ctNo.Some? { assert ms[i] in ms; }
    }
    var batch := BatchOf(ms, entries);
    assert Collect(req, teacherId, sheets, entries, ts, toFloat, fmtNum, fmtAvg).value.args.entries == batch;
    forall c | c in req.cts ensures exists s :: s in ms && s.ctNo == Some(IntValue(c)) {
      assert c !in MissingCts(req.cts, FoundCts(ms));
      assert IntValue(c) in FoundCts(ms);
      var i :| 0 <= i < |ms| && ms[i].ctNo.Some? && ms[i].ctNo.value == IntValue(c);
      assert ms[i] in ms;
    }
    forall b | b in batch ensures exists s, e :: s in ms && e in entries && FromSheet(s, e, b) {
      BatchMembersSourced(ms, entries, b);
    }
    forall s, e | s in ms && e in entries && e.sheetId == s.id && s.ctNo.Some?
      ensures MarkEntry(e.rollNo, s.ctNo.value, e.marks) in batch
    {
      BatchMembersComplete(ms, entries, s, e);
    }
  }

  /** Every selected sheet is the teacher's own, for the requested group,
      course and CTs; with none, or with a requested CT uncovered, no mark
      sheet is made. */
  lemma CollectRefusals(req: Request, teacherId: string, sheets: seq<Sheet>, entries: seq<Entry>,
                        ts: string, toFloat: string -> Option<real>, fmtNum: real -> string, fmtAvg: real -> string)
    requires AllInts(req.cts)
    ensures (forall s :: s in sheets ==> !Matches(s, teacherId, req)) ==>
              Collect(req, teacherId, sheets, entries, ts, toFloat, fmtNum, fmtAvg) == Ok(Say(NoSheets))
    ensures forall c :: c in req.cts && (forall s :: s in sheets && Matches(s, teacherId, req) ==> s.ctNo != Some(IntValue(c))) ==>
              Collect(req, teacherId, sheets, entries, ts, toFloat, fmtNum, fmtAvg).Ok?
              && Collect(req, teacherId, sheets, entries, ts, toFloat, fmtNum, fmtAvg).value.Say?
  {
    var ms := MatchingSheets(sheets, teacherId, req);
    forall c | c in req.cts && (forall s :: s in sheets && Matches(s, teacherId, req) ==> s.ctNo != Some(IntValue(c)))
      ensures Collect(req, teacherId, sheets, entries, ts, toFloat, fmtNum, fmtAvg).Ok?
              && Collect(req, teacherId, sheets, entries, ts, toFloat, fmtNum, fmtAvg).value.Say?
    {
      if |ms| > 0 {
        assert IntValue(c) !in FoundCts(ms);
        assert c in MissingCts(req.cts, FoundCts(ms));
      }
    }
  }
}
