/** The deterministic part of the `check_marks` tool: course-code and roll
    normalisation, the post-parse rules of the extraction step, the choice of
    result sheet and entry, and the replies. The LLM calls are inputs: the raw
    extraction reply, a JSON decoder, and the grounded answer as a function of
    the DB context alone. */
module CheckMarks {

  import opened Common
  import opened Text
  import opened ResultRecords
  import opened Profiles

  // ---------------------------------------------------------------------
  // CheckMarksExtracted

  datatype Mode = ModeOk | ModeAsk | ModeWrongTool

  /** The validated extraction record, with the schema's defaults. */
  datatype Extracted = Extracted(
    mode: Mode,
    courseCode: string,
    ctNo: Option<int>,
    question: Option<string>,
    missingFields: seq<string>,
    message: Option<string>)

  /** The fields of a decoded JSON object, each absent or present. */
  datatype RawFields = RawFields(
    mode: Option<string>,
    courseCode: Option<string>,
    ctNo: Option<int>,
    question: Option<string>,
    missingFields: Option<seq<string>>,
    message: Option<string>)

  function ModeOf(s: string): Option<Mode>
  {
    if s == "ok" then Some(ModeOk)
    else if s == "ask" then Some(ModeAsk)
    else if s == "wrong_tool" then Some(ModeWrongTool)
    else None
  }

  /** `CheckMarksExtracted.model_validate`: a mode outside the three literals
      is rejected; every absent field takes its default. */
  function Validate(raw: RawFields): (r: Result<Extracted>)
    ensures r.Ok? <==> raw.mode.None? || raw.mode.value in {"ok", "ask", "wrong_tool"}
    ensures r.Ok? && raw.mode.None? ==> r.value.mode == ModeOk
    ensures r.Ok? && raw.courseCode.None? ==> r.value.courseCode == ""
    ensures r.Ok? && raw.ctNo.None? ==> r.value.ctNo.None?
    ensures r.Ok? && raw.missingFields.None? ==> r.value.missingFields == []
    ensures r.Ok? && raw.question.None? ==> r.value.question.None?
    ensures r.Ok? && raw.message.None? ==> r.value.message.None?
    ensures r.Ok? ==> r.value.ctNo == raw.ctNo && r.value.question == raw.question && r.value.message == raw.message
    ensures r.Ok? && raw.mode.Some? ==> ModeOf(raw.mode.value) == Some(r.value.mode)
    ensures r.Ok? && raw.courseCode.Some? ==> r.value.courseCode == raw.courseCode.value
    ensures r.Ok? && raw.missingFields.Some? ==> r.value.missingFields == raw.missingFields.value
  {
    var mode := if raw.mode.None? then Some(ModeOk) else ModeOf(raw.mode.value);
    if mode.None? then Err(ValueError("mode must be one of 'ok', 'ask', 'wrong_tool'"))
    else Ok(Extracted(mode.value, raw.courseCode.GetOr(""), raw.ctNo, raw.question,
                      raw.missingFields.GetOr([]), raw.message))
  }

  // ---------------------------------------------------------------------
  // Normalisers

  predicate IsUpperLetter(c: char) { 'A' <= c <= 'Z' }

  /** Three upper-case letters, a hyphen and four digits, e.g. "CSE-1202". */
  predicate IsCanonicalCode(r: string)
  {
    |r| == 8 && (forall i :: 0 <= i < 3 ==> IsUpperLetter(r[i])) && r[3] == '-'
    && (forall i :: 4 <= i < 8 ==> IsDigit(r[i]))
  }

  /** `s.replace("--", "-")`: scans left to right, non-overlapping. */
  function CollapseHyphens(s: string): (r: string)
    ensures forall c :: c in r ==> c in s
  {
    if |s| >= 2 && s[0] == '-' && s[1] == '-' then
      assert forall c :: c in s[2..] ==> c in s;
      "-" + CollapseHyphens(s[2..])
    else if |s| == 0 then ""
    else
      assert forall c :: c in s[1..] ==> c in s;
      [s[0]] + CollapseHyphens(s[1..])
  }

  /** Python slice `s[:n]`. */
  function Prefix(s: string, n: nat): (r: string)
    ensures |r| == if |s| <= n then |s| else n
    ensures r == s[..|r|]
  {
    if |s| <= n then s else s[..n]
  }

  /** The pre-processing of `_normalize_course_code`: strip, upper-case,
      remove spaces, turn "_" into "-". */
  function Cleaned(raw: string): (s: string)
    ensures NoLower(s) && ' ' !in s && '_' !in s
  {
    var u := Upper(Strip(raw));
    UpperNoLower(Strip(raw));
    ReplaceChar(RemoveChar(u, ' '), '_', '-')
  }

  lemma NoLowerLetterIsUpper(s: string, i: int)
    requires NoLower(s) && 0 <= i < |s| && IsLetter(s[i])
    ensures IsUpperLetter(s[i])
  {
    assert s[i] in s;
  }

  /** `s[:3].isalpha()` on a string with no lower-case letter: three
      upper-case letters. */
  lemma AlphaPrefixIsUpper(s: string)
    requires NoLower(s) && |s| >= 3 && IsAlphaStr(s[..3])
    ensures forall i :: 0 <= i < 3 ==> IsUpperLetter(s[i])
  {
    forall i | 0 <= i < 3 ensures IsUpperLetter(s[i]) {
      assert s[..3][i] == s[i];
      NoLowerLetterIsUpper(s, i);
    }
  }

  /** "CSE1202": a hyphen is inserted after the three letters. */
  function InsertHyphen(s: string): (r: string)
    requires NoLower(s) && |s| == 7 && IsAlphaStr(s[..3]) && IsDigitStr(s[3..])
    ensures IsCanonicalCode(r)
  {
    AlphaPrefixIsUpper(s);
    assert forall i :: 4 <= i < 8 ==> (s[..3] + "-" + s[3..])[i] == s[3..][i - 4];
    s[..3] + "-" + s[3..]
  }

  lemma AlreadyCanonical(s: string)
    requires NoLower(s) && |s| == 8 && IsAlphaStr(s[..3]) && s[3] == '-' && IsDigitStr(s[4..])
    ensures IsCanonicalCode(s)
  {
    AlphaPrefixIsUpper(s);
    assert forall i :: 4 <= i < 8 ==> s[i] == s[4..][i - 4];
  }

  /** The recovery branch on the hyphen-collapsed text. */
  function Recover(t: string): (r: string)
    requires NoLower(t)
    ensures r == "" || IsCanonicalCode(r)
  {
    if |t| >= 8 && IsAlphaStr(t[..3]) && '-' in t then
      var parts := Split(t, '-');
      if |parts| >= 2 && IsAlphaStr(parts[0]) && IsDigitStr(parts[1]) then
        var left := Prefix(parts[0], 3);
        var right := Prefix(parts[1], 4);
        if |left| == 3 && |right| == 4 then
          assert NoLower(parts[0]);
          AlphaPrefixIsUpper(parts[0]);
          assert forall i :: 0 <= i < 3 ==> (left + "-" + right)[i] == parts[0][i];
          assert forall i :: 4 <= i < 8 ==> (left + "-" + right)[i] == parts[1][i - 4];
          left + "-" + right
        else ""
      else ""
    else ""
  }

  predicate SevenForm(s: string)
  {
    |s| == 7 && IsAlphaStr(s[..3]) && IsDigitStr(s[3..])
  }

  predicate EightForm(s: string)
  {
    |s| == 8 && IsAlphaStr(s[..3]) && s[3] == '-' && IsDigitStr(s[4..])
  }

  /** `_normalize_course_code`: "" or a canonical code. */
  function NormalizeCourseCode(raw: string): (r: string)
    ensures raw == "" ==> r == ""
    ensures r == "" || IsCanonicalCode(r)
  {
    if raw == "" then ""
    else
      var s := Cleaned(raw);
      if SevenForm(s) then InsertHyphen(s)
      else if EightForm(s) then AlreadyCanonical(s); s
      else Recover(CollapseHyphens(s))
  }

  lemma CleanedOfCanonical(r: string)
    requires IsCanonicalCode(r)
    ensures Cleaned(r) == r
  {
    TrimStartFixed(r);
    TrimEndFixed(r);
    assert Strip(r) == r;
    forall c | c in r ensures !IsLower(c) && c != ' ' && c != '_' {
      var i :| 0 <= i < |r| && r[i] == c;
    }
    UpperOfNoLower(r);
    RemoveCharAbsent(r, ' ');
    ReplaceCharAbsent(r, '_', '-');
  }

  lemma CanonicalIsEightForm(r: string)
    requires IsCanonicalCode(r)
    ensures EightForm(r) && !SevenForm(r)
  {
    assert forall i :: 0 <= i < 3 ==> r[..3][i] == r[i];
    assert forall i :: 0 <= i < 4 ==> r[4..][i] == r[i + 4];
  }

  /** Normalising a normalised code changes nothing. */
  lemma NormalizeCourseCodeIdempotent(raw: string)
    ensures NormalizeCourseCode(NormalizeCourseCode(raw)) == NormalizeCourseCode(raw)
  {
    var r := NormalizeCourseCode(raw);
    if r != "" {
      CleanedOfCanonical(r);
      CanonicalIsEightForm(r);
      assert NormalizeCourseCode(r) == r;
    }
  }

  predicate Letters(a: string) { forall i :: 0 <= i < |a| ==> IsLetter(a[i]) }

  predicate Digits(d: string) { forall i :: 0 <= i < |d| ==> IsDigit(d[i]) }

  lemma {:induction false} RemoveCharConcat(x: string, y: string, a: char)
    ensures RemoveChar(x + y, a) == RemoveChar(x, a) + RemoveChar(y, a)
  {
    if |x| == 0 {
      assert x + y == y;
    } else {
      var h := if x[0] == a then "" else [x[0]];
      assert (x + y)[0] == x[0];
      assert (x + y)[1..] == x[1..] + y;
      RemoveCharConcat(x[1..], y, a);
      calc {
        RemoveChar(x + y, a);
        h + RemoveChar(x[1..] + y, a);
        h + (RemoveChar(x[1..], a) + RemoveChar(y, a));
        (h + RemoveChar(x[1..], a)) + RemoveChar(y, a);
      }
    }
  }

  lemma UpperConcat(x: string, y: string)
    ensures Upper(x + y) == Upper(x) + Upper(y)
  {
  }

  lemma ReplaceCharConcat(x: string, y: string, a: char, b: char)
    ensures ReplaceChar(x + y, a, b) == ReplaceChar(x, a, b) + ReplaceChar(y, a, b)
  {
  }

  /** Course letters, an optional separator and the digits, without a
      surrounding blank. */
  lemma StripSpelling(raw: string)
    requires |raw| > 0 && IsLetter(raw[0]) && IsDigit(raw[|raw| - 1])
    ensures Strip(raw) == raw
  {
    assert !IsSpace(raw[0]) && !IsSpace(raw[|raw| - 1]);
    TrimStartFixed(raw);
    TrimEndFixed(raw);
  }

  lemma CleanedUnfold(raw: string)
    requires |raw| > 0 && IsLetter(raw[0]) && IsDigit(raw[|raw| - 1])
    ensures Cleaned(raw) == ReplaceChar(RemoveChar(Upper(raw), ' '), '_', '-')
  {
    StripSpelling(raw);
  }

  lemma UpperSpelling(a: string, sep: string, d: string)
    requires Digits(d)
    requires sep == "" || sep == " " || sep == "_" || sep == "-"
    ensures Upper(a + sep + d) == Upper(a) + sep + d
  {
    UpperConcat(a + sep, d);
    UpperConcat(a, sep);
    assert Upper(d) == d && Upper(sep) == sep;
  }

  /** The cleaned text of letters, a separator and digits. */
  lemma CleanedSpelling(a: string, sep: string, d: string)
    requires |a| > 0 && |d| > 0 && Letters(a) && Digits(d)
    requires sep == "" || sep == " " || sep == "_" || sep == "-"
    ensures Cleaned(a + sep + d) == Upper(a) + (if sep == "_" || sep == "-" then "-" else "") + d
  {
    if sep == "" || sep == " " {
      CleanedCompact(a, sep, d);
    } else {
      CleanedJoined(a, sep, d);
    }
  }

  lemma CleanedCompact(a: string, sep: string, d: string)
    requires |a| > 0 && |d| > 0 && Letters(a) && Digits(d)
    requires sep == "" || sep == " "
    ensures Cleaned(a + sep + d) == Upper(a) + d
  {
    var A := CleanedUpper(a, sep, d);
    assert RemoveChar(A + sep + d, ' ') == A + d by {
      SpellingRemove(A, sep, d);
      EmptyMiddle(A, d);
    }
    ReplaceCharAbsentIn(A, d);
    assert Cleaned(a + sep + d) == ReplaceChar(A + d, '_', '-');
  }

  lemma EmptyMiddle(A: string, d: string)
    ensures A + "" + d == A + d
  {
  }

  lemma ReplaceCharAbsentIn(A: string, d: string)
    requires Letters(A) && Digits(d)
    ensures ReplaceChar(A + d, '_', '-') == A + d
  {
    LettersAvoid(A, '_');
    DigitsAvoid(d, '_');
    assert '_' !in A + d;
    ReplaceCharAbsent(A + d, '_', '-');
  }

  lemma CleanedJoined(a: string, sep: string, d: string)
    requires |a| > 0 && |d| > 0 && Letters(a) && Digits(d)
    requires sep == "_" || sep == "-"
    ensures Cleaned(a + sep + d) == Upper(a) + "-" + d
  {
    var A := CleanedUpper(a, sep, d);
    SpellingRemove(A, sep, d);
    SpellingReplace(A, sep, d);
  }

  /** The first steps of the clean-up: strip, then upper-case. */
  lemma CleanedUpper(a: string, sep: string, d: string) returns (A: string)
    requires |a| > 0 && |d| > 0 && Letters(a) && Digits(d)
    requires sep == "" || sep == " " || sep == "_" || sep == "-"
    ensures A == Upper(a) && Letters(A)
    ensures Cleaned(a + sep + d) == ReplaceChar(RemoveChar(A + sep + d, ' '), '_', '-')
  {
    var raw := a + sep + d;
    assert raw[0] == a[0] && raw[|raw| - 1] == d[|d| - 1];
    assert IsLetter(raw[0]) && IsDigit(raw[|raw| - 1]);
    CleanedUnfold(raw);
    UpperSpelling(a, sep, d);
    A := Upper(a);
    UpperLettersAll(a);
  }

  lemma UpperLettersAll(a: string)
    requires Letters(a)
    ensures Letters(Upper(a))
  {
    var A := Upper(a);
    forall i | 0 <= i < |A| ensures IsLetter(A[i]) {
      assert IsLetter(a[i]) && A[i] == UpperChar(a[i]);
    }
  }

  lemma {:induction false} SpellingRemove(A: string, sep: string, d: string)
    requires Letters(A) && Digits(d)
    requires sep == "" || sep == " " || sep == "_" || sep == "-"
    ensures RemoveChar(A + sep + d, ' ') == A + (if sep == " " then "" else sep) + d
  {
    LettersAvoid(A, ' ');
    DigitsAvoid(d, ' ');
    RemoveCharConcat(A + sep, d, ' ');
    RemoveCharConcat(A, sep, ' ');
    RemoveCharAbsent(A, ' ');
    RemoveCharAbsent(d, ' ');
    RemoveSeparator(sep);
  }

  lemma RemoveSeparator(sep: string)
    requires sep == "" || sep == " " || sep == "_" || sep == "-"
    ensures RemoveChar(sep, ' ') == if sep == " " then "" else sep
  {
    if sep != "" {
      assert sep[1..] == "";
    }
  }

  lemma {:induction false} SpellingReplace(A: string, sep: string, d: string)
    requires Letters(A) && Digits(d)
    requires sep == "" || sep == "_" || sep == "-"
    ensures ReplaceChar(A + sep + d, '_', '-') == A + (if sep == "_" then "-" else sep) + d
  {
    LettersAvoid(A, '_');
    DigitsAvoid(d, '_');
    ReplaceCharConcat(A + sep, d, '_', '-');
    ReplaceCharConcat(A, sep, '_', '-');
    ReplaceCharAbsent(A, '_', '-');
    ReplaceCharAbsent(d, '_', '-');
  }

  lemma LettersAvoid(A: string, c: char)
    requires Letters(A) && !IsLetter(c)
    ensures c !in A
  {
    forall i | 0 <= i < |A| ensures A[i] != c {
      assert IsLetter(A[i]);
    }
  }

  lemma DigitsAvoid(d: string, c: char)
    requires Digits(d) && !IsDigit(c)
    ensures c !in d
  {
    forall i | 0 <= i < |d| ensures d[i] != c {
      assert IsDigit(d[i]);
    }
  }

  lemma NormalizeSevenForm(raw: string)
    requires raw != "" && SevenForm(Cleaned(raw))
    ensures NormalizeCourseCode(raw) == InsertHyphen(Cleaned(raw))
  {
  }

  lemma NormalizeEightForm(raw: string)
    requires raw != "" && !SevenForm(Cleaned(raw)) && EightForm(Cleaned(raw))
    ensures NormalizeCourseCode(raw) == Cleaned(raw)
  {
  }

  lemma NormalizeOtherForm(raw: string)
    requires raw != "" && !SevenForm(Cleaned(raw)) && !EightForm(Cleaned(raw))
    ensures NormalizeCourseCode(raw) == Recover(CollapseHyphens(Cleaned(raw)))
  {
  }

  lemma SevenFormOf(a: string, d: string)
    requires |a| == 3 && |d| == 4 && Letters(a) && Digits(d)
    ensures SevenForm(Upper(a) + d) && InsertHyphen(Upper(a) + d) == Upper(a) + "-" + d
  {
    UpperNoLower(a);
    assert (Upper(a) + d)[..3] == Upper(a) && (Upper(a) + d)[3..] == d;
  }

  lemma EightFormOf(a: string, d: string)
    requires |a| == 3 && |d| == 4 && Letters(a) && Digits(d)
    ensures !SevenForm(Upper(a) + "-" + d) && EightForm(Upper(a) + "-" + d)
  {
    var A := Upper(a);
    assert Letters(A);
    assert (A + "-" + d)[..3] == A && (A + "-" + d)[4..] == d;
  }

  lemma CompactNormalizes(raw: string, a: string, d: string)
    requires |a| == 3 && |d| == 4 && Letters(a) && Digits(d)
    requires raw != "" && Cleaned(raw) == Upper(a) + d
    ensures NormalizeCourseCode(raw) == Upper(a) + "-" + d
  {
    SevenFormOf(a, d);
    NormalizeSevenForm(raw);
  }

  lemma HyphenatedNormalizes(raw: string, a: string, d: string)
    requires |a| == 3 && |d| == 4 && Letters(a) && Digits(d)
    requires raw != "" && Cleaned(raw) == Upper(a) + "-" + d
    ensures NormalizeCourseCode(raw) == Upper(a) + "-" + d
  {
    EightFormOf(a, d);
    NormalizeEightForm(raw);
  }

  /** The accepted spellings "cse1202", "cse 1202", "cse_1202" and
      "cse-1202" (any letter case) all give "CSE-1202". */
  lemma NormalizeCourseCodeSpellings(a: string, sep: string, d: string)
    requires |a| == 3 && |d| == 4 && Letters(a) && Digits(d)
    requires sep == "" || sep == " " || sep == "_" || sep == "-"
    ensures NormalizeCourseCode(a + sep + d) == Upper(a) + "-" + d
  {
    if sep == "" || sep == " " {
      CompactSpelling(a, sep, d);
    } else {
      JoinedSpelling(a, sep, d);
    }
  }

  lemma CompactSpelling(a: string, sep: string, d: string)
    requires |a| == 3 && |d| == 4 && Letters(a) && Digits(d)
    requires sep == "" || sep == " "
    ensures NormalizeCourseCode(a + sep + d) == Upper(a) + "-" + d
  {
    var raw := a + sep + d;
    assert |raw| >= 7;
    CleanedSpelling(a, sep, d);
    EmptyMiddle(Upper(a), d);
    assert Cleaned(raw) == Upper(a) + d;
    CompactNormalizes(raw, a, d);
  }

  lemma JoinedSpelling(a: string, sep: string, d: string)
    requires |a| == 3 && |d| == 4 && Letters(a) && Digits(d)
    requires sep == "_" || sep == "-"
    ensures NormalizeCourseCode(a + sep + d) == Upper(a) + "-" + d
  {
    var raw := a + sep + d;
    assert |raw| == 8;
    CleanedSpelling(a, sep, d);
    assert Cleaned(raw) == Upper(a) + "-" + d;
    HyphenatedNormalizes(raw, a, d);
  }

  lemma {:induction false} CollapseHyphensNoDouble(s: string)
    requires forall i :: 0 <= i < |s| - 1 ==> !(s[i] == '-' && s[i + 1] == '-')
    ensures CollapseHyphens(s) == s
  {
    if |s| > 0 {
      CollapseHyphensNoDouble(s[1..]);
    }
  }

  lemma {:induction false} SplitAtOnlySeparator(x: string, y: string)
    requires '-' !in x && '-' !in y
    ensures Split(x + "-" + y, '-') == [x, y]
  {
    if |x| == 0 {
      assert x + "-" + y == "-" + y;
      assert ("-" + y)[1..] == y;
      SplitNoSeparator(y);
    } else {
      SplitAtOnlySeparator(x[1..], y);
      assert (x + "-" + y)[1..] == x[1..] + "-" + y;
      assert x == [x[0]] + x[1..];
    }
  }

  lemma {:induction false} SplitNoSeparator(y: string)
    requires '-' !in y
    ensures Split(y, '-') == [y]
  {
    if |y| > 0 {
      assert '-' !in y[1..];
      SplitNoSeparator(y[1..]);
      assert y == [y[0]] + y[1..];
    }
  }

  lemma OneHyphenNoDouble(A: string, d: string)
    requires '-' !in A && '-' !in d
    ensures CollapseHyphens(A + "-" + d) == A + "-" + d
  {
    var s := A + "-" + d;
    forall i | 0 <= i < |s| - 1 ensures !(s[i] == '-' && s[i + 1] == '-') {
      if i < |A| { assert s[i] == A[i]; }
      else if i == |A| { assert s[i + 1] == d[0]; }
      else { assert s[i] == d[i - |A| - 1]; }
    }
    CollapseHyphensNoDouble(s);
  }

  lemma RecoverTwoParts(A: string, d: string)
    requires |A| >= 4 && |d| >= 5 && Letters(A) && NoLower(A) && Digits(d)
    ensures Recover(A + "-" + d) == A[..3] + "-" + d[..4]
  {
    var t := A + "-" + d;
    assert '-' !in A && '-' !in d;
    SplitAtOnlySeparator(A, d);
    assert t[..3] == A[..3];
    assert IsAlphaStr(A) && IsDigitStr(d) && '-' in t;
  }

  /** The recovery branch keeps only the first three letters and the first
      four digits: "CSEE-12345" becomes "CSE-1234". */
  lemma NormalizeCourseCodeTruncates(a: string, d: string)
    requires |a| >= 4 && |d| >= 5 && Letters(a) && Digits(d)
    ensures NormalizeCourseCode(a + "-" + d) == Upper(a[..3]) + "-" + d[..4]
  {
    CleanedHyphenated(a, d);
    UpperLetters(a);
    LongHyphenatedNormalizes(a + "-" + d, Upper(a), d);
  }

  lemma CleanedHyphenated(a: string, d: string)
    requires |a| > 0 && |d| > 0 && Letters(a) && Digits(d)
    ensures Cleaned(a + "-" + d) == Upper(a) + "-" + d
  {
    CleanedSpelling(a, "-", d);
  }

  lemma UpperLetters(a: string)
    requires |a| >= 3 && Letters(a)
    ensures Letters(Upper(a)) && NoLower(Upper(a)) && Upper(a)[..3] == Upper(a[..3])
  {
    UpperNoLower(a);
  }

  lemma LongHyphenatedNormalizes(raw: string, A: string, d: string)
    requires |A| >= 4 && |d| >= 5 && Letters(A) && NoLower(A) && Digits(d)
    requires raw != "" && Cleaned(raw) == A + "-" + d
    ensures NormalizeCourseCode(raw) == A[..3] + "-" + d[..4]
  {
    assert '-' !in A && '-' !in d;
    NormalizeOtherForm(raw);
    OneHyphenNoDouble(A, d);
    RecoverTwoParts(A, d);
  }

  /** `_course_code_key`: upper-cased alphanumerics only. */
  function CourseCodeKey(code: string): (r: string)
    ensures forall i :: 0 <= i < |r| ==> IsAlnum(r[i]) && !IsLower(r[i])
  {
    var u := Upper(code);
    UpperNoLower(code);
    AlnumOnlySubset(u);
    AlnumOnly(u)
  }

  lemma AlnumOnlySubset(s: string)
    ensures forall c :: c in AlnumOnly(s) ==> c in s
  {
    if |s| > 0 {
      AlnumOnlySubset(s[1..]);
      assert forall c :: c in s[1..] ==> c in s;
    }
  }

  /** Codes that differ only in letter case get the same key. */
  lemma {:induction false} CourseCodeKeyIgnoresCase(s: string)
    ensures CourseCodeKey(Lower(s)) == CourseCodeKey(s)
  {
    if |s| > 0 {
      CourseCodeKeyIgnoresCase(s[1..]);
      assert Lower(s)[1..] == Lower(s[1..]);
      assert Upper(Lower(s))[1..] == Upper(Lower(s[1..]));
      assert Upper(s)[1..] == Upper(s[1..]);
    }
  }

  /** Codes that differ only in separators (any non-alphanumeric character)
      get the same key. */
  lemma {:induction false} CourseCodeKeyIgnoresSeparator(a: string, sep: char, b: string)
    requires !IsAlnum(sep)
    ensures CourseCodeKey(a + [sep] + b) == CourseCodeKey(a + b)
  {
    if |a| == 0 {
      assert (a + [sep] + b)[1..] == b;
      assert Upper(a + [sep] + b)[1..] == Upper(b);
      assert a + b == b;
    } else {
      CourseCodeKeyIgnoresSeparator(a[1..], sep, b);
      assert (a + [sep] + b)[1..] == a[1..] + [sep] + b;
      assert (a + b)[1..] == a[1..] + b;
      assert Upper(a + [sep] + b)[1..] == Upper(a[1..] + [sep] + b);
      assert Upper(a + b)[1..] == Upper(a[1..] + b);
    }
  }

  /** `_normalize_roll`: the digits of the roll, in order. */
  function NormalizeRoll(roll: string): (r: string)
    ensures forall i :: 0 <= i < |r| ==> IsDigit(r[i])
    ensures forall c :: c in r <==> c in roll && IsDigit(c)
  {
    DigitsOnlyMembers(roll);
    DigitsOnly(roll)
  }

  lemma DigitsOnlyMembers(s: string)
    ensures forall c :: c in DigitsOnly(s) <==> c in s && IsDigit(c)
  {
    if |s| > 0 {
      DigitsOnlyMembers(s[1..]);
      assert s == [s[0]] + s[1..];
    }
  }

  /** A roll that is already all digits is kept as it is. */
  lemma {:induction false} NormalizeRollOfDigits(roll: string)
    requires forall i :: 0 <= i < |roll| ==> IsDigit(roll[i])
    ensures NormalizeRoll(roll) == roll
  {
    if |roll| > 0 {
      NormalizeRollOfDigits(roll[1..]);
    }
  }

  // ---------------------------------------------------------------------
  // `_extract_json`

  const AskQuestion := "Please provide course code and CT number (e.g., CSE-1202 CT-2)."

  /** The object substituted when the reply holds no braces at all. */
  const AskFallback := RawFields(Some("ask"), None, None, Some(AskQuestion), Some(["course_code", "ct_no"]), None)

  /** The fields still missing after normalisation, in this order. */
  function MissingAfterNormalize(code: string, ctNo: Option<int>): (m: seq<string>)
    ensures ("course_code" in m) <==> code == ""
    ensures ("ct_no" in m) <==> ctNo.None?
    ensures |m| == 2 ==> m == ["course_code", "ct_no"]
  {
    (if code == "" then ["course_code"] else []) + (if ctNo.None? then ["ct_no"] else [])
  }

  /** The server-side rule applied once the reply has been validated. */
  function AfterParse(e: Extracted): (r: Extracted)
    ensures e.mode != ModeOk ==> r == e
    ensures r.mode == ModeOk ==> IsCanonicalCode(r.courseCode) && r.ctNo.Some?
    ensures r.mode == ModeOk <==> e.mode == ModeOk && NormalizeCourseCode(e.courseCode) != "" && e.ctNo.Some?
    ensures e.mode == ModeOk && r.mode == ModeOk ==>
      r == e.(courseCode := NormalizeCourseCode(e.courseCode))
    ensures e.mode == ModeOk && r.mode != ModeOk ==>
      r.mode == ModeAsk && r.question == Some(AskQuestion) && r.courseCode == "" && r.ctNo.None?
      && r.message.None? && r.missingFields == MissingAfterNormalize(NormalizeCourseCode(e.courseCode), e.ctNo)
  {
    if e.mode != ModeOk then e
    else
      var code := NormalizeCourseCode(e.courseCode);
      var missing := MissingAfterNormalize(code, e.ctNo);
      if |missing| > 0 then Extracted(ModeAsk, "", None, Some(AskQuestion), missing, None)
      else e.(courseCode := code)
  }

  /** `_extract_json` after the LLM call. `decode` is `json.loads` of an
      object (None when the text does not parse). A reply that does not parse
      is retried on the text from the first "{" to the last "}"; with no
      braces, the fixed ask object is used. A retry that fails, or a record
      that fails validation, is an exception. */
  function ExtractJson(reply: string, decode: string -> Option<RawFields>): (r: Result<Extracted>)
    ensures r.Ok? && r.value.mode == ModeOk ==> IsCanonicalCode(r.value.courseCode) && r.value.ctNo.Some?
    ensures decode(reply).None? && ('{' !in reply || '}' !in reply) ==>
      r == Ok(Extracted(ModeAsk, "", None, Some(AskQuestion), ["course_code", "ct_no"], None))
  {
    var data: Result<RawFields> :=
      if decode(reply).Some? then Ok(decode(reply).value)
      else
        var start := Find(reply, '{');
        var end := RFind(reply, '}');
        if start != -1 && end != -1 then
          var inner := if start <= end then reply[start..end + 1] else "";
          if decode(inner).Some? then Ok(decode(inner).value)
          else Err(ValueError("reply is not valid JSON"))
        else Ok(AskFallback);
    match data
    case Err(err) => Err(err)
    case Ok(fields) =>
      match Validate(fields)
      case Err(err) => Err(err)
      case Ok(e) => Ok(AfterParse(e))
  }

  // ---------------------------------------------------------------------
  // `run_check_marks_pipeline`

  datatype TeacherRow = TeacherRow(id: string, fullName: Option<string>, name: Option<string>)

  /** The DB context handed to the answering LLM, and nothing else. */
  datatype DbContext = DbContext(courseCode: string, courseName: string, ctNo: int, marks: string, teacherName: string)

  /** A sheet in the student's dept and series for the course and CT. */
  predicate InScope(s: Sheet, dept: Option<string>, series: string, key: string, ct: int)
  {
    dept == Some(s.dept) && s.series == series && CourseCodeKey(s.courseCode) == key && s.ctNo == Some(ct)
  }

  /** The newest in-scope sheet of the student's own section. */
  function NewestInSection(sheets: seq<Sheet>, dept: Option<string>, section: string, series: string,
                           key: string, ct: int): (r: Option<Sheet>)
    ensures r.Some? ==> r.value in sheets && InScope(r.value, dept, series, key, ct) && r.value.section == section
    ensures r.None? <==> forall s :: s in sheets ==> !(InScope(s, dept, series, key, ct) && s.section == section)
  {
    if |sheets| == 0 then None
    else if InScope(sheets[0], dept, series, key, ct) && sheets[0].section == section then Some(sheets[0])
    else NewestInSection(sheets[1..], dept, section, series, key, ct)
  }

  /** The first in-scope sheet, in newest-first order, that holds an entry
      for the roll, with that entry. */
  function FirstWithEntry(sheets: seq<Sheet>, entries: seq<Entry>, dept: Option<string>, series: string,
                          key: string, ct: int, roll: string): Option<(Sheet, Entry)>
  {
    if |sheets| == 0 then None
    else if InScope(sheets[0], dept, series, key, ct) && FindEntry(entries, sheets[0].id, roll).Some? then
      Some((sheets[0], FindEntry(entries, sheets[0].id, roll).value))
    else FirstWithEntry(sheets[1..], entries, dept, series, key, ct, roll)
  }

  /** No in-scope sheet among the first `k` holds an entry for the roll. */
  predicate NoEntryBefore(sheets: seq<Sheet>, entries: seq<Entry>, dept: Option<string>, series: string,
                          key: string, ct: int, roll: string, k: nat)
    requires k <= |sheets|
  {
    forall j :: 0 <= j < k && InScope(sheets[j], dept, series, key, ct) ==> FindEntry(entries, sheets[j].id, roll).None?
  }

  /** Prepending a sheet without an in-scope entry extends the prefix by one. */
  lemma NoEntryShift(sheets: seq<Sheet>, entries: seq<Entry>, dept: Option<string>, series: string,
                     key: string, ct: int, roll: string, k: nat)
    requires 0 < |sheets| && k < |sheets|
    requires !(InScope(sheets[0], dept, series, key, ct) && FindEntry(entries, sheets[0].id, roll).Some?)
    requires NoEntryBefore(sheets[1..], entries, dept, series, key, ct, roll, k)
    ensures NoEntryBefore(sheets, entries, dept, series, key, ct, roll, k + 1)
  {
    forall j | 0 <= j < k + 1 && InScope(sheets[j], dept, series, key, ct)
      ensures FindEntry(entries, sheets[j].id, roll).None?
    {
      if j > 0 { assert sheets[j] == sheets[1..][j - 1]; }
    }
  }

  /** The position of the pick among the candidates. */
  lemma {:induction false} FirstWithEntryAt(sheets: seq<Sheet>, entries: seq<Entry>, dept: Option<string>,
                                            series: string, key: string, ct: int, roll: string) returns (k: nat)
    ensures var p := FirstWithEntry(sheets, entries, dept, series, key, ct, roll);
      (p.Some? ==> k < |sheets| && sheets[k] == p.value.0 && InScope(p.value.0, dept, series, key, ct)
                   && FindEntry(entries, p.value.0.id, roll) == Some(p.value.1)
                   && NoEntryBefore(sheets, entries, dept, series, key, ct, roll, k))
      && (p.None? ==> NoEntryBefore(sheets, entries, dept, series, key, ct, roll, |sheets|))
  {
    k := 0;
    if |sheets| > 0 && !(InScope(sheets[0], dept, series, key, ct) && FindEntry(entries, sheets[0].id, roll).Some?) {
      var k' := FirstWithEntryAt(sheets[1..], entries, dept, series, key, ct, roll);
      var p := FirstWithEntry(sheets[1..], entries, dept, series, key, ct, roll);
      if p.Some? {
        k := k' + 1;
        NoEntryShift(sheets, entries, dept, series, key, ct, roll, k');
      } else {
        NoEntryShift(sheets, entries, dept, series, key, ct, roll, |sheets| - 1);
      }
    }
  }

  /** The pick is in scope, holds the roll's entry, and no earlier in-scope
      sheet holds one; no pick means no in-scope sheet holds one. */
  lemma FirstWithEntryIsFirst(sheets: seq<Sheet>, entries: seq<Entry>, dept: Option<string>,
                              series: string, key: string, ct: int, roll: string)
    ensures var p := FirstWithEntry(sheets, entries, dept, series, key, ct, roll);
      (p.Some? ==> exists k :: 0 <= k < |sheets| && sheets[k] == p.value.0
                    && InScope(p.value.0, dept, series, key, ct)
                    && p.value.1 in entries && p.value.1.sheetId == p.value.0.id && p.value.1.rollNo == roll
                    && forall j :: 0 <= j < k && InScope(sheets[j], dept, series, key, ct) ==>
                         FindEntry(entries, sheets[j].id, roll).None?)
      && (p.None? <==> forall j :: 0 <= j < |sheets| && InScope(sheets[j], dept, series, key, ct) ==>
                         FindEntry(entries, sheets[j].id, roll).None?)
  {
    var k := FirstWithEntryAt(sheets, entries, dept, series, key, ct, roll);
    var p := FirstWithEntry(sheets, entries, dept, series, key, ct, roll);
    if p.Some? {
      assert FindEntry(entries, sheets[k].id, roll).Some?;
      assert 0 <= k < |sheets| && sheets[k] == p.value.0;
    }
  }

  /** The loop of the no-section path: scan the candidates newest-first and
      stop at the first one that holds the roll's entry. */
  method ScanCandidates(sheets: seq<Sheet>, entries: seq<Entry>, dept: Option<string>, series: string,
                        key: string, ct: int, roll: string)
    returns (sheet: Option<Sheet>, entry: Option<Entry>)
    ensures sheet.Some? == entry.Some?
    ensures var p := FirstWithEntry(sheets, entries, dept, series, key, ct, roll);
      if p.None? then sheet.None? && entry.None? else sheet == Some(p.value.0) && entry == Some(p.value.1)
  {
    sheet, entry := None, None;
    var i := 0;
    while i < |sheets|
      invariant 0 <= i <= |sheets|
      invariant sheet.None? && entry.None?
      invariant FirstWithEntry(sheets, entries, dept, series, key, ct, roll)
             == FirstWithEntry(sheets[i..], entries, dept, series, key, ct, roll)
    {
      var s := sheets[i];
      if InScope(s, dept, series, key, ct) {
        var e := FindEntry(entries, s.id, roll);
        if e.Some? {
          sheet, entry := Some(s), e;
          return;
        }
      }
      assert sheets[i..][1..] == sheets[i + 1..];
      i := i + 1;
    }
  }

  const WrongToolDefault := "This is not a marks request. Please use the correct tool."
  const AskDefault := "Please provide course code and CT number."
  const RollNotSet := "Your roll number is not set in your profile. Please update your profile roll number."

  function NoSheetReply(code: string, ct: int): string
  {
    "No result sheet found for " + code + " CT-" + IntToString(ct) + " in your series."
  }

  function NotAvailableReply(code: string, ct: int): string
  {
    "Your marks for " + code + " CT-" + IntToString(ct) + " are not available yet (or not published for your roll)."
  }

  /** The uploading teacher's name, or "Unknown". */
  function TeacherName(sheet: Sheet, teachers: seq<TeacherRow>): string
  {
    if sheet.createdByTeacherId.None? || sheet.createdByTeacherId.value == "" then "Unknown"
    else
      var t := FindTeacher(teachers, sheet.createdByTeacherId.value);
      if t.None? then "Unknown"
      else
        var n := OrElse(t.value.fullName, t.value.name);
        if Truthy(n) then n.value else "Unknown"
  }

  function FindTeacher(teachers: seq<TeacherRow>, id: string): Option<TeacherRow>
  {
    if |teachers| == 0 then None else if teachers[0].id == id then Some(teachers[0]) else FindTeacher(teachers[1..], id)
  }

  /** The sheet and entry the pipeline settles on: with a section, the newest
      sheet of that section and its entry; without one, the first candidate
      that holds the roll. */
  function Select(sheets: seq<Sheet>, entries: seq<Entry>, st: StudentProfile, key: string, ct: int, roll: string)
    : (r: (Option<Sheet>, Option<Entry>))
    ensures r.0.Some? ==> r.0.value in sheets && InScope(r.0.value, st.dept, st.SeriesText(), key, ct)
    ensures r.1.Some? ==> r.0.Some? && r.1.value in entries && r.1.value.sheetId == r.0.value.id && r.1.value.rollNo == roll
    ensures Truthy(st.Section()) && r.0.Some? ==> r.0.value.section == st.Section().value
    ensures Truthy(st.Section()) && r.0.Some? && r.1.None? ==>
              forall e :: e in entries ==> !(e.sheetId == r.0.value.id && e.rollNo == roll)
  {
    var section := st.Section();
    var series := st.SeriesText();
    if Truthy(section) then
      var sheet := NewestInSection(sheets, st.dept, section.value, series, key, ct);
      (sheet, if sheet.Some? then FindEntry(entries, sheet.value.id, roll) else None)
    else
      var p := FirstWithEntry(sheets, entries, st.dept, series, key, ct, roll);
      FirstWithEntryIsFirst(sheets, entries, st.dept, series, key, ct, roll);
      if p.None? then (None, None) else (Some(p.value.0), Some(p.value.1))
  }

  /** `sheet.course_name or "Unknown"`. */
  function CourseNameOr(name: string): (r: string)
    ensures r != "" && (name != "" ==> r == name)
  {
    if name == "" then "Unknown" else name
  }

  /** `r` is the grounded answer for the student's own entry in an in-scope
      sheet: the DB context carries that sheet's course name (or "Unknown")
      and uploader and that entry's marks. */
  ghost predicate AnsweredFromEntry(r: string, ex: Extracted, st: StudentProfile, sheets: seq<Sheet>, entries: seq<Entry>,
                                    teachers: seq<TeacherRow>, answer: DbContext -> string)
    requires ex.ctNo.Some?
  {
    exists s, e :: s in sheets && e in entries
      && InScope(s, st.dept, st.SeriesText(), CourseCodeKey(ex.courseCode), ex.ctNo.value)
      && e.sheetId == s.id && e.rollNo == NormalizeRoll(st.RollText())
      && r == Strip(answer(DbContext(ex.courseCode, CourseNameOr(s.courseName), ex.ctNo.value, e.marks,
                                     TeacherName(s, teachers))))
  }

  /** `run_check_marks_pipeline` once the extraction is known. `sheets` is the
      `result_sheets` table in newest-first order; `answer` is the grounded
      LLM answer, which sees only the DB context. */
  function Reply(ex: Extracted, st: StudentProfile, sheets: seq<Sheet>, entries: seq<Entry>,
                 teachers: seq<TeacherRow>, answer: DbContext -> string): (r: string)
    requires ex.mode == ModeOk ==> ex.ctNo.Some?
    ensures ex.mode == ModeOk ==>
              r == RollNotSet || r == NoSheetReply(ex.courseCode, ex.ctNo.value)
              || r == NotAvailableReply(ex.courseCode, ex.ctNo.value)
              || AnsweredFromEntry(r, ex, st, sheets, entries, teachers, answer)
  {
    if ex.mode == ModeWrongTool then (if Truthy(ex.message) then ex.message.value else WrongToolDefault)
    else if ex.mode == ModeAsk then (if Truthy(ex.question) then ex.question.value else AskDefault)
    else
      var roll := NormalizeRoll(st.RollText());
      if roll == "" then RollNotSet
      else
        var ct := ex.ctNo.value;
        var sel := Select(sheets, entries, st, CourseCodeKey(ex.courseCode), ct, roll);
        if sel.0.None? then NoSheetReply(ex.courseCode, ct)
        else if sel.1.None? then NotAvailableReply(ex.courseCode, ct)
        else
          Strip(answer(DbContext(ex.courseCode, CourseNameOr(sel.0.value.courseName), ct, sel.1.value.marks,
                                 TeacherName(sel.0.value, teachers))))
  }

  /** "wrong_tool" and "ask" are answered from the extraction alone, before
      the profile or any table is read. */
  lemma ReplyWithoutLookup(ex: Extracted, st1: StudentProfile, st2: StudentProfile, sheets1: seq<Sheet>, sheets2: seq<Sheet>,
                           entries1: seq<Entry>, entries2: seq<Entry>, teachers: seq<TeacherRow>,
                           answer: DbContext -> string)
    requires ex.mode != ModeOk
    ensures Reply(ex, st1, sheets1, entries1, teachers, answer) == Reply(ex, st2, sheets2, entries2, teachers, answer)
    ensures ex.mode == ModeWrongTool ==>
              Reply(ex, st1, sheets1, entries1, teachers, answer)
              == (if Truthy(ex.message) then ex.message.value else WrongToolDefault)
    ensures ex.mode == ModeAsk ==>
              Reply(ex, st1, sheets1, entries1, teachers, answer)
              == (if Truthy(ex.question) then ex.question.value else AskDefault)
  {
  }

  /** A profile roll without digits is reported before any sheet is read. */
  lemma RollCheckedFirst(ex: Extracted, st: StudentProfile, sheets: seq<Sheet>, entries: seq<Entry>,
                         teachers: seq<TeacherRow>, answer: DbContext -> string)
    requires ex.mode == ModeOk && ex.ctNo.Some?
    requires forall c :: c in st.RollText() ==> !IsDigit(c)
    ensures Reply(ex, st, sheets, entries, teachers, answer) == RollNotSet
  {
    DigitsOnlyOfNoDigits(st.RollText());
  }

  lemma {:induction false} DigitsOnlyOfNoDigits(s: string)
    requires forall c :: c in s ==> !IsDigit(c)
    ensures DigitsOnly(s) == ""
  {
    if |s| > 0 {
      assert s[0] in s;
      assert forall c :: c in s[1..] ==> c in s;
      DigitsOnlyOfNoDigits(s[1..]);
    }
  }

  /** With a profile section on a newest-first table, the chosen sheet is at
      least as new as every sheet of that section in scope. */
  lemma {:induction false} NewestInSectionIsNewest(sheets: seq<Sheet>, dept: Option<string>, section: string,
                                                   series: string, key: string, ct: int)
    requires NewestFirst(sheets)
    ensures var r := NewestInSection(sheets, dept, section, series, key, ct);
      r.Some? ==> forall s :: s in sheets && InScope(s, dept, series, key, ct) && s.section == section ==>
                    r.value.createdAt >= s.createdAt
  {
    if |sheets| > 0 {
      assert NewestFirst(sheets[1..]);
      NewestInSectionIsNewest(sheets[1..], dept, section, series, key, ct);
      var r := NewestInSection(sheets, dept, section, series, key, ct);
      if r.Some? {
        forall s | s in sheets && InScope(s, dept, series, key, ct) && s.section == section
          ensures r.value.createdAt >= s.createdAt
        {
          var k :| 0 <= k < |sheets| && sheets[k] == s;
          if k > 0 { assert s in sheets[1..]; }
        }
      }
    }
  }

  /** When the profile has no section, a sheet is chosen only together with
      the roll's entry, so "not available yet" is never the reply on that
      path; a missing entry reads "No result sheet found". */
  lemma NoSectionSheetHasEntry(sheets: seq<Sheet>, entries: seq<Entry>, st: StudentProfile, key: string, ct: int, roll: string)
    requires !Truthy(st.Section())
    ensures var sel := Select(sheets, entries, st, key, ct, roll);
      sel.0.Some? <==> sel.1.Some?
  {
  }
}
