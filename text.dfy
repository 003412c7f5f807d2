/** String helpers mirroring the Python `str` methods the backend uses.
    Whitespace is Python's full set; letters, digits and case mapping are
    ASCII (see README, "Left out"). */
module Text {

  import opened Common

  /** `str.isspace()` on one character, the set `strip()` and `split()`
      use: the ASCII blanks and separators \t..\r and \x1c..\x1f, and the
      Unicode spaces and line separators. */
  predicate IsSpace(c: char)
  {
    c == ' ' || '\t' <= c <= '\r' || '\U{001C}' <= c <= '\U{001F}' || c == '\U{0085}' || c == '\U{00A0}'
    || c == '\U{1680}' || '\U{2000}' <= c <= '\U{200A}' || c == '\U{2028}' || c == '\U{2029}'
    || c == '\U{202F}' || c == '\U{205F}' || c == '\U{3000}'
  }

  predicate IsDigit(c: char) { '0' <= c <= '9' }

  predicate IsLetter(c: char) { 'A' <= c <= 'Z' || 'a' <= c <= 'z' }

  predicate IsAlnum(c: char) { IsLetter(c) || IsDigit(c) }

  /** The characters `[A-Za-z0-9_-]` that file names keep. */
  predicate IsSafeChar(c: char)
  {
    IsAlnum(c) || c == '_' || c == '-'
  }

  function UpperChar(c: char): char
  {
    if 'a' <= c <= 'z' then (c as int - 32) as char else c
  }

  function LowerChar(c: char): char
  {
    if 'A' <= c <= 'Z' then (c as int + 32) as char else c
  }

  /** `s.upper()` */
  function Upper(s: string): (r: string)
    ensures |r| == |s|
    ensures forall i :: 0 <= i < |s| ==> r[i] == UpperChar(s[i])
  {
    seq(|s|, i requires 0 <= i < |s| => UpperChar(s[i]))
  }

  /** `s.lower()` */
  function Lower(s: string): (r: string)
    ensures |r| == |s|
    ensures forall i :: 0 <= i < |s| ==> r[i] == LowerChar(s[i])
  {
    seq(|s|, i requires 0 <= i < |s| => LowerChar(s[i]))
  }

  /** `s.isalpha()`: non-empty and letters only. */
  predicate IsAlphaStr(s: string)
  {
    |s| > 0 && forall i :: 0 <= i < |s| ==> IsLetter(s[i])
  }

  /** `s.isdigit()`: non-empty and digits only. */
  predicate IsDigitStr(s: string)
  {
    |s| > 0 && forall i :: 0 <= i < |s| ==> IsDigit(s[i])
  }

  function TrimStart(s: string): (r: string)
    ensures |r| <= |s| && r == s[|s| - |r|..]
    ensures r == [] || !IsSpace(r[0])
  {
    if |s| > 0 && IsSpace(s[0]) then TrimStart(s[1..]) else s
  }

  /** `s.rstrip()` */
  function TrimEnd(s: string): (r: string)
    ensures |r| <= |s| && r == s[..|r|]
    ensures r == [] || !IsSpace(r[|r| - 1])
  {
    if |s| > 0 && IsSpace(s[|s| - 1]) then TrimEnd(s[..|s| - 1]) else s
  }

  /** `s.strip()` */
  function Strip(s: string): (r: string)
    ensures |r| <= |s|
    ensures r == [] || (!IsSpace(r[0]) && !IsSpace(r[|r| - 1]))
  {
    TrimEnd(TrimStart(s))
  }

  lemma TrimStartFixed(s: string)
    requires s == [] || !IsSpace(s[0])
    ensures TrimStart(s) == s
  {
  }

  lemma TrimEndFixed(s: string)
    requires s == [] || !IsSpace(s[|s| - 1])
    ensures TrimEnd(s) == s
  {
  }

  lemma StripIdempotent(s: string)
    ensures Strip(Strip(s)) == Strip(s)
  {
    var r := Strip(s);
    TrimStartFixed(r);
    TrimEndFixed(r);
  }

  lemma UpperIdempotent(s: string)
    ensures Upper(Upper(s)) == Upper(s)
  {
  }

  /** `s.replace(a, b)` for single characters. */
  function ReplaceChar(s: string, a: char, b: char): (r: string)
    ensures |r| == |s|
    ensures forall i :: 0 <= i < |s| ==> r[i] == (if s[i] == a then b else s[i])
  {
    seq(|s|, i requires 0 <= i < |s| => if s[i] == a then b else s[i])
  }

  lemma ReplaceCharAbsent(s: string, a: char, b: char)
    requires a !in s
    ensures ReplaceChar(s, a, b) == s
  {
  }

  lemma RemoveCharAbsent(s: string, a: char)
    requires a !in s
    ensures RemoveChar(s, a) == s
  {
    if |s| > 0 {
      RemoveCharAbsent(s[1..], a);
      assert s == [s[0]] + s[1..];
    }
  }

  predicate IsLower(c: char) { 'a' <= c <= 'z' }

  /** No lower-case letter occurs in `s`. */
  predicate NoLower(s: string)
  {
    forall c :: c in s ==> !IsLower(c)
  }

  lemma UpperNoLower(s: string)
    ensures NoLower(Upper(s))
  {
    var u := Upper(s);
    forall c | c in u ensures !IsLower(c) {
      var i :| 0 <= i < |u| && u[i] == c;
    }
  }

  lemma UpperOfNoLower(s: string)
    requires NoLower(s)
    ensures Upper(s) == s
  {
    forall i | 0 <= i < |s| ensures Upper(s)[i] == s[i] {
      assert s[i] in s;
    }
  }

  /** `s.replace(a, "")` for a single character. */
  function RemoveChar(s: string, a: char): (r: string)
    ensures a !in r
    ensures forall c :: c in r <==> c in s && c != a
  {
    if |s| == 0 then "" else (if s[0] == a then "" else [s[0]]) + RemoveChar(s[1..], a)
  }

  /** Characters of `s` satisfying `IsDigit`, in order. */
  function DigitsOnly(s: string): (r: string)
    ensures |r| <= |s|
    ensures forall i :: 0 <= i < |r| ==> IsDigit(r[i])
  {
    if |s| == 0 then "" else (if IsDigit(s[0]) then [s[0]] else "") + DigitsOnly(s[1..])
  }

  /** Characters of `s` satisfying `IsAlnum`, in order. */
  function AlnumOnly(s: string): (r: string)
    ensures |r| <= |s|
    ensures forall i :: 0 <= i < |r| ==> IsAlnum(r[i])
  {
    if |s| == 0 then "" else (if IsAlnum(s[0]) then [s[0]] else "") + AlnumOnly(s[1..])
  }

  /** `s.split(sep)` for a one-character separator: never empty. */
  function Split(s: string, sep: char): (r: seq<string>)
    ensures |r| >= 1
    ensures forall i :: 0 <= i < |r| ==> sep !in r[i]
    ensures forall i, c :: 0 <= i < |r| && c in r[i] ==> c in s
  {
    if |s| == 0 then [""]
    else
      var rest := Split(s[1..], sep);
      assert forall c :: c in s[1..] ==> c in s;
      if s[0] == sep then [""] + rest else [[s[0]] + rest[0]] + rest[1..]
  }

  /** `sep.join(parts)` */
  function Join(parts: seq<string>, sep: string): string
  {
    if |parts| == 0 then ""
    else if |parts| == 1 then parts[0]
    else parts[0] + sep + Join(parts[1..], sep)
  }

  /** A text occurs in itself with anything around it. */
  lemma ContainsInMiddle(pre: string, t: string, post: string)
    ensures ContainsSub(pre + t + post, t)
  {
    var s := pre + t + post;
    assert s[|pre|..|pre| + |t|] == t;
    assert OccursAt(s, t, |pre|);
  }

  /** An occurrence survives adding text around it. */
  lemma ContainsWithin(pre: string, s: string, post: string, t: string)
    requires ContainsSub(s, t)
    ensures ContainsSub(pre + s + post, t)
  {
    var i :| 0 <= i <= |s| - |t| && OccursAt(s, t, i);
    var u := pre + s + post;
    assert u[|pre| + i..|pre| + i + |t|] == s[i..i + |t|];
    assert OccursAt(u, t, |pre| + i);
  }

  /** Every part occurs in the join. */
  lemma {:induction false} JoinContainsPart(parts: seq<string>, sep: string, i: int)
    requires 0 <= i < |parts|
    ensures ContainsSub(Join(parts, sep), parts[i])
    decreases |parts|
  {
    if |parts| == 1 {
      ContainsInMiddle("", parts[0], "");
      assert "" + parts[0] + "" == parts[0];
    } else if i == 0 {
      ContainsInMiddle("", parts[0], sep + Join(parts[1..], sep));
      assert "" + parts[0] + (sep + Join(parts[1..], sep)) == Join(parts, sep);
    } else {
      JoinContainsPart(parts[1..], sep, i - 1);
      ContainsWithin(parts[0] + sep, Join(parts[1..], sep), "", parts[i]);
      assert parts[0] + sep + Join(parts[1..], sep) + "" == Join(parts, sep);
    }
  }

  /** When no character of the separator occurs in `w`, an occurrence of
      `w` in a join lies inside one part: parts free of `w` join to a text
      free of `w`. */
  lemma {:induction false} JoinAvoids(parts: seq<string>, sep: string, w: string)
    requires |sep| > 0 && |w| > 0
    requires forall c :: c in sep ==> c !in w
    requires forall i :: 0 <= i < |parts| ==> !ContainsSub(parts[i], w)
    ensures !ContainsSub(Join(parts, sep), w)
    decreases |parts|
  {
    if |parts| > 1 {
      var p0 := parts[0];
      var rest := Join(parts[1..], sep);
      JoinAvoids(parts[1..], sep, w);
      var s := p0 + sep + rest;
      assert Join(parts, sep) == s;
      forall i | 0 <= i <= |s| - |w| ensures !OccursAt(s, w, i) {
        if i + |w| <= |p0| {
          assert s[i..i + |w|] == p0[i..i + |w|];
          assert !OccursAt(p0, w, i);
        } else if i >= |p0| + |sep| {
          var k := i - |p0| - |sep|;
          assert s[i..i + |w|] == rest[k..k + |w|];
          assert !OccursAt(rest, w, k);
        } else {
          var j := if i < |p0| then |p0| else i;
          var c := sep[j - |p0|];
          assert c in sep && s[j] == c;
          assert w[j - i] in w;
          assert w[j - i] != c;
          assert s[i..i + |w|][j - i] != w[j - i];
        }
      }
    }
  }

  predicate StartsWith(s: string, p: string)
  {
    |p| <= |s| && s[..|p|] == p
  }

  predicate EndsWith(s: string, p: string)
  {
    |p| <= |s| && s[|s| - |p|..] == p
  }

  /** `t in s` for strings. */
  predicate ContainsSub(s: string, t: string)
  {
    exists i | 0 <= i <= |s| - |t| :: OccursAt(s, t, i)
  }

  predicate OccursAt(s: string, t: string, i: int)
  {
    0 <= i <= |s| - |t| && s[i..i + |t|] == t
  }

  /** `s.find(c)`: the first index of `c`, or -1. */
  function Find(s: string, c: char): (r: int)
    ensures -1 <= r < |s|
    ensures r == -1 <==> c !in s
    ensures r >= 0 ==> s[r] == c && c !in s[..r]
  {
    if |s| == 0 then -1
    else if s[0] == c then 0
    else
      var k := Find(s[1..], c);
      assert s[1..][..if k < 0 then 0 else k] == s[1..1 + (if k < 0 then 0 else k)];
      if k == -1 then -1 else k + 1
  }

  /** `s.rfind(c)`: the last index of `c`, or -1. */
  function RFind(s: string, c: char): (r: int)
    ensures -1 <= r < |s|
    ensures r == -1 <==> c !in s
    ensures r >= 0 ==> s[r] == c && c !in s[r + 1..]
  {
    if |s| == 0 then -1
    else if s[|s| - 1] == c then |s| - 1
    else
      var k := RFind(s[..|s| - 1], c);
      RFindStep(s, c, k);
      k
  }

  lemma RFindStep(s: string, c: char, k: int)
    requires |s| > 0 && s[|s| - 1] != c && -1 <= k < |s| - 1
    requires k == -1 <==> c !in s[..|s| - 1]
    requires k >= 0 ==> s[..|s| - 1][k] == c && c !in s[..|s| - 1][k + 1..]
    ensures k == -1 <==> c !in s
    ensures k >= 0 ==> s[k] == c && c !in s[k + 1..]
  {
    if k == -1 {
      NotInInit(s, c);
    } else {
      assert s[k] == s[..|s| - 1][k];
      InAfter(s, c, k);
    }
  }

  lemma NotInInit(s: string, c: char)
    requires |s| > 0 && s[|s| - 1] != c && c !in s[..|s| - 1]
    ensures c !in s
  {
    forall i | 0 <= i < |s| ensures s[i] != c {
      if i < |s| - 1 {
        assert s[i] == s[..|s| - 1][i];
      }
    }
  }

  lemma InAfter(s: string, c: char, k: nat)
    requires k < |s| - 1 && s[|s| - 1] != c && c !in s[..|s| - 1][k + 1..]
    ensures c !in s[k + 1..]
  {
    forall i | k + 1 <= i < |s| ensures s[i] != c {
      if i < |s| - 1 {
        assert s[i] == s[..|s| - 1][k + 1..][i - k - 1];
      }
    }
  }

  lemma {:induction false} FindAt(s: string, c: char, i: nat)
    requires i < |s| && s[i] == c && c !in s[..i]
    ensures Find(s, c) == i
    decreases i
  {
    if i > 0 {
      assert s[..i][0] == s[0];
      assert s[1..][..i - 1] == s[..i][1..];
      FindAt(s[1..], c, i - 1);
    }
  }

  lemma {:induction false} RFindAt(s: string, c: char, i: nat)
    requires i < |s| && s[i] == c && c !in s[i + 1..]
    ensures RFind(s, c) == i
    decreases |s| - i
  {
    if i < |s| - 1 {
      assert s[i + 1..][|s| - i - 2] == s[|s| - 1];
      assert s[..|s| - 1][i + 1..] == s[i + 1..][..|s| - i - 2];
      RFindAt(s[..|s| - 1], c, i);
    }
  }

  function DigitChar(d: nat): char
    requires d < 10
  {
    ('0' as int + d) as char
  }

  /** `str(n)` for a natural number. */
  function NatToString(n: nat): (r: string)
    ensures |r| >= 1
    ensures IsDigitStr(r)
    decreases n
  {
    if n < 10 then [DigitChar(n)] else NatToString(n / 10) + [DigitChar(n % 10)]
  }

  /** `str(i)` for an integer. */
  function IntToString(i: int): (r: string)
    ensures |r| >= 1
  {
    if i < 0 then "-" + NatToString(-i) else NatToString(i)
  }

  /** The integer denoted by a string of digits. */
  function DigitsValue(s: string): (n: nat)
    requires forall i :: 0 <= i < |s| ==> IsDigit(s[i])
  {
    if |s| == 0 then 0
    else
      assert IsDigit(s[|s| - 1]);
      DigitsValue(s[..|s| - 1]) * 10 + (s[|s| - 1] as int - '0' as int)
  }

  lemma {:induction false} DigitsValueOfNatToString(n: nat)
    ensures DigitsValue(NatToString(n)) == n
    decreases n
  {
    if n >= 10 {
      var s := NatToString(n / 10) + [DigitChar(n % 10)];
      assert s[..|s| - 1] == NatToString(n / 10);
      DigitsValueOfNatToString(n / 10);
    }
  }

  /** `int(s)`: surrounding whitespace, an optional sign, then decimal digits. */
  function ParseInt(s: string): (r: Option<int>)
  {
    var t := Strip(s);
    if |t| > 0 && (t[0] == '-' || t[0] == '+') && IsDigitStr(t[1..]) then
      var v: int := DigitsValue(t[1..]);
      Some(if t[0] == '-' then -v else v)
    else if IsDigitStr(t) then Some(DigitsValue(t))
    else None
  }

  predicate IsWord(w: string)
  {
    |w| > 0 && forall j :: 0 <= j < |w| ==> !IsSpace(w[j])
  }

  /** `s.split()` with no argument: the maximal runs of non-whitespace. */
  function Words(s: string): (r: seq<string>)
    ensures forall i :: 0 <= i < |r| ==> IsWord(r[i])
    decreases |s|
  {
    if |s| == 0 then []
    else if IsSpace(s[0]) then Words(s[1..])
    else
      var n := WordLength(s);
      [s[..n]] + Words(s[n..])
  }

  /** Length of the leading run of non-whitespace. */
  function WordLength(t: string): (n: nat)
    ensures n <= |t|
    ensures forall j :: 0 <= j < n ==> !IsSpace(t[j])
    ensures n == |t| || IsSpace(t[n])
    ensures |t| > 0 && !IsSpace(t[0]) ==> n > 0
  {
    if |t| == 0 || IsSpace(t[0]) then 0 else 1 + WordLength(t[1..])
  }
}
