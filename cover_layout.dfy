/** The text layout of the cover PDF: asset paths, the two greedy word-wrap
    loops, the newline-separated cell block and which detail rows are
    drawn. Text widths come from the font metrics, given here as `width`. */
module CoverLayout {

  import opened Common
  import opened Text
  import CoverService

  // ---------------------------------------------------------------------
  // Paths

  /** `resolve_path`: `asPath` is `str(Path(p))`, the pure path text (it
      collapses repeated "/" and "." components and drops a trailing "/"),
      and `resolve` is the file system's `Path.resolve`. */
  function ResolvePath(p: Option<string>, baseDir: string, asPath: string -> string, resolve: string -> string): (r: Option<string>)
    ensures r.None? <==> !Truthy(p)
    ensures Truthy(p) && StartsWith(p.value, "/") ==> r == Some(asPath(p.value))
    ensures Truthy(p) && !StartsWith(p.value, "/") ==> r == Some(resolve(baseDir + "/" + p.value))
  {
    if !Truthy(p) then None
    else if StartsWith(p.value, "/") then Some(asPath(p.value))
    else Some(resolve(baseDir + "/" + p.value))
  }

  // ---------------------------------------------------------------------
  // `_wrap_text`

  /** The lines produced from the open line `cur` and the words still to place. */
  function WrapFrom(cur: string, rest: seq<string>, width: string -> real, maxWidth: real): (r: seq<string>)
    ensures |r| >= 1
    decreases |rest|
  {
    if |rest| == 0 then [cur]
    else
      var trial := cur + " " + rest[0];
      if width(trial) <= maxWidth then WrapFrom(trial, rest[1..], width, maxWidth)
      else [cur] + WrapFrom(rest[0], rest[1..], width, maxWidth)
  }

  /** The lines `_wrap_text` returns. */
  function WrapTextSpec(text: Option<string>, width: string -> real, maxWidth: real): (r: seq<string>)
    ensures |r| >= 1
  {
    var words := Words(OrEmpty(text));
    if |words| == 0 then [""] else WrapFrom(words[0], words[1..], width, maxWidth)
  }

  /** `_wrap_text`: the next word joins the line with one space while the
      measured width stays within `maxWidth`; otherwise the line is closed. */
  method WrapText(text: Option<string>, width: string -> real, maxWidth: real) returns (lines: seq<string>)
    ensures lines == WrapTextSpec(text, width, maxWidth)
  {
    var words := Words(OrEmpty(text));
    if |words| == 0 {
      return [""];
    }
    lines := [];
    var cur := words[0];
    var i := 1;
    while i < |words|
      invariant 1 <= i <= |words|
      invariant lines + WrapFrom(cur, words[i..], width, maxWidth) == WrapFrom(words[0], words[1..], width, maxWidth)
    {
      assert words[i..][1..] == words[i + 1..];
      var w := words[i];
      var trial := cur + " " + w;
      if width(trial) <= maxWidth {
        cur := trial;
      } else {
        lines := lines + [cur];
        cur := w;
      }
      i := i + 1;
    }
    lines := lines + [cur];
  }

  lemma JoinCons(x: string, ys: seq<string>, sep: string)
    ensures Join([x] + ys, sep) == if |ys| == 0 then x else x + sep + Join(ys, sep)
  {
    assert ([x] + ys)[1..] == ys;
  }

  lemma {:induction false} WrapFromJoin(cur: string, rest: seq<string>, width: string -> real, maxWidth: real)
    ensures Join(WrapFrom(cur, rest, width, maxWidth), " ") == Join([cur] + rest, " ")
    decreases |rest|
  {
    if |rest| > 0 {
      var w := rest[0];
      var tail := rest[1..];
      assert rest == [w] + tail;
      JoinCons(cur, rest, " ");
      JoinCons(w, tail, " ");
      var trial := cur + " " + w;
      if width(trial) <= maxWidth {
        WrapFromJoin(trial, tail, width, maxWidth);
        JoinCons(trial, tail, " ");
      } else {
        WrapFromJoin(w, tail, width, maxWidth);
        JoinCons(cur, WrapFrom(w, tail, width, maxWidth), " ");
      }
    }
  }

  /** Joining the wrapped lines with single spaces gives the words of the
      text joined with single spaces: nothing is lost, reordered or added. */
  lemma WrapTextJoin(text: Option<string>, width: string -> real, maxWidth: real)
    ensures Join(WrapTextSpec(text, width, maxWidth), " ") == Join(Words(OrEmpty(text)), " ")
  {
    var words := Words(OrEmpty(text));
    if |words| > 0 {
      WrapFromJoin(words[0], words[1..], width, maxWidth);
      assert [words[0]] + words[1..] == words;
    }
  }

  /** Each line fits or is a single word. */
  predicate LinesFit(r: seq<string>, width: string -> real, maxWidth: real)
  {
    forall i :: 0 <= i < |r| ==> IsWord(r[i]) || width(r[i]) <= maxWidth
  }

  /** A line holding more than one word fits; only a single word may be too wide. */
  lemma {:induction false} WrapFromLines(cur: string, rest: seq<string>, width: string -> real, maxWidth: real)
    requires IsWord(cur) || width(cur) <= maxWidth
    requires forall i :: 0 <= i < |rest| ==> IsWord(rest[i])
    ensures LinesFit(WrapFrom(cur, rest, width, maxWidth), width, maxWidth)
    decreases |rest|
  {
    if |rest| > 0 {
      var trial := cur + " " + rest[0];
      if width(trial) <= maxWidth {
        WrapFromLines(trial, rest[1..], width, maxWidth);
      } else {
        WrapFromLines(rest[0], rest[1..], width, maxWidth);
        var tail := WrapFrom(rest[0], rest[1..], width, maxWidth);
        var r := WrapFrom(cur, rest, width, maxWidth);
        assert r == [cur] + tail;
        assert LinesFit(tail, width, maxWidth);
        forall i | 0 <= i < |r|
          ensures IsWord(r[i]) || width(r[i]) <= maxWidth
        {
          if i > 0 {
            assert r[i] == tail[i - 1];
          }
        }
      }
    }
  }

  lemma WrapTextLines(text: Option<string>, width: string -> real, maxWidth: real)
    ensures var r := WrapTextSpec(text, width, maxWidth);
            forall i :: 0 <= i < |r| ==> r[i] == "" || IsWord(r[i]) || width(r[i]) <= maxWidth
  {
    var words := Words(OrEmpty(text));
    if |words| > 0 {
      assert IsWord(words[0]);
      assert forall i :: 0 <= i < |words[1..]| ==> words[1..][i] == words[i + 1];
      WrapFromLines(words[0], words[1..], width, maxWidth);
      assert WrapTextSpec(text, width, maxWidth) == WrapFrom(words[0], words[1..], width, maxWidth);
    }
  }

  /** Empty or whitespace-only text gives one empty line. */
  lemma WrapTextBlank(text: Option<string>, width: string -> real, maxWidth: real)
    requires Words(OrEmpty(text)) == []
    ensures WrapTextSpec(text, width, maxWidth) == [""]
  {
  }

  // ---------------------------------------------------------------------
  // `_wrap_lines_hardsplit`

  /** The inner loop over the characters of a word too wide to fit:
      the lines so far and the open chunk. */
  function ChunkFrom(lines: seq<string>, chunk: string, chars: string, width: string -> real, maxWidth: real)
    : (r: (seq<string>, string))
    ensures lines <= r.0
    ensures |chars| > 0 ==> r.1 != ""
    decreases |chars|
  {
    if |chars| == 0 then (lines, chunk)
    else
      var cand := chunk + [chars[0]];
      if width(cand) <= maxWidth then ChunkFrom(lines, cand, chars[1..], width, maxWidth)
      else ChunkFrom(if chunk != "" then lines + [chunk] else lines, [chars[0]], chars[1..], width, maxWidth)
  }

  /** The outer loop over the words: the lines so far and the open line. */
  function HardFrom(lines: seq<string>, cur: string, words: seq<string>, width: string -> real, maxWidth: real)
    : (r: seq<string>)
    ensures lines <= r
    ensures |words| > 0 && words[|words| - 1] != "" ==> |r| > |lines|
    ensures |words| == 0 && cur != "" ==> |r| > |lines|
    decreases |words|
  {
    if |words| == 0 then (if cur != "" then lines + [cur] else lines)
    else
      var w := words[0];
      var candidate := if cur == "" then w else cur + " " + w;
      if width(candidate) <= maxWidth then HardFrom(lines, candidate, words[1..], width, maxWidth)
      else
        var lines1 := if cur != "" then lines + [cur] else lines;
        if !(width(w) <= maxWidth) then
          var split := ChunkFrom(lines1, "", w, width, maxWidth);
          HardFrom(split.0, split.1, words[1..], width, maxWidth)
        else HardFrom(lines1, w, words[1..], width, maxWidth)
  }

  /** The lines `_wrap_lines_hardsplit` returns. */
  function HardSplitSpec(text: Option<string>, width: string -> real, maxWidth: real): seq<string>
  {
    var t := Strip(OrEmpty(text));
    if t == "" then [""] else HardFrom([], "", Words(t), width, maxWidth)
  }

  /** One word of the outer loop: it joins the open line when the joined
      line fits; otherwise the open line is closed and the word opens the
      next one, split into chunks first when it is too wide on its own. */
  lemma HardFromStep(lines: seq<string>, cur: string, words: seq<string>, width: string -> real, maxWidth: real)
    requires |words| > 0
    ensures var w := words[0];
      var candidate := if cur == "" then w else cur + " " + w;
      var lines1 := if cur != "" then lines + [cur] else lines;
      var split := ChunkFrom(lines1, "", w, width, maxWidth);
      HardFrom(lines, cur, words, width, maxWidth) ==
        if width(candidate) <= maxWidth then HardFrom(lines, candidate, words[1..], width, maxWidth)
        else if !(width(w) <= maxWidth) then HardFrom(split.0, split.1, words[1..], width, maxWidth)
        else HardFrom(lines1, w, words[1..], width, maxWidth)
  {
  }

  /** The inner loop of `_wrap_lines_hardsplit` over the characters of a word
      too wide to fit: full chunks are closed as lines, the last one stays open. */
  method SplitWord(start: seq<string>, w: string, width: string -> real, maxWidth: real)
    returns (lines: seq<string>, chunk: string)
    ensures (lines, chunk) == ChunkFrom(start, "", w, width, maxWidth)
  {
    lines, chunk := start, "";
    var j := 0;
    while j < |w|
      invariant 0 <= j <= |w|
      invariant ChunkFrom(lines, chunk, w[j..], width, maxWidth) == ChunkFrom(start, "", w, width, maxWidth)
    {
      assert w[j..][1..] == w[j + 1..];
      var cand := chunk + [w[j]];
      if width(cand) <= maxWidth {
        chunk := cand;
      } else {
        if chunk != "" {
          lines := lines + [chunk];
        }
        chunk := [w[j]];
      }
      j := j + 1;
    }
  }

  /** `_wrap_lines_hardsplit` */
  method WrapHardSplit(text: Option<string>, width: string -> real, maxWidth: real) returns (lines: seq<string>)
    ensures lines == HardSplitSpec(text, width, maxWidth)
  {
    var t := Strip(OrEmpty(text));
    if t == "" {
      return [""];
    }
    var words := Words(t);
    lines := [];
    var cur := "";
    var i := 0;
    while i < |words|
      invariant 0 <= i <= |words|
      invariant HardFrom(lines, cur, words[i..], width, maxWidth) == HardFrom([], "", words, width, maxWidth)
    {
      HardFromStep(lines, cur, words[i..], width, maxWidth);
      assert words[i..][1..] == words[i + 1..];
      var w := words[i];
      var candidate := if cur == "" then w else cur + " " + w;
      if width(candidate) <= maxWidth {
        cur := candidate;
      } else {
        if cur != "" {
          lines := lines + [cur];
          cur := "";
        }
        if !(width(w) <= maxWidth) {
          lines, cur := SplitWord(lines, w, width, maxWidth);
        } else {
          cur := w;
        }
      }
      i := i + 1;
    }
    if cur != "" {
      lines := lines + [cur];
    }
  }

  /** Every closed line is non-empty and fits, or is a single character
      too wide on its own. */
  predicate GoodLine(l: string, width: string -> real, maxWidth: real)
  {
    l != "" && (width(l) <= maxWidth || |l| == 1)
  }

  predicate GoodLines(lines: seq<string>, width: string -> real, maxWidth: real)
  {
    forall i :: 0 <= i < |lines| ==> GoodLine(lines[i], width, maxWidth)
  }

  lemma {:induction false} ChunkFromGood(lines: seq<string>, chunk: string, chars: string,
                                         width: string -> real, maxWidth: real)
    requires GoodLines(lines, width, maxWidth)
    requires chunk == "" || GoodLine(chunk, width, maxWidth)
    ensures var r := ChunkFrom(lines, chunk, chars, width, maxWidth);
            GoodLines(r.0, width, maxWidth) && (r.1 == "" || GoodLine(r.1, width, maxWidth))
    decreases |chars|
  {
    if |chars| > 0 {
      var cand := chunk + [chars[0]];
      if width(cand) <= maxWidth {
        ChunkFromGood(lines, cand, chars[1..], width, maxWidth);
      } else {
        var lines1 := if chunk != "" then lines + [chunk] else lines;
        assert GoodLines(lines1, width, maxWidth);
        ChunkFromGood(lines1, [chars[0]], chars[1..], width, maxWidth);
      }
    }
  }

  lemma {:induction false} HardFromGood(lines: seq<string>, cur: string, words: seq<string>,
                                        width: string -> real, maxWidth: real)
    requires GoodLines(lines, width, maxWidth)
    requires cur == "" || GoodLine(cur, width, maxWidth)
    requires forall i :: 0 <= i < |words| ==> IsWord(words[i])
    ensures GoodLines(HardFrom(lines, cur, words, width, maxWidth), width, maxWidth)
    decreases |words|
  {
    if |words| > 0 {
      var w := words[0];
      var candidate := if cur == "" then w else cur + " " + w;
      if width(candidate) <= maxWidth {
        HardFromGood(lines, candidate, words[1..], width, maxWidth);
      } else {
        var lines1 := if cur != "" then lines + [cur] else lines;
        assert GoodLines(lines1, width, maxWidth);
        if !(width(w) <= maxWidth) {
          ChunkFromGood(lines1, "", w, width, maxWidth);
          var split := ChunkFrom(lines1, "", w, width, maxWidth);
          HardFromGood(split.0, split.1, words[1..], width, maxWidth);
        } else {
          HardFromGood(lines1, w, words[1..], width, maxWidth);
        }
      }
    }
  }

  /** Blank text gives [""]; any other text gives at least one line, none of
      them empty, each fitting or a single over-wide character. */
  lemma HardSplitLines(text: Option<string>, width: string -> real, maxWidth: real)
    ensures Strip(OrEmpty(text)) == "" ==> HardSplitSpec(text, width, maxWidth) == [""]
    ensures Strip(OrEmpty(text)) != "" ==>
              |HardSplitSpec(text, width, maxWidth)| >= 1 && GoodLines(HardSplitSpec(text, width, maxWidth), width, maxWidth)
  {
    var t := Strip(OrEmpty(text));
    if t != "" {
      var words := Words(t);
      WordsOfNonBlank(t);
      HardFromGood([], "", words, width, maxWidth);
    }
  }

  /** A stripped non-empty text has a last word. */
  lemma WordsOfNonBlank(t: string)
    requires t != "" && !IsSpace(t[0])
    ensures |Words(t)| > 0 && Words(t)[|Words(t)| - 1] != ""
  {
    var n := WordLength(t);
    assert Words(t) == [t[..n]] + Words(t[n..]);
    var ws := Words(t);
    assert IsWord(ws[|ws| - 1]);
  }

  /** The lines glued together with nothing between them. */
  function Concat(parts: seq<string>): string
  {
    if parts == [] then "" else parts[0] + Concat(parts[1..])
  }

  /** A text with its spaces taken out. */
  function Squeeze(s: string): (r: string)
    ensures |r| <= |s|
  {
    if s == "" then "" else (if s[0] == ' ' then "" else [s[0]]) + Squeeze(s[1..])
  }

  lemma {:induction false} ConcatSnoc(parts: seq<string>, x: string)
    ensures Concat(parts + [x]) == Concat(parts) + x
  {
    if parts != [] {
      assert (parts + [x])[1..] == parts[1..] + [x];
      ConcatSnoc(parts[1..], x);
    }
  }

  lemma {:induction false} SqueezeAppend(a: string, b: string)
    ensures Squeeze(a + b) == Squeeze(a) + Squeeze(b)
  {
    if a == "" {
      assert a + b == b;
    } else {
      assert (a + b)[0] == a[0] && (a + b)[1..] == a[1..] + b;
      SqueezeAppend(a[1..], b);
    }
  }

  lemma {:induction false} SqueezeWord(w: string)
    requires forall j :: 0 <= j < |w| ==> !IsSpace(w[j])
    ensures Squeeze(w) == w
  {
    if w != "" {
      assert !IsSpace(w[0]);
      SqueezeWord(w[1..]);
    }
  }

  /** The inner loop loses no character: the closed chunks and the open
      one spell the characters it was given. */
  lemma {:induction false} ChunkFromJoin(lines: seq<string>, chunk: string, chars: string,
                                         width: string -> real, maxWidth: real)
    ensures var r := ChunkFrom(lines, chunk, chars, width, maxWidth);
            Concat(r.0) + r.1 == Concat(lines) + chunk + chars
    decreases |chars|
  {
    if |chars| > 0 {
      var cand := chunk + [chars[0]];
      assert cand + chars[1..] == chunk + chars;
      if width(cand) <= maxWidth {
        ChunkFromJoin(lines, cand, chars[1..], width, maxWidth);
      } else {
        var lines1 := if chunk != "" then lines + [chunk] else lines;
        if chunk != "" {
          ConcatSnoc(lines, chunk);
        }
        ChunkFromJoin(lines1, [chars[0]], chars[1..], width, maxWidth);
        assert [chars[0]] + chars[1..] == chars;
      }
    }
  }

  lemma Regroup(a: string, b: string, w: string, c: string)
    ensures a + b + (w + c) == (a + b + w) + c
    ensures a + (b + w) + c == (a + b + w) + c
  {
  }

  /** A word joined to the open line adds itself, the space aside. */
  lemma SqueezeJoined(cur: string, w: string)
    requires IsWord(w)
    ensures Squeeze(if cur == "" then w else cur + " " + w) == Squeeze(cur) + w
  {
    SqueezeWord(w);
    if cur != "" {
      SqueezeAppend(cur + " ", w);
      SqueezeAppend(cur, " ");
      assert Squeeze(" ") == "" by {
        assert " "[1..] == "";
      }
    }
  }

  /** Closing the open line adds it to the lines. */
  lemma SqueezeClosed(lines: seq<string>, cur: string)
    ensures Squeeze(Concat(if cur != "" then lines + [cur] else lines)) == Squeeze(Concat(lines)) + Squeeze(cur)
  {
    if cur != "" {
      ConcatSnoc(lines, cur);
      SqueezeAppend(Concat(lines), cur);
    } else {
      assert Squeeze(cur) == "";
    }
  }

  /** An over-wide word split into chunks adds itself. */
  lemma SqueezeSplit(lines1: seq<string>, w: string, width: string -> real, maxWidth: real)
    requires IsWord(w)
    ensures var split := ChunkFrom(lines1, "", w, width, maxWidth);
            Squeeze(Concat(split.0)) + Squeeze(split.1) == Squeeze(Concat(lines1)) + w
  {
    var split := ChunkFrom(lines1, "", w, width, maxWidth);
    ChunkFromJoin(lines1, "", w, width, maxWidth);
    assert Concat(lines1) + "" + w == Concat(lines1) + w;
    SqueezeAppend(Concat(split.0), split.1);
    SqueezeAppend(Concat(lines1), w);
    SqueezeWord(w);
  }

  /** The outer loop loses no character: apart from the spaces it puts
      between words, the lines spell the words it was given, in order. */
  lemma {:induction false} HardFromJoin(lines: seq<string>, cur: string, words: seq<string>,
                                        width: string -> real, maxWidth: real)
    requires forall i :: 0 <= i < |words| ==> IsWord(words[i])
    ensures Squeeze(Concat(HardFrom(lines, cur, words, width, maxWidth)))
            == Squeeze(Concat(lines)) + Squeeze(cur) + Concat(words)
    decreases |words|
  {
    if |words| == 0 {
      SqueezeClosed(lines, cur);
    } else {
      var w := words[0];
      var rest := words[1..];
      assert Concat(words) == w + Concat(rest);
      assert forall i :: 0 <= i < |rest| ==> IsWord(rest[i]) by {
        forall i | 0 <= i < |rest| ensures IsWord(rest[i]) {
          assert rest[i] == words[i + 1];
        }
      }
      HardFromStep(lines, cur, words, width, maxWidth);
      var a := Squeeze(Concat(lines));
      var candidate := if cur == "" then w else cur + " " + w;
      var lines1 := if cur != "" then lines + [cur] else lines;
      SqueezeClosed(lines, cur);
      Regroup(a, Squeeze(cur), w, Concat(rest));
      var target := (a + Squeeze(cur) + w) + Concat(rest);
      if width(candidate) <= maxWidth {
        assert HardFrom(lines, cur, words, width, maxWidth) == HardFrom(lines, candidate, rest, width, maxWidth);
        SqueezeJoined(cur, w);
        HardFromJoin(lines, candidate, rest, width, maxWidth);
        assert a + Squeeze(candidate) + Concat(rest) == target;
      } else if !(width(w) <= maxWidth) {
        var split := ChunkFrom(lines1, "", w, width, maxWidth);
        assert HardFrom(lines, cur, words, width, maxWidth) == HardFrom(split.0, split.1, rest, width, maxWidth);
        SqueezeSplit(lines1, w, width, maxWidth);
        HardFromJoin(split.0, split.1, rest, width, maxWidth);
      } else {
        assert HardFrom(lines, cur, words, width, maxWidth) == HardFrom(lines1, w, rest, width, maxWidth);
        SqueezeWord(w);
        HardFromJoin(lines1, w, rest, width, maxWidth);
      }
    }
  }

  /** `_wrap_lines_hardsplit` loses no character: the lines glued together,
      spaces left out, spell the words of the stripped text one after
      another. */
  lemma HardSplitJoin(text: Option<string>, width: string -> real, maxWidth: real)
    ensures Squeeze(Concat(HardSplitSpec(text, width, maxWidth))) == Concat(Words(Strip(OrEmpty(text))))
  {
    var t := Strip(OrEmpty(text));
    if t != "" {
      HardFromJoin([], "", Words(t), width, maxWidth);
    } else {
      assert Concat([""]) == "";
    }
  }

  // ---------------------------------------------------------------------
  // `_draw_wrapped_block_in_cell`

  /** The line boundaries of `str.splitlines`. */
  predicate IsLineBreak(c: char)
  {
    c == '\n' || c == '\r' || c == '\U{000B}' || c == '\U{000C}' || c == '\U{001C}' || c == '\U{001D}'
    || c == '\U{001E}' || c == '\U{0085}' || c == '\U{2028}' || c == '\U{2029}'
  }

  /** The length of the first line: the index of the first boundary. */
  function LineLength(s: string): (n: nat)
    ensures n <= |s|
    ensures forall i :: 0 <= i < n ==> !IsLineBreak(s[i])
    ensures n < |s| ==> IsLineBreak(s[n])
  {
    if s == "" || IsLineBreak(s[0]) then 0 else 1 + LineLength(s[1..])
  }

  /** A row with no boundary in it. */
  predicate NoLineBreak(line: string)
  {
    forall c :: c in line ==> !IsLineBreak(c)
  }

  /** `s.splitlines()`: "\r\n" is one boundary, and no row follows a final
      boundary. */
  function SplitLines(s: string): (r: seq<string>)
    ensures forall i :: 0 <= i < |r| ==> NoLineBreak(r[i])
    ensures s == "" <==> r == []
    decreases |s|
  {
    if s == "" then []
    else
      var n := LineLength(s);
      if n == |s| then [s]
      else
        if s[n] == '\r' && n + 1 < |s| && s[n + 1] == '\n' then [s[..n]] + SplitLines(s[n + 2..])
        else [s[..n]] + SplitLines(s[n + 1..])
  }

  /** Every boundary in `s` is a "\n". */
  predicate OnlyNewlines(s: string)
  {
    forall i :: 0 <= i < |s| && IsLineBreak(s[i]) ==> s[i] == '\n'
  }

  /** A "\n" ends the first row, and the rows go on after it. */
  lemma {:induction false} SplitLinesAtNewline(s: string)
    requires LineLength(s) < |s| && s[LineLength(s)] == '\n'
    ensures SplitLines(s) == [s[..LineLength(s)]] + SplitLines(s[LineLength(s) + 1..])
  {
  }

  /** Every boundary in a suffix of such a text is a "\n" too. */
  lemma {:induction false} OnlyNewlinesSuffix(s: string, k: nat)
    requires OnlyNewlines(s) && k <= |s|
    ensures OnlyNewlines(s[k..])
  {
    var rest := s[k..];
    forall i | 0 <= i < |rest| && IsLineBreak(rest[i]) ensures rest[i] == '\n' {
      assert rest[i] == s[k + i];
    }
  }

  /** The rows after the first boundary of such a text. */
  lemma {:induction false} SplitLinesStep(s: string)
    requires OnlyNewlines(s) && s != "" && s[|s| - 1] != '\n' && LineLength(s) < |s|
    ensures var n := LineLength(s);
      s[n] == '\n' && n + 1 < |s|
      && SplitLines(s) == [s[..n]] + SplitLines(s[n + 1..])
      && OnlyNewlines(s[n + 1..]) && s[n + 1..][|s[n + 1..]| - 1] != '\n'
      && s == s[..n] + "\n" + s[n + 1..]
  {
    var n := LineLength(s);
    assert s[n] == '\n';
    OnlyNewlinesSuffix(s, n + 1);
    SplitLinesAtNewline(s);
    SplitAround(s, n);
  }

  /** A text around one of its characters. */
  lemma SplitAround(s: string, n: nat)
    requires n < |s| - 1 && s[n] == '\n'
    ensures s == s[..n] + "\n" + s[n + 1..]
    ensures s[n + 1..][|s[n + 1..]| - 1] == s[|s| - 1]
  {
    assert s == s[..n] + s[n..];
    assert s[n..] == "\n" + s[n + 1..];
  }

  /** A text whose only boundaries are single "\n" characters, and which
      does not end in one, is its rows joined by "\n": nothing is lost. */
  lemma {:induction false} SplitLinesJoin(s: string)
    requires OnlyNewlines(s)
    requires s == "" || s[|s| - 1] != '\n'
    ensures Join(SplitLines(s), "\n") == s
    decreases |s|
  {
    if s != "" && LineLength(s) < |s| {
      var n := LineLength(s);
      SplitLinesStep(s);
      SplitLinesJoin(s[n + 1..]);
      JoinCons(s[..n], SplitLines(s[n + 1..]), "\n");
    }
  }

  /** A lone carriage return ends a row, as in Python. */
  lemma CarriageReturnSplits()
    ensures SplitLines("a\rb") == ["a", "b"]
  {
    assert LineLength("") == 0;
    assert "b"[1..] == "";
    assert LineLength("b") == 1;
    assert SplitLines("b") == ["b"];
    assert "a\rb"[1..] == "\rb";
    assert LineLength("\rb") == 0;
    assert LineLength("a\rb") == 1;
    assert "a\rb"[..1] == "a" && "a\rb"[2..] == "b";
  }

  /** `(text_block or "").splitlines() or [""]` */
  function RawLines(textBlock: Option<string>): (r: seq<string>)
    ensures |r| >= 1
  {
    var ls := SplitLines(OrEmpty(textBlock));
    if |ls| == 0 then [""] else ls
  }

  /** The concatenation of `f(row)` over the rows, in row order. */
  function Flatten(rows: seq<string>, f: string -> seq<string>): seq<string>
  {
    if |rows| == 0 then [] else Flatten(rows[..|rows| - 1], f) + f(rows[|rows| - 1])
  }

  lemma FlattenAt(rows: seq<string>, i: int, f: string -> seq<string>)
    requires 0 <= i < |rows|
    ensures Flatten(rows[..i + 1], f) == Flatten(rows[..i], f) + f(rows[i])
  {
    assert rows[..i + 1][..i] == rows[..i];
  }

  lemma {:induction false} FlattenInOrder(rows: seq<string>, i: int, f: string -> seq<string>)
    requires 0 <= i < |rows|
    ensures Flatten(rows[..i], f) + f(rows[i]) <= Flatten(rows, f)
    decreases |rows|
  {
    var n := |rows|;
    if i == n - 1 {
      assert rows[..n - 1] == rows[..i];
    } else {
      var init := rows[..n - 1];
      FlattenInOrder(init, i, f);
      assert init[..i] == rows[..i];
      assert init[i] == rows[i];
    }
  }

  lemma {:induction false} FlattenLength(rows: seq<string>, f: string -> seq<string>)
    requires forall row :: |f(row)| >= 1
    ensures |Flatten(rows, f)| >= |rows|
  {
    if |rows| > 0 {
      FlattenLength(rows[..|rows| - 1], f);
    }
  }

  /** One row's lines. */
  function RowWrap(width: string -> real, maxWidth: real): string -> seq<string>
  {
    row => HardSplitSpec(Some(row), width, maxWidth)
  }

  /** The lines of all rows, each row wrapped on its own, in row order. */
  function WrapRows(rows: seq<string>, width: string -> real, maxWidth: real): seq<string>
  {
    Flatten(rows, RowWrap(width, maxWidth))
  }

  /** `max(1.0, cell_w - 2 * padding)` */
  function CellMaxWidth(cellW: real, padding: real): (r: real)
    ensures r >= 1.0
  {
    if 1.0 >= cellW - 2.0 * padding then 1.0 else cellW - 2.0 * padding
  }

  /** The lines `_draw_wrapped_block_in_cell` lays out, before the cell's
      height cuts the list short. */
  method WrappedBlock(textBlock: Option<string>, width: string -> real, cellW: real, padding: real)
    returns (wrapped: seq<string>)
    ensures wrapped == WrapRows(RawLines(textBlock), width, CellMaxWidth(cellW, padding))
  {
    wrapped := WrapEachRow(RawLines(textBlock), width, CellMaxWidth(cellW, padding));
  }

  /** The loop extending `wrapped_lines` row by row. */
  method WrapEachRow(rows: seq<string>, width: string -> real, maxWidth: real) returns (wrapped: seq<string>)
    ensures wrapped == WrapRows(rows, width, maxWidth)
  {
    wrapped := [];
    var i := 0;
    while i < |rows|
      invariant 0 <= i <= |rows|
      invariant wrapped == Flatten(rows[..i], RowWrap(width, maxWidth))
    {
      FlattenAt(rows, i, RowWrap(width, maxWidth));
      var part := WrapHardSplit(Some(rows[i]), width, maxWidth);
      wrapped := wrapped + part;
      i := i + 1;
    }
    assert rows[..i] == rows;
  }

  /** Every input row gives at least one line of its own. */
  lemma WrapRowsKeepsRows(rows: seq<string>, width: string -> real, maxWidth: real)
    ensures |WrapRows(rows, width, maxWidth)| >= |rows|
  {
    forall row | true
      ensures |RowWrap(width, maxWidth)(row)| >= 1
    {
      HardSplitLines(Some(row), width, maxWidth);
    }
    FlattenLength(rows, RowWrap(width, maxWidth));
  }

  /** The lines of row `i` come right after the lines of the rows before it. */
  lemma WrapRowsInOrder(rows: seq<string>, i: int, width: string -> real, maxWidth: real)
    requires 0 <= i < |rows|
    ensures WrapRows(rows[..i], width, maxWidth) + HardSplitSpec(Some(rows[i]), width, maxWidth)
            <= WrapRows(rows, width, maxWidth)
  {
    FlattenInOrder(rows, i, RowWrap(width, maxWidth));
  }

  // ---------------------------------------------------------------------
  // Optional detail rows of `generate_ruet_cover_pdf`

  /** The detail block: the lines of the "<type> Title" row (none when the row
      is left out), the one or two course-title lines and the optional
      "Date of Experiment" value. */
  datatype DetailBlock = DetailBlock(
    typeNoLabel: string, typeNo: string,
    typeTitleLabel: string, typeTitleLines: seq<string>,
    courseCode: string, courseTitleLines: seq<string>,
    dateOfExp: Option<string>, dateOfSubmission: string)

  function DetailRows(req: CoverService.CoverRequest, width: string -> real, maxTitleW: real): (r: DetailBlock)
    ensures r.typeTitleLines == [] <==> Strip(req.coverTypeTitle) == ""
    ensures r.typeTitleLines != [] ==> r.typeTitleLines == WrapTextSpec(Some(req.coverTypeTitle), width, maxTitleW)
    ensures 1 <= |r.courseTitleLines| <= 2
    ensures r.courseTitleLines <= WrapTextSpec(Some(req.courseTitle), width, maxTitleW)
    ensures r.dateOfExp.Some? <==> Strip(req.dateOfExp) != ""
    ensures r.dateOfExp.Some? ==> r.dateOfExp.value == req.dateOfExp
  {
    var titleLines := WrapTextSpec(Some(req.courseTitle), width, maxTitleW);
    DetailBlock(
      req.coverType + " No.", req.coverTypeNo,
      req.coverType + " Title",
      if req.coverTypeTitle != "" && Strip(req.coverTypeTitle) != "" then WrapTextSpec(Some(req.coverTypeTitle), width, maxTitleW) else [],
      req.courseCode,
      if |titleLines| > 1 then titleLines[..2] else titleLines[..1],
      if req.dateOfExp != "" && Strip(req.dateOfExp) != "" then Some(req.dateOfExp) else None,
      req.dateOfSubmission)
  }
}
