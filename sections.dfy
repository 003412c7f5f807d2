/** The section normalisers. The backend carries several copies of one rule:
    strip, read a blank, "none" or "null" (any case) as no section, and keep
    "A", "B" or "C" upper-cased. They differ in what they do with other
    input: the service copies answer None, the schema copies raise. */
module Sections {

  import opened Common
  import opened Text
  import opened Json

  /** "A", "B" or "C". */
  predicate IsSectionLetter(s: string)
  {
    |s| == 1 && 'A' <= s[0] <= 'C'
  }

  /** A spelling of "no section": blank, or "none"/"null" in any case. */
  predicate NullSpelling(s: string)
  {
    Strip(s) == "" || Lower(Strip(s)) == "none" || Lower(Strip(s)) == "null"
  }

  /** The shared rule on a string. */
  function SectionOf(s: string): (r: Option<string>)
    ensures r.Some? <==> IsSectionLetter(Upper(Strip(s)))
    ensures r.Some? ==> r.value == Upper(Strip(s))
  {
    var cleaned := Strip(s);
    if cleaned == "" || Lower(cleaned) == "none" || Lower(cleaned) == "null" then None
    else
      var upper := Upper(cleaned);
      if IsSectionLetter(upper) then Some(upper) else None
  }

  /** A null spelling is never a section letter, so the rule's explicit
      blank/none/null test changes nothing on its own. */
  lemma NullSpellingIsNoSection(s: string)
    requires NullSpelling(s)
    ensures SectionOf(s).None?
  {
  }

  /** The rule is idempotent: a normalised section normalises to itself. */
  lemma {:induction false} SectionOfIdempotent(s: string)
    requires SectionOf(s).Some?
    ensures SectionOf(SectionOf(s).value) == SectionOf(s)
  {
    var v := SectionOf(s).value;
    assert |v| == 1 && !IsSpace(v[0]) && UpperChar(v[0]) == v[0];
    TrimStartFixed(v);
    TrimEndFixed(v);
    assert Strip(v) == v;
    assert Upper(v) == v;
  }

  /** The rule ignores surrounding spaces and case. */
  lemma SectionOfLowerCase(c: char)
    requires 'a' <= c <= 'c'
    ensures SectionOf([' ', c, ' ']) == Some([UpperChar(c)])
  {
    StripPadded(c);
    assert |Lower([c])| == 1;
    assert Upper([c]) == [UpperChar(c)];
  }

  /** One blank on each side of a character is stripped. */
  lemma StripPadded(c: char)
    requires !IsSpace(c)
    ensures Strip([' ', c, ' ']) == [c]
  {
    assert [' ', c, ' '][1..] == [c, ' '];
    TrimStartFixed([c, ' ']);
    assert TrimStart([' ', c, ' ']) == [c, ' '];
    assert [c, ' '][..1] == [c];
    TrimEndFixed([c]);
    assert TrimEnd([c, ' ']) == [c];
  }

  /** `_normalize_section` of view_notice_service.py: None and non-strings
      give None. */
  function ViewNoticeSection(v: JValue): (r: Option<string>)
    ensures !v.JStr? ==> r.None?
    ensures v.JStr? ==> r == SectionOf(v.s)
  {
    if v.JStr? then SectionOf(v.s) else None
  }

  /** `_normalize_section` of push_notification_service.py: a falsy value
      gives None. */
  function PushSection(v: Option<string>): (r: Option<string>)
    ensures !Truthy(v) ==> r.None?
    ensures Truthy(v) ==> r == SectionOf(v.value)
  {
    if !Truthy(v) then None else SectionOf(v.value)
  }

  /** `_normalize_section` of device_token_service.py: any non-string gives
      None. */
  function DeviceSection(v: JValue): (r: Option<string>)
    ensures !v.JStr? ==> r.None?
    ensures v.JStr? ==> r == SectionOf(v.s)
  {
    if !v.JStr? then None else SectionOf(v.s)
  }

  /** On every optional string the three service copies agree. */
  lemma ServiceCopiesAgree(v: Option<string>)
    ensures var j := if v.Some? then JStr(v.value) else JNull;
            ViewNoticeSection(j) == PushSection(v) && DeviceSection(j) == PushSection(v)
  {
    if v.Some? && v.value == "" {
      assert Strip(v.value) == "";
    }
  }

  const SectionMessage := "Section must be A, B, C or None"

  /** `_normalize_section` of the notice and student schemas: None and the
      null spellings give None, a section letter is kept upper-cased, and
      anything else is a validation error. */
  function SchemaSection(v: Option<string>): (r: Result<Option<string>>)
    ensures r.Err? <==> v.Some? && !NullSpelling(v.value) && SectionOf(v.value).None?
    ensures r.Err? ==> r.error == ValueError(SectionMessage)
    ensures r.Ok? && v.Some? ==> r.value == SectionOf(v.value)
    ensures v.None? ==> r == Ok(None)
  {
    if v.None? then Ok(None)
    else
      var cleaned := Strip(v.value);
      if cleaned == "" then Ok(None)
      else if Lower(cleaned) == "none" || Lower(cleaned) == "null" then Ok(None)
      else
        var upper := Upper(cleaned);
        if IsSectionLetter(upper) then Ok(Some(upper))
        else Err(ValueError(SectionMessage))
  }

  /** The schema copy accepts exactly what the service copies map to a
      section, plus the null spellings, and then agrees with them. */
  lemma SchemaRefinesService(v: Option<string>)
    ensures SchemaSection(v).Ok? ==> SchemaSection(v).value == PushSection(v)
    ensures PushSection(v).Some? ==> SchemaSection(v) == Ok(PushSection(v))
  {
    if v.Some? && v.value == "" {
      assert Strip(v.value) == "";
    }
  }

  /** The strict section check of the result-sheet schema and the older
      student schema: exactly None, "A", "B" or "C", with no normalisation. */
  function StrictSection(v: Option<string>): (r: Result<Option<string>>)
    ensures r.Ok? <==> v.None? || IsSectionLetter(v.value)
    ensures r.Ok? ==> r.value == v
    ensures r.Err? ==> r.error == ValueError(SectionMessage)
  {
    if v.None? || IsSectionLetter(v.value) then Ok(v) else Err(ValueError(SectionMessage))
  }

  /** Whatever the strict check accepts the normalising one accepts too and
      leaves unchanged; the converse fails, e.g. for " a ". */
  lemma StrictImpliesSchema(v: Option<string>)
    requires StrictSection(v).Ok?
    ensures SchemaSection(v) == StrictSection(v)
  {
    if v.Some? {
      var s := v.value;
      assert |s| == 1 && !IsSpace(s[0]) && UpperChar(s[0]) == s[0];
      TrimStartFixed(s);
      TrimEndFixed(s);
      assert Strip(s) == s;
      assert Upper(s) == s;
    }
  }

  lemma StrictRejectsPadded()
    ensures StrictSection(Some(" a ")).Err? && SchemaSection(Some(" a ")) == Ok(Some("A"))
  {
    SectionOfLowerCase('a');
    assert " a " == [' ', 'a', ' '];
  }
}
