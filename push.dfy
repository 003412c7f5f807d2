/** The notice push service: who a notice is pushed to, the title, body and
    data of the push, the reading of Firebase Cloud Messaging's reply, and
    the clean-up of a service-account key. Firebase itself, the OAuth token
    exchange, the credential caches and the database sessions are outside
    the model: a reply is given as its status and body text, and the rows
    a query reads are given as a sequence. */
module Push {

  import opened Common
  import opened Json
  import opened Text
  import opened Rows
  import opened Sections
  import opened NoticeRecords
  import opened DeviceTokens
  import NoticeService

  /** The value of `created_by_role` as the push service meets it: absent,
      an enum member with its `.value`, or another object known only by its
      `str`. */
  datatype RoleValue = NoRole | EnumRole(value: string) | OtherRole(text: string)

  /** `_normalize_sender_role`. */
  function SenderRoleText(v: RoleValue): (r: string)
    ensures v.NoRole? ==> r == ""
    ensures v.EnumRole? ==> r == Lower(Strip(v.value))
    ensures v.OtherRole? ==> '.' !in r
  {
    match v
    case NoRole => ""
    case EnumRole(s) => Lower(Strip(s))
    case OtherRole(t) =>
      var parts := Split(Lower(Strip(t)), '.');
      parts[|parts| - 1]
  }

  /** The stored role of a notice, an enum member. */
  function RoleValueOf(r: Role): RoleValue
  {
    EnumRole(if r == TeacherRole then "teacher" else "cr")
  }

  /** A text with no upper-case letter lower-cases to itself. */
  lemma LowerOfNoUpper(s: string)
    requires NoUpper(s)
    ensures Lower(s) == s
  {
  }

  /** The two stored roles read as "teacher" and "cr". */
  lemma StoredRoleNames()
    ensures SenderRoleText(RoleValueOf(TeacherRole)) == "teacher"
    ensures SenderRoleText(RoleValueOf(CrRole)) == "cr"
  {
    TrimStartFixed("teacher");
    TrimEndFixed("teacher");
    LowerOfNoUpper("teacher");
    TrimStartFixed("cr");
    TrimEndFixed("cr");
    LowerOfNoUpper("cr");
  }

  /** The audience columns a push query matches on: an active android
      token of the notice's dept and series, and of its section when the
      notice has one. */
  predicate Matches(row: DeviceToken, dept: string, series: string, sec: Option<string>)
  {
    row.isActive && row.platform == "android" && row.dept == Some(dept) && row.series == Some(series)
    && (sec.None? || row.sec == sec)
  }

  /** The tokens one query returns, in table order. */
  function TokensOf(rows: seq<DeviceToken>, owner: Owner, dept: string, series: string, sec: Option<string>): (r: seq<string>)
    ensures forall t :: t in r <==> exists row :: row in rows && row.token == t && row.ownerRole == owner
                                                  && Matches(row, dept, series, sec)
  {
    if rows == [] then []
    else
      var rest := TokensOf(rows[1..], owner, dept, series, sec);
      assert forall row :: row in rows <==> row == rows[0] || row in rows[1..];
      if rows[0].ownerRole == owner && Matches(rows[0], dept, series, sec) then [rows[0].token] + rest else rest
  }

  predicate Distinct<T(==)>(s: seq<T>)
  {
    forall i, j :: 0 <= i < j < |s| ==> s[i] != s[j]
  }

  /** `list(dict.fromkeys(tokens))`: each token once, at its first
      occurrence. */
  function Dedup<T(==,!new)>(s: seq<T>): (r: seq<T>)
    ensures forall x :: x in r <==> x in s
    ensures Distinct(r)
    ensures |r| <= |s|
  {
    if s == [] then []
    else
      var rest := Dedup(s[..|s| - 1]);
      assert forall x :: x in s <==> x in s[..|s| - 1] || x == s[|s| - 1];
      if s[|s| - 1] in rest then rest else rest + [s[|s| - 1]]
  }

  /** The index of the first occurrence. */
  function FirstIndex<T(==)>(s: seq<T>, x: T): (r: nat)
    requires x in s
    ensures r < |s| && s[r] == x
    ensures forall k :: 0 <= k < r ==> s[k] != x
  {
    if s[0] == x then 0 else 1 + FirstIndex(s[1..], x)
  }

  lemma {:induction false} FirstIndexPrefix<T>(s: seq<T>, n: nat, x: T)
    requires n <= |s| && x in s[..n]
    ensures FirstIndex(s, x) == FirstIndex(s[..n], x)
  {
    var i := FirstIndex(s[..n], x);
    var j := FirstIndex(s, x);
    assert s[i] == x;
    assert j <= i;
    assert s[..n][j] == x;
  }

  /** Dedup keeps tokens in the order of their first occurrence. */
  lemma {:induction false} DedupFirstOrder<T(!new)>(s: seq<T>)
    ensures forall i, j :: 0 <= i < j < |Dedup(s)| ==> FirstIndex(s, Dedup(s)[i]) < FirstIndex(s, Dedup(s)[j])
    decreases |s|
  {
    if s != [] {
      var p := s[..|s| - 1];
      var rest := Dedup(p);
      DedupFirstOrder(p);
      forall x | x in p ensures FirstIndex(s, x) == FirstIndex(p, x) && FirstIndex(p, x) < |p| {
        FirstIndexPrefix(s, |s| - 1, x);
      }
      if s[|s| - 1] !in rest {
        assert s[|s| - 1] !in p;
        assert FirstIndex(s, s[|s| - 1]) == |s| - 1;
      }
    }
  }

  /** Whether a role's notices go to an owner: a teacher's to students and
      CRs, a CR's to students, any other role's to nobody. */
  predicate Audience(role: string, owner: Owner)
  {
    (role == "teacher" && (owner == StudentOwner || owner == CrOwner)) || (role == "cr" && owner == StudentOwner)
  }

  /** `_select_recipient_tokens_for_notice` for a normalised sender role:
      student tokens, then (for a teacher) CR tokens, de-duplicated. */
  function RecipientsFor(rows: seq<DeviceToken>, role: string, dept: string, series: string, sec: Option<string>): (r: seq<string>)
    ensures Distinct(r)
    ensures forall t :: t in r <==> exists row :: row in rows && row.token == t && Audience(role, row.ownerRole)
                                                  && Matches(row, dept, series, PushSection(sec))
  {
    TargetTokens(rows, role, dept, series, PushSection(sec))
  }

  /** The token query once the section is normalised (`s` None: no section
      filter). */
  function TargetTokens(rows: seq<DeviceToken>, role: string, dept: string, series: string, s: Option<string>): (r: seq<string>)
    ensures Distinct(r)
    ensures forall t :: t in r <==> exists row :: row in rows && row.token == t && Audience(role, row.ownerRole)
                                                  && Matches(row, dept, series, s)
  {
    var students := TokensOf(rows, StudentOwner, dept, series, s);
    var tokens :=
      if role == "teacher" then students + TokensOf(rows, CrOwner, dept, series, s)
      else if role == "cr" then students
      else [];
    Dedup(tokens)
  }

  /** The recipients of a notice: a teacher's notice reaches the matching
      students and CRs, a CR's only the matching students, each device
      once. */
  function Recipients(rows: seq<DeviceToken>, n: Notice): (r: seq<string>)
    ensures Distinct(r)
    ensures forall t :: t in r <==>
              exists row :: row in rows && row.token == t && Matches(row, n.dept, n.series, PushSection(n.sec))
                            && (row.ownerRole == StudentOwner
                                || (n.createdByRole == TeacherRole && row.ownerRole == CrOwner))
  {
    NoticeAudience(n.createdByRole);
    RecipientsFor(rows, SenderRoleText(RoleValueOf(n.createdByRole)), n.dept, n.series, n.sec)
  }

  /** The audience of a stored role, by owner. */
  lemma NoticeAudience(r: Role)
    ensures forall o :: Audience(SenderRoleText(RoleValueOf(r)), o) <==> o == StudentOwner || (r == TeacherRole && o == CrOwner)
  {
    StoredRoleNames();
  }

  /** A notice whose section does not normalise goes to the whole dept and
      series, whatever section a device is registered under. */
  lemma SectionlessNoticeReachesSeries(rows: seq<DeviceToken>, n: Notice, row: DeviceToken)
    requires PushSection(n.sec).None?
    requires row in rows && row.ownerRole == StudentOwner && row.isActive && row.platform == "android"
    requires row.dept == Some(n.dept) && row.series == Some(n.series)
    ensures row.token in Recipients(rows, n)
  {
  }

  /** The section spelled "None" does not normalise. */
  lemma NoneSpellingNoSection()
    ensures PushSection(Some("None")).None?
  {
    TrimStartFixed("None");
    TrimEndFixed("None");
    assert Strip("None") == "None";
    assert |Upper(Strip("None"))| == 4;
  }

  /** The section-less teacher notice as stored (with section "None") is
      pushed to exactly the devices the intended row (section NULL) is:
      the push service reads "None" as no section. */
  lemma AsWrittenSectionlessNoticePushed(rows: seq<DeviceToken>, p: NoticeService.NoticeSchemas.TeacherNoticeIn,
                                         t: NoticeService.Teacher, id: string, now: int,
                                         embed: string -> Option<Embedding>)
    requires p.sec.None?
    ensures Recipients(rows, NoticeService.TeacherNoticeAsWritten(p, t, id, now, embed))
            == Recipients(rows, NoticeService.TeacherNotice(p, t, id, now, embed))
  {
    var written := NoticeService.TeacherNoticeAsWritten(p, t, id, now, embed);
    var intended := NoticeService.TeacherNotice(p, t, id, now, embed);
    NoneSpellingNoSection();
    assert written.sec == Some("None") && intended.sec.None?;
    RecipientsSameScope(rows, written, intended);
  }

  /** Recipients depend only on the sender role, dept, series and the
      normalised section. */
  lemma RecipientsSameScope(rows: seq<DeviceToken>, n1: Notice, n2: Notice)
    requires n1.createdByRole == n2.createdByRole && n1.dept == n2.dept && n1.series == n2.series
    requires PushSection(n1.sec) == PushSection(n2.sec)
    ensures Recipients(rows, n1) == Recipients(rows, n2)
  {
  }

  /** A token that registers again with a platform that is not exactly
      "android" (say "Android") keeps that spelling, and no push reaches it
      any more. */
  lemma ReRegisteredPlatformMutes(rows: seq<DeviceToken>, id: string, reg: Registration, now: int,
                                  n: Notice)
    requires UniqueTokens(rows) && FindToken(rows, Strip(reg.token)) >= 0
    requires reg.platform != "android"
    ensures Strip(reg.token) !in Recipients(Upserted(rows, id, reg, now), n)
  {
    var r := Upserted(rows, id, reg, now);
    var key := Strip(reg.token);
    var i := FindToken(rows, key);
    UpsertPlatform(rows, id, reg, now);
    forall k | 0 <= k < |r| && k != i ensures r[k].token != key {
      assert rows[k].token != key;
    }
    forall row | row in r && row.token == key ensures row.platform != "android" {
      var k :| 0 <= k < |r| && r[k] == row;
    }
  }

  function Max(a: int, b: int): int
  {
    if a >= b then a else b
  }

  const Ellipsis: char := '…'

  /** `_shorten`: the stripped text when it fits, else its first
      `maxLen - 1` characters, right-stripped, and an ellipsis. */
  function Shorten(text: string, maxLen: int): (r: string)
    ensures maxLen >= 1 ==> |r| <= maxLen
    ensures |Strip(text)| <= maxLen ==> r == Strip(text)
    ensures |Strip(text)| > maxLen ==> (|r| >= 1 && r[|r| - 1] == Ellipsis && r[..|r| - 1] <= Strip(text))
  {
    var cleaned := Strip(text);
    if |cleaned| <= maxLen then cleaned
    else TrimEnd(cleaned[..Max(0, maxLen - 1)]) + [Ellipsis]
  }

  /** Shortening a shortened text changes nothing. */
  lemma ShortenIdempotent(text: string, maxLen: int)
    requires maxLen >= 1
    ensures Shorten(Shorten(text, maxLen), maxLen) == Shorten(text, maxLen)
  {
    var cleaned := Strip(text);
    var r := Shorten(text, maxLen);
    if |cleaned| <= maxLen {
      StripIdempotent(text);
    } else {
      var head := TrimEnd(cleaned[..Max(0, maxLen - 1)]);
      assert r == head + [Ellipsis];
      assert head == [] || head[0] == cleaned[0];
      assert !IsSpace(r[0]) && !IsSpace(r[|r| - 1]);
      TrimStartFixed(r);
      TrimEndFixed(r);
    }
  }

  const TitleLength := 80
  const BodyLength := 200

  /** The push title: "{sender}: {title}" with the notice title shortened
      to 80 characters, "New Notice" standing in for an empty title; no
      prefix when the sender name is empty. */
  function PushTitle(sender: string, noticeTitle: string): (r: string)
    ensures r != ""
    ensures sender != "" ==> (|r| >= |sender| + 2 && r[..|sender| + 2] == sender + ": ")
    ensures sender == "" ==> r == (if noticeTitle == "" then "New Notice" else noticeTitle)
    ensures sender != "" ==> r[|sender| + 2..] == (if noticeTitle == "" then "New Notice" else noticeTitle)
  {
    var base := if noticeTitle == "" then "New Notice" else noticeTitle;
    if sender != "" then sender + ": " + base else base
  }

  /** What one push carries. */
  datatype PushMessage = PushMessage(title: string, body: string, data: map<string, string>)

  /** The push for a notice from a sender: the title as above, the body
      the message shortened to 200 characters, and the data entries the app
      reads. */
  function NoticePush(n: Notice, sender: string): (m: PushMessage)
    ensures |m.body| <= BodyLength
    ensures m.title != ""
    ensures m.body == Shorten(n.message, BodyLength)
    ensures m.title == PushTitle(sender, Shorten(n.title, TitleLength))
    ensures "notice_title" in m.data && m.data["notice_title"] == Shorten(n.title, TitleLength)
    ensures "notice_description" in m.data && m.data["notice_description"] == m.body
    ensures "sender_name" in m.data && m.data["sender_name"] == sender
  {
    var noticeTitle := Shorten(n.title, TitleLength);
    var desc := Shorten(n.message, BodyLength);
    PushMessage(PushTitle(sender, noticeTitle), desc,
      map["type" := "notice", "notice_id" := n.id, "screen" := "Notifications",
          "sender_name" := sender, "notice_title" := noticeTitle, "notice_description" := desc,
          "dept" := n.dept, "series" := n.series, "sec" := if n.sec.Some? then n.sec.value else "",
          "created_by_role" := SenderRoleText(RoleValueOf(n.createdByRole))])
  }

  /** The data entry names of a push. */
  lemma NoticePushKeys(n: Notice, sender: string)
    ensures NoticePush(n, sender).data.Keys
            == {"type", "notice_id", "screen", "sender_name", "notice_title", "notice_description",
                "dept", "series", "sec", "created_by_role"}
  {
  }

  /** The CR columns the sender-name lookup reads. */
  datatype CrNameRow = CrNameRow(fullName: Option<string>, rollNo: Option<string>)

  /** `_get_notice_sender_name`, with the looked-up teacher name and CR row
      as inputs: a teacher's stripped name or "Teacher"; a CR's stripped
      name, else "CR (roll)", else "CR"; "" for anything else. */
  function SenderName(role: string, teacherId: Option<string>, crId: Option<string>,
                      teacherName: Option<string>, crRow: Option<CrNameRow>): (r: string)
    ensures !(role == "teacher" && Truthy(teacherId)) && !(role == "cr" && Truthy(crId)) ==> r == ""
    ensures role == "cr" && Truthy(crId) ==> r != ""
    ensures role == "teacher" && Truthy(teacherId) && r == "" ==> Truthy(teacherName) && Strip(teacherName.value) == ""
    ensures role == "teacher" && Truthy(teacherId) ==>
              r == (if Truthy(teacherName) then Strip(teacherName.value) else "Teacher")
    ensures role == "cr" && Truthy(crId) && crRow.Some? && Truthy(crRow.value.fullName) && Strip(crRow.value.fullName.value) != "" ==>
              r == Strip(crRow.value.fullName.value)
    ensures role == "cr" && Truthy(crId) && crRow.Some? && !(Truthy(crRow.value.fullName) && Strip(crRow.value.fullName.value) != "")
            && Truthy(crRow.value.rollNo) && Strip(crRow.value.rollNo.value) != "" ==>
              r == "CR (" + Strip(crRow.value.rollNo.value) + ")"
    ensures role == "cr" && Truthy(crId) && r != "CR" ==>
              crRow.Some? && ((Truthy(crRow.value.fullName) && r == Strip(crRow.value.fullName.value))
                              || (Truthy(crRow.value.rollNo) && r == "CR (" + Strip(crRow.value.rollNo.value) + ")"))
  {
    if role == "teacher" && Truthy(teacherId) then
      if Truthy(teacherName) then Strip(teacherName.value) else "Teacher"
    else if role == "cr" && Truthy(crId) then
      match crRow
      case None => "CR"
      case Some(row) =>
        if Truthy(row.fullName) && Strip(row.fullName.value) != "" then Strip(row.fullName.value)
        else if Truthy(row.rollNo) && Strip(row.rollNo.value) != "" then "CR (" + Strip(row.rollNo.value) + ")"
        else "CR"
    else ""
  }

  /** A reply body that says the token is gone. */
  predicate MentionsUnregistered(body: string)
  {
    ContainsSub(Lower(body), "unregistered") || ContainsSub(Lower(body), "registration token")
    || ContainsSub(Lower(body), "notregistered")
  }

  /** `_send_fcm_message` after the call: a 2xx status is a success; a
      failure whose body mentions an unregistered token is False; every
      other failure (401 and 403 included) is None. */
  function FcmOutcome(status: int, body: string): (r: Option<bool>)
    ensures r == Some(true) <==> 200 <= status < 300
    ensures r == Some(false) <==> !(200 <= status < 300) && MentionsUnregistered(body)
    ensures r.None? <==> !(200 <= status < 300) && !MentionsUnregistered(body)
  {
    if 200 <= status < 300 then Some(true)
    else if MentionsUnregistered(body) then Some(false)
    else None
  }

  /** Only a token the reply calls unregistered is deactivated; a successful
      send never deactivates, whatever its body says. */
  lemma DeactivateOnlyUnregistered(status: int, body: string)
    ensures FcmOutcome(status, body) == Some(false) ==> status < 200 || status >= 300
    ensures (status == 401 || status == 403) && !MentionsUnregistered(body) ==> FcmOutcome(status, body).None?
  {
  }

  /** The tokens a push run deactivates, given each token's reply. */
  function ToDeactivate(tokens: seq<string>, outcome: string -> Option<bool>): seq<string>
  {
    Filter(tokens, t => outcome(t) == Some(false))
  }

  /** The table after deactivating each token of a list in turn. */
  function DeactivatedAll(rows: seq<DeviceToken>, tokens: seq<string>): (r: seq<DeviceToken>)
    ensures |r| == |rows|
    ensures UniqueTokens(rows) ==> UniqueTokens(r)
    decreases |tokens|
  {
    if tokens == [] then rows
    else Deactivated(DeactivatedAll(rows, tokens[..|tokens| - 1]), tokens[|tokens| - 1])
  }

  /** Deactivating a list of tokens turns off exactly the rows whose token
      is in the list, and changes nothing else about any row. */
  lemma {:induction false} DeactivatedAllRows(rows: seq<DeviceToken>, tokens: seq<string>)
    requires UniqueTokens(rows)
    ensures forall k :: 0 <= k < |rows| ==>
              DeactivatedAll(rows, tokens)[k]
              == (if rows[k].token in tokens then rows[k].(isActive := false) else rows[k])
    decreases |tokens|
  {
    if tokens != [] {
      var init := tokens[..|tokens| - 1];
      DeactivatedAllRows(rows, init);
      assert forall t :: t in tokens <==> t in init || t == tokens[|tokens| - 1];
    }
  }

  /** `_send_notice_push_async`: nothing is sent when nobody matches;
      otherwise every recipient is sent the notice's push and the tokens
      whose reply is False are deactivated, one after the other. */
  method SendNoticePush(table: DeviceTokenTable, n: Notice, sender: string, outcome: string -> Option<bool>)
    returns (sent: seq<string>, message: PushMessage)
    requires table.Valid()
    modifies table
    ensures table.Valid()
    ensures sent == Recipients(old(table.rows), n)
    ensures message == NoticePush(n, sender)
    ensures table.rows == DeactivatedAll(old(table.rows), ToDeactivate(sent, outcome))
  {
    sent := Recipients(table.rows, n);
    message := NoticePush(n, sender);
    DeactivateEach(table, ToDeactivate(sent, outcome));
  }

  /** The deactivation loop: each listed token in turn. */
  method DeactivateEach(table: DeviceTokenTable, gone: seq<string>)
    requires table.Valid()
    modifies table
    ensures table.Valid()
    ensures table.rows == DeactivatedAll(old(table.rows), gone)
  {
    var k := 0;
    while k < |gone|
      invariant 0 <= k <= |gone|
      invariant table.Valid()
      invariant table.rows == DeactivatedAll(old(table.rows), gone[..k])
    {
      table.Deactivate(gone[k]);
      assert gone[..k + 1][..k] == gone[..k];
      k := k + 1;
    }
    assert gone[..|gone|] == gone;
  }

  /** A service-account key with a literal backslash-n. */
  predicate HasEscapedNewline(s: string)
  {
    exists i :: 0 <= i < |s| - 1 && s[i] == '\\' && s[i + 1] == 'n'
  }

  /** `s.replace("\\n", "\n")`, left to right. A text without a literal
      backslash-n is kept as it is. */
  function UnescapeNewlines(s: string): (r: string)
    ensures !HasEscapedNewline(r)
    ensures |r| <= |s|
    ensures |r| > 0 ==> |s| > 0 && (r[0] == s[0] || r[0] == '\n')
    ensures !HasEscapedNewline(s) ==> r == s
  {
    if |s| < 2 then s
    else if s[0] == '\\' && s[1] == 'n' then
      var rest := UnescapeNewlines(s[2..]);
      assert forall i :: 0 < i < |rest| ==> ("\n" + rest)[i] == rest[i - 1];
      "\n" + rest
    else
      var rest := UnescapeNewlines(s[1..]);
      var r := [s[0]] + rest;
      assert forall i :: 0 < i < |r| ==> r[i] == rest[i - 1];
      assert forall i :: 0 <= i < |s| - 2 ==> s[1..][i] == s[i + 1];
      r
  }

  /** One step of the replacement: a leading backslash-n pair becomes a
      newline, any other first character is kept. */
  lemma UnescapeStep(s: string)
    requires |s| >= 1
    ensures |s| >= 2 && s[0] == '\\' && s[1] == 'n' ==> UnescapeNewlines(s) == "\n" + UnescapeNewlines(s[2..])
    ensures !(|s| >= 2 && s[0] == '\\' && s[1] == 'n') ==> UnescapeNewlines(s) == [s[0]] + UnescapeNewlines(s[1..])
  {
    if |s| < 2 {
      assert s[1..] == [] && s == [s[0]];
    }
  }

  /** Each literal backslash-n becomes one newline, and the text on either
      side is unescaped on its own: no match straddles the replaced pair. */
  lemma {:induction false} UnescapeSplice(a: string, b: string)
    ensures UnescapeNewlines(a + "\\n" + b) == UnescapeNewlines(a) + "\n" + UnescapeNewlines(b)
    decreases |a|
  {
    var s := a + "\\n" + b;
    if a == [] {
      assert s == "\\n" + b && s[2..] == b;
      UnescapeStep(s);
    } else if |a| >= 2 && a[0] == '\\' && a[1] == 'n' {
      assert s[0] == '\\' && s[1] == 'n' && s[2..] == a[2..] + "\\n" + b;
      UnescapeStep(s);
      UnescapeStep(a);
      UnescapeSplice(a[2..], b);
      Regroup("\n", UnescapeNewlines(a[2..]), UnescapeNewlines(b));
    } else {
      assert s[0] == a[0] && (s[1] != 'n' || s[0] != '\\');
      assert s[1..] == a[1..] + "\\n" + b;
      UnescapeStep(s);
      UnescapeStep(a);
      UnescapeSplice(a[1..], b);
      Regroup([a[0]], UnescapeNewlines(a[1..]), UnescapeNewlines(b));
    }
  }

  /** `p + (x + "\n" + y) == (p + x) + "\n" + y`. */
  lemma Regroup(p: string, x: string, y: string)
    ensures p + (x + "\n" + y) == (p + x) + "\n" + y
  {
  }

  /** The number of quote characters `s` starts with. */
  function LeadingQuotes(s: string): (n: nat)
    ensures n <= |s|
    ensures forall k :: 0 <= k < n ==> s[k] == '"'
    ensures n < |s| ==> s[n] != '"'
  {
    if |s| > 0 && s[0] == '"' then
      var n := 1 + LeadingQuotes(s[1..]);
      assert forall k :: 0 < k < n ==> s[k] == s[1..][k - 1];
      n
    else 0
  }

  /** The number of quote characters `s` ends with. */
  function TrailingQuotes(s: string): (n: nat)
    ensures n <= |s|
    ensures forall k :: |s| - n <= k < |s| ==> s[k] == '"'
    ensures n < |s| ==> s[|s| - n - 1] != '"'
  {
    if |s| > 0 && s[|s| - 1] == '"' then
      var n := 1 + TrailingQuotes(s[..|s| - 1]);
      assert forall k :: |s| - n <= k < |s| - 1 ==> s[k] == s[..|s| - 1][k];
      n
    else 0
  }

  /** `.strip('"')`: the slice of `s` between its leading and its trailing
      quotes; what is left neither starts nor ends with a quote. */
  function StripQuotes(s: string): (r: string)
    ensures |r| <= |s|
    ensures r == [] || (r[0] != '"' && r[|r| - 1] != '"')
    ensures LeadingQuotes(s) + |r| <= |s| && r == s[LeadingQuotes(s)..LeadingQuotes(s) + |r|]
    ensures forall k :: LeadingQuotes(s) + |r| <= k < |s| ==> s[k] == '"'
  {
    var i := LeadingQuotes(s);
    var t := s[i..];
    var r := t[..|t| - TrailingQuotes(t)];
    assert forall k :: i + |r| <= k < |s| ==> s[k] == t[k - i];
    r
  }

  /** The private key after `_normalize_service_account_info`: stripped of
      whitespace and quotes, and its literal backslash-n sequences turned
      into newlines, but only when it holds no real newline. */
  function NormalizedKey(pk: string): (r: string)
    ensures '\n' !in StripQuotes(Strip(pk)) ==> r == UnescapeNewlines(StripQuotes(Strip(pk)))
    ensures '\n' !in StripQuotes(Strip(pk)) ==> !HasEscapedNewline(r)
    ensures '\n' in StripQuotes(Strip(pk)) ==> r == StripQuotes(Strip(pk))
  {
    var k := StripQuotes(Strip(pk));
    if HasEscapedNewline(k) && '\n' !in k then UnescapeNewlines(k) else k
  }

  /** `_normalize_service_account_info`: only a text "private_key" entry of
      an object is rewritten. */
  function NormalizeServiceAccount(info: JValue): (r: JValue)
    ensures !info.JObject? ==> r == info
    ensures info.JObject? ==> r.JObject? && r.fields.Keys == info.fields.Keys
    ensures info.JObject? ==> forall k :: k in info.fields && k != "private_key" ==> r.fields[k] == info.fields[k]
    ensures info.JObject? && "private_key" in info.fields && info.fields["private_key"].JStr? ==>
              r.fields["private_key"] == JStr(NormalizedKey(info.fields["private_key"].s))
    ensures info.JObject? && ("private_key" !in info.fields || !info.fields["private_key"].JStr?) ==> r == info
  {
    if info.JObject? && "private_key" in info.fields && info.fields["private_key"].JStr? then
      JObject(info.fields["private_key" := JStr(NormalizedKey(info.fields["private_key"].s))])
    else info
  }
}
