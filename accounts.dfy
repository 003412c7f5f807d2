/** The account routers of students, teachers and CRs: the in-memory OTP
    store with its masking and expiry, login, the forgotten-password reset
    flow, profile setup, refresh and logout. Each route is a function from
    the table and the store before the request to the reply and the table
    and store after it; `AccountRouter` holds the state and runs the routes
    as methods. Clocks, random OTP codes, `secrets` tokens, hashing,
    sending mail and JWT decoding are parameters. */
module Accounts {

  import opened Common
  import opened Json
  import opened Text
  import opened Auth
  import opened PasswordUpdate

  /** An entry of a router's `otp_store`; times are seconds. */
  datatype OtpEntry = OtpEntry(otp: string, expires: int)

  type OtpStore = map<string, OtpEntry>

  const OtpLifetime := 10 * 60
  const RefreshLifetime := 30 * 24 * 60 * 60

  // ---------------------------------------------------------------------
  // The OTP store

  function Stars(n: nat): (r: string)
    ensures |r| == n && forall i :: 0 <= i < n ==> r[i] == '*'
  {
    if n == 0 then "" else Stars(n - 1) + "*"
  }

  /** `_mask_otp`: "**" for an OTP shorter than two characters; otherwise
      every character but the last becomes "*". */
  function MaskOtp(otp: string): (r: string)
    ensures |otp| < 2 ==> r == "**"
    ensures |otp| >= 2 ==> |r| == |otp| && r[|r| - 1] == otp[|otp| - 1]
                           && forall i :: 0 <= i < |r| - 1 ==> r[i] == '*'
  {
    if |otp| < 2 then "**" else Stars(|otp| - 1) + [otp[|otp| - 1]]
  }

  /** A mask shows nothing but the length and the last character. */
  lemma MaskShowsOnlyLengthAndLast(a: string, b: string)
    requires |a| == |b| >= 2 && a[|a| - 1] == b[|b| - 1]
    ensures MaskOtp(a) == MaskOtp(b)
  {
    assert forall i :: 0 <= i < |a| ==> MaskOtp(a)[i] == MaskOtp(b)[i];
  }

  /** A logged entry of `sanitize_otp_store`. */
  datatype MaskedEntry = MaskedEntry(otp: string, expires: Option<string>)

  /** `sanitize_otp_store`: the same emails, each OTP masked and each expiry
      in ISO form. */
  function Sanitized(store: OtpStore, iso: int -> string): (r: map<string, MaskedEntry>)
    ensures r.Keys == store.Keys
    ensures forall e :: e in r ==> r[e].otp == MaskOtp(store[e].otp) && r[e].expires == Some(iso(store[e].expires))
  {
    map e | e in store :: MaskedEntry(MaskOtp(store[e].otp), Some(iso(store[e].expires)))
  }

  /** No digit OTP is logged as itself: its masked form starts with "*". */
  lemma SanitizedHidesOtps(store: OtpStore, iso: int -> string)
    requires forall e :: e in store ==> store[e].otp != "" && IsDigitStr(store[e].otp)
    ensures forall e :: e in store ==> Sanitized(store, iso)[e].otp != store[e].otp
  {
    forall e | e in store
      ensures Sanitized(store, iso)[e].otp != store[e].otp
    {
      var m := Sanitized(store, iso)[e].otp;
      assert m[0] == '*';
      assert IsDigit(store[e].otp[0]);
    }
  }

  /** `cleanup_expired_otps`: exactly the entries that expired before `now`
      are removed; the rest are kept as they are. */
  function Cleaned(store: OtpStore, now: int): (r: OtpStore)
    ensures forall e :: e in r <==> e in store && store[e].expires >= now
    ensures forall e :: e in r ==> r[e] == store[e]
  {
    map e | e in store && store[e].expires >= now :: store[e]
  }

  /** Cleaning again at the same time or earlier removes nothing more. */
  lemma CleanedSettles(store: OtpStore, now: int, earlier: int)
    requires earlier <= now
    ensures Cleaned(Cleaned(store, now), earlier) == Cleaned(store, now)
  {
  }

  // ---------------------------------------------------------------------
  // Tables

  /** A profile column, NULL when it is not set. */
  function Col(a: Account, f: Field): JValue
  {
    if f in a.profile then a.profile[f] else JNull
  }

  /** `.filter(Model.<f> == v).first()`. */
  function FindBy(rows: seq<Account>, f: Field, v: JValue): (i: int)
    ensures -1 <= i < |rows|
    ensures i >= 0 ==> Col(rows[i], f) == v && forall k :: 0 <= k < i ==> Col(rows[k], f) != v
    ensures i == -1 <==> forall k :: 0 <= k < |rows| ==> Col(rows[k], f) != v
  {
    if rows == [] then -1
    else if Col(rows[0], f) == v then 0
    else
      var j := FindBy(rows[1..], f, v);
      assert forall k :: 1 <= k < |rows| ==> rows[k] == rows[1..][k - 1];
      if j == -1 then -1 else j + 1
  }

  /** `.filter(Model.<f> == v, Model.id != id).first()`. */
  function FindOther(rows: seq<Account>, f: Field, v: JValue, id: string): (i: int)
    ensures -1 <= i < |rows|
    ensures i >= 0 ==> Col(rows[i], f) == v && rows[i].id != id
    ensures i == -1 <==> forall k :: 0 <= k < |rows| ==> Col(rows[k], f) != v || rows[k].id == id
  {
    if rows == [] then -1
    else if Col(rows[0], f) == v && rows[0].id != id then 0
    else
      var j := FindOther(rows[1..], f, v, id);
      assert forall k :: 1 <= k < |rows| ==> rows[k] == rows[1..][k - 1];
      if j == -1 then -1 else j + 1
  }

  /** `.filter(Model.refresh_token_id == h).first()`. */
  function FindRefresh(rows: seq<Account>, h: string): (i: int)
    ensures -1 <= i < |rows|
    ensures i >= 0 ==> rows[i].refreshId == Some(h)
    ensures i == -1 <==> forall k :: 0 <= k < |rows| ==> rows[k].refreshId != Some(h)
  {
    if rows == [] then -1
    else if rows[0].refreshId == Some(h) then 0
    else
      var j := FindRefresh(rows[1..], h);
      assert forall k :: 1 <= k < |rows| ==> rows[k] == rows[1..][k - 1];
      if j == -1 then -1 else j + 1
  }

  /** The columns each table declares unique, besides the neura id. */
  function UniqueFields(k: Kind): set<Field>
  {
    match k
    case StudentKind => {RollNo, Email}
    case TeacherKind => {Email}
    case CrKind => {RollNo, MobileNo, Email}
  }

  /** No two rows share a non-NULL value of a unique column. */
  predicate UniqueColumns(k: Kind, rows: seq<Account>)
  {
    forall i, j, f :: 0 <= i < j < |rows| && f in UniqueFields(k) && Col(rows[i], f) != JNull
                      ==> Col(rows[i], f) != Col(rows[j], f)
  }

  predicate UniqueNeura(rows: seq<Account>)
  {
    forall i, j :: 0 <= i < j < |rows| ==> rows[i].neuraId != rows[j].neuraId
  }

  predicate UniqueRefreshIds(rows: seq<Account>)
  {
    forall i, j :: 0 <= i < j < |rows| && rows[i].refreshId.Some? ==> rows[i].refreshId != rows[j].refreshId
  }

  /** With unique neura ids the lookup by id finds the row that has it. */
  lemma FindNeuraOfRow(rows: seq<Account>, i: int)
    requires UniqueNeura(rows) && 0 <= i < |rows|
    ensures FindNeura(rows, JStr(rows[i].neuraId)) == i
  {
  }

  /** Changing one row without touching neura ids changes no lookup by id. */
  lemma FindNeuraKept(rows: seq<Account>, i: int, a: Account, v: JValue)
    requires 0 <= i < |rows| && a.neuraId == rows[i].neuraId
    ensures FindNeura(rows[i := a], v) == FindNeura(rows, v)
  {
    var r := rows[i := a];
    var n := FindNeura(rows, v);
    if n >= 0 {
      assert r[n].neuraId == rows[n].neuraId;
      assert forall k :: 0 <= k < n ==> r[k].neuraId == rows[k].neuraId;
    } else {
      assert forall k :: 0 <= k < |r| ==> r[k].neuraId == rows[k].neuraId;
    }
  }

  /** A lookup by a column sees only that column. */
  lemma {:induction false} FindBySameColumn(rows: seq<Account>, other: seq<Account>, f: Field, v: JValue)
    requires |rows| == |other| && forall k :: 0 <= k < |rows| ==> Col(rows[k], f) == Col(other[k], f)
    ensures FindBy(rows, f, v) == FindBy(other, f, v)
  {
    if rows != [] {
      FindBySameColumn(rows[1..], other[1..], f, v);
    }
  }

  /** Likewise for lookups by a profile column the change does not touch. */
  lemma FindByKept(rows: seq<Account>, i: int, a: Account, f: Field, v: JValue)
    requires 0 <= i < |rows| && Col(a, f) == Col(rows[i], f)
    ensures FindBy(rows[i := a], f, v) == FindBy(rows, f, v)
  {
    FindBySameColumn(rows[i := a], rows, f, v);
  }

  /** The table and the OTP store of one router. */
  /** Replacing a row by one with the same neura id keeps the ids unique. */
  lemma SameNeuraIds(rows: seq<Account>, i: nat, b: Account)
    requires i < |rows| && UniqueNeura(rows) && b.neuraId == rows[i].neuraId
    ensures UniqueNeura(rows[i := b])
  {
    var r := rows[i := b];
    assert forall j :: 0 <= j < |rows| ==> r[j].neuraId == rows[j].neuraId;
  }

  datatype Db = Db(rows: seq<Account>, otps: OtpStore)

  /** A route's reply and the state it leaves. */
  datatype Step<T> = Step(result: Result<T>, db: Db)

  // ---------------------------------------------------------------------
  // Login

  function IdInvalid(k: Kind): Error
  {
    match k
    case StudentKind => HttpError(400, "Neura ID invalid")
    case TeacherKind => HttpError(400, "Neura Teacher ID invalid")
    case CrKind => HttpError(400, "Neura CR ID invalid")
  }

  const PasswordInvalid := HttpError(400, "Password invalid")

  /** The teacher and CR login: an unknown id or a password that does not
      verify is refused; otherwise the row gets the fresh setup token, which
      is returned. */
  function TokenLogin(k: Kind, db: Db, neuraId: string, password: string,
                      verify: (string, Option<string>) -> bool, setupToken: string): (s: Step<string>)
    ensures var i := FindNeura(db.rows, JStr(neuraId));
            && (i == -1 ==> s == Step(Err(IdInvalid(k)), db))
            && (i >= 0 && !verify(password, db.rows[i].password) ==> s == Step(Err(PasswordInvalid), db))
            && (s.result.Ok? <==> i >= 0 && verify(password, db.rows[i].password))
            && (s.result.Ok? ==> s == Step(Ok(setupToken), Db(db.rows[i := db.rows[i].(setupToken := Some(setupToken))], db.otps)))
  {
    var i := FindNeura(db.rows, JStr(neuraId));
    if i < 0 then Step(Err(IdInvalid(k)), db)
    else if !verify(password, db.rows[i].password) then Step(Err(PasswordInvalid), db)
    else Step(Ok(setupToken), Db(db.rows[i := db.rows[i].(setupToken := Some(setupToken))], db.otps))
  }

  const LoginSuccessful := "Login successful"

  /** The student login as written: the stored password is compared with
      the submitted one as plain text, and no token is issued. */
  function StudentLoginAsWritten(rows: seq<Account>, neuraId: string, password: string): (r: Result<string>)
    ensures var i := FindNeura(rows, JStr(neuraId));
            && (i == -1 ==> r == Err(IdInvalid(StudentKind)))
            && (r.Ok? <==> i >= 0 && rows[i].password == Some(password))
            && (r.Ok? ==> r.value == LoginSuccessful)
  {
    var i := FindNeura(rows, JStr(neuraId));
    if i < 0 then Err(IdInvalid(StudentKind))
    else if rows[i].password != Some(password) then Err(PasswordInvalid)
    else Ok(LoginSuccessful)
  }

  /** The student login with the password verified against the stored
      hash, as the other logins and the reset flow expect. */
  function StudentLogin(rows: seq<Account>, neuraId: string, password: string,
                        verify: (string, Option<string>) -> bool): (r: Result<string>)
    ensures var i := FindNeura(rows, JStr(neuraId));
            && (i == -1 ==> r == Err(IdInvalid(StudentKind)))
            && (r.Ok? <==> i >= 0 && verify(password, rows[i].password))
            && (r.Ok? ==> r.value == LoginSuccessful)
  {
    var i := FindNeura(rows, JStr(neuraId));
    if i < 0 then Err(IdInvalid(StudentKind))
    else if !verify(password, rows[i].password) then Err(PasswordInvalid)
    else Ok(LoginSuccessful)
  }

  // ---------------------------------------------------------------------
  // Forgotten password

  const EmailNotFound := HttpError(400, "Email not found")
  const MailFailed := HttpError(500, "Failed to send OTP email")

  /** `forget_password`: an unknown email is refused and nothing changes;
      otherwise expired OTPs are cleaned up and the four-digit code is stored
      for the email, replacing any earlier one, for ten minutes. The code is
      stored before the mail is sent, so a failed send still leaves it. */
  function Forget(db: Db, email: string, code: int, now: int, mailFailed: bool): (s: Step<()>)
    requires 1000 <= code <= 9999
    ensures s.db.rows == db.rows
    ensures FindBy(db.rows, Email, JStr(email)) == -1 <==> s == Step(Err(EmailNotFound), db)
    ensures FindBy(db.rows, Email, JStr(email)) >= 0 ==>
              s.db.otps == Cleaned(db.otps, now)[email := OtpEntry(IntToString(code), now + OtpLifetime)]
              && (s.result.Ok? <==> !mailFailed)
              && (s.result.Err? ==> s.result.error == MailFailed)
  {
    if FindBy(db.rows, Email, JStr(email)) < 0 then Step(Err(EmailNotFound), db)
    else
      var otps := Cleaned(db.otps, now)[email := OtpEntry(IntToString(code), now + OtpLifetime)];
      if mailFailed then Step(Err(MailFailed), Db(db.rows, otps)) else Step(Ok(()), Db(db.rows, otps))
  }

  /** `ResetPasswordSchema`. */
  datatype ResetRequest = ResetRequest(email: string, otp: string, newPassword: string, confirm: string)

  const InvalidOtp := HttpError(400, "Invalid OTP")
  const OtpExpired := HttpError(400, "OTP expired")
  const ConfirmMismatch := HttpError(400, "Confirm Password does not match")

  /** The store holds the request's OTP for its email. */
  predicate OtpMatches(store: OtpStore, q: ResetRequest)
  {
    q.email in store && store[q.email].otp == q.otp
  }

  /** `reset_password`. The store is cleaned up at `cleanupNow` and the
      expiry compared at `checkNow`, the two clock readings of the source.
      In order: an unknown email; no OTP or a different one; an expired OTP
      (which is deleted); a confirmation that differs (the OTP is kept); then
      the first row with the email gets the hash of the new password and the
      OTP is deleted. */
  function Reset(db: Db, q: ResetRequest, hash: string -> string, cleanupNow: int, checkNow: int): (s: Step<()>)
    ensures FindBy(db.rows, Email, JStr(q.email)) == -1 ==> s == Step(Err(EmailNotFound), db)
    ensures FindBy(db.rows, Email, JStr(q.email)) >= 0 && !OtpMatches(Cleaned(db.otps, cleanupNow), q)
            ==> s == Step(Err(InvalidOtp), Db(db.rows, Cleaned(db.otps, cleanupNow)))
    ensures FindBy(db.rows, Email, JStr(q.email)) >= 0 && OtpMatches(Cleaned(db.otps, cleanupNow), q)
            && checkNow > Cleaned(db.otps, cleanupNow)[q.email].expires
            ==> s == Step(Err(OtpExpired), Db(db.rows, Cleaned(db.otps, cleanupNow) - {q.email}))
    ensures FindBy(db.rows, Email, JStr(q.email)) >= 0 && OtpMatches(Cleaned(db.otps, cleanupNow), q)
            && checkNow <= Cleaned(db.otps, cleanupNow)[q.email].expires && q.newPassword != q.confirm
            ==> s == Step(Err(ConfirmMismatch), Db(db.rows, Cleaned(db.otps, cleanupNow)))
    ensures s.result.Ok? <==> FindBy(db.rows, Email, JStr(q.email)) >= 0 && OtpMatches(Cleaned(db.otps, cleanupNow), q)
                              && checkNow <= Cleaned(db.otps, cleanupNow)[q.email].expires && q.newPassword == q.confirm
    ensures s.result.Ok? ==>
              var i := FindBy(db.rows, Email, JStr(q.email));
              s.db == Db(db.rows[i := db.rows[i].(password := Some(hash(q.newPassword)))],
                         Cleaned(db.otps, cleanupNow) - {q.email})
  {
    var i := FindBy(db.rows, Email, JStr(q.email));
    if i < 0 then Step(Err(EmailNotFound), db)
    else
      var store := Cleaned(db.otps, cleanupNow);
      if !OtpMatches(store, q) then Step(Err(InvalidOtp), Db(db.rows, store))
      else if checkNow > store[q.email].expires then Step(Err(OtpExpired), Db(db.rows, store - {q.email}))
      else if q.newPassword != q.confirm then Step(Err(ConfirmMismatch), Db(db.rows, store))
      else Step(Ok(()), Db(db.rows[i := db.rows[i].(password := Some(hash(q.newPassword)))], store - {q.email}))
  }

  /** With a single clock reading the "OTP expired" branch cannot be taken:
      the cleanup already removed every entry that expired before it. */
  lemma SingleReadingNeverExpired(db: Db, q: ResetRequest, hash: string -> string, now: int)
    ensures Reset(db, q, hash, now, now).result != Err(OtpExpired)
  {
    var store := Cleaned(db.otps, now);
    if q.email in store {
      assert store[q.email].expires >= now;
    }
  }

  /** An OTP is used once: the same request again is refused as invalid. */
  lemma {:induction false} ResetIsSingleUse(db: Db, q: ResetRequest, hash: string -> string,
                                            t1: int, t2: int, t3: int, t4: int)
    requires Reset(db, q, hash, t1, t2).result.Ok?
    ensures Reset(Reset(db, q, hash, t1, t2).db, q, hash, t3, t4).result == Err(InvalidOtp)
  {
    var i := FindBy(db.rows, Email, JStr(q.email));
    var after := Reset(db, q, hash, t1, t2).db;
    FindByKept(db.rows, i, after.rows[i], Email, JStr(q.email));
    assert q.email !in after.otps;
  }

  /** A mistyped confirmation keeps the OTP: the corrected request, still
      within the expiry, resets the password. */
  lemma {:induction false} RetryAfterMismatch(db: Db, q: ResetRequest, hash: string -> string,
                                              t1: int, t2: int, t3: int, t4: int)
    requires Reset(db, q, hash, t1, t2).result == Err(ConfirmMismatch)
    requires t1 <= t3 <= t4 <= Cleaned(db.otps, t1)[q.email].expires
    ensures Reset(Reset(db, q, hash, t1, t2).db, q.(confirm := q.newPassword), hash, t3, t4).result.Ok?
  {
    var store := Cleaned(db.otps, t1);
    assert q.email in store && store[q.email].otp == q.otp;
    assert Cleaned(store, t3)[q.email] == store[q.email];
  }

  /** The whole flow: the code mailed by a successful request, entered
      within ten minutes with a matching confirmation, resets the password of
      the account with that email and is then gone. */
  lemma {:induction false} ForgetThenReset(db: Db, email: string, code: int, now: int,
                                           newPassword: string, hash: string -> string, t1: int, t2: int)
    requires 1000 <= code <= 9999 && Forget(db, email, code, now, false).result.Ok?
    requires now <= t1 <= t2 <= now + OtpLifetime
    ensures var q := ResetRequest(email, IntToString(code), newPassword, newPassword);
            var s := Reset(Forget(db, email, code, now, false).db, q, hash, t1, t2);
            var i := FindBy(db.rows, Email, JStr(email));
            && s.result.Ok? && i >= 0
            && s.db.rows == db.rows[i := db.rows[i].(password := Some(hash(newPassword)))]
            && email !in s.db.otps
  {
    var mid := Forget(db, email, code, now, false).db;
    assert mid.otps[email] == OtpEntry(IntToString(code), now + OtpLifetime);
    assert Cleaned(mid.otps, t1)[email] == mid.otps[email];
  }

  // ---------------------------------------------------------------------
  // Profile setup

  /** The columns each profile-setup route copies from the request. */
  function Updatable(k: Kind): seq<Field>
  {
    match k
    case StudentKind => [FullName, RollNo, Dept, Section, Series, MobileNo, Email, ProfileImage]
    case TeacherKind => [FullName, Designation, Dept, JoiningYear, MobileNo, Email, ProfileImage]
    case CrKind => [FullName, RollNo, Dept, Section, Series, MobileNo, Email, ProfileImage, CrNo]
  }

  /** The fields of a list. */
  function FieldSet(fs: seq<Field>): (r: set<Field>)
    ensures forall f :: f in r <==> f in fs
  {
    if fs == [] then {} else FieldSet(fs[..|fs| - 1]) + {fs[|fs| - 1]}
  }

  /** A request field that is not None. */
  predicate Given(payload: map<Field, JValue>, f: Field)
  {
    f in payload && !payload[f].JNull?
  }

  /** The profile after the `setattr` loop over the fields in `fs`. */
  function Overlay(profile: map<Field, JValue>, payload: map<Field, JValue>, fs: set<Field>): (r: map<Field, JValue>)
    ensures forall f :: f in fs && Given(payload, f) ==> f in r && r[f] == payload[f]
    ensures forall f :: !(f in fs && Given(payload, f)) ==> (f in r <==> f in profile) && (f in r ==> r[f] == profile[f])
  {
    map f | f in profile.Keys + (set g | g in fs && Given(payload, g)) ::
      if f in fs && Given(payload, f) then payload[f] else profile[f]
  }

  lemma OverlayStep(profile: map<Field, JValue>, payload: map<Field, JValue>, fs: set<Field>, f: Field)
    ensures Overlay(profile, payload, fs + {f})
            == if Given(payload, f) then Overlay(profile, payload, fs)[f := payload[f]] else Overlay(profile, payload, fs)
  {
  }

  /** The checks each profile-setup route makes, in order, for a value
      already held by another row. */
  function ClashChecks(k: Kind): seq<Field>
  {
    match k
    case StudentKind => []
    case TeacherKind => [Email, MobileNo]
    case CrKind => [RollNo, Email, MobileNo]
  }

  function ClashError(k: Kind, f: Field): Error
  {
    match (k, f)
    case (TeacherKind, Email) => HttpError(409, "Email already used by another teacher")
    case (TeacherKind, _) => HttpError(409, "Mobile number already used by another teacher")
    case (_, RollNo) => HttpError(409, "Roll no already used by another CR")
    case (_, Email) => HttpError(409, "Email already used by another CR")
    case (_, _) => HttpError(409, "Mobile number already used")
  }

  /** The request sets a truthy new value for `f` that another row holds. */
  predicate Clashes(rows: seq<Account>, i: int, payload: map<Field, JValue>, f: Field)
    requires 0 <= i < |rows|
  {
    f in payload && !Falsy(payload[f]) && payload[f] != Col(rows[i], f)
    && FindOther(rows, f, payload[f], rows[i].id) >= 0
  }

  /** The first field of `fs` that clashes. */
  function FirstClash(rows: seq<Account>, i: int, payload: map<Field, JValue>, fs: seq<Field>): (r: Option<Field>)
    requires 0 <= i < |rows|
    ensures r.None? <==> forall j :: 0 <= j < |fs| ==> !Clashes(rows, i, payload, fs[j])
    ensures r.Some? ==> r.value in fs && Clashes(rows, i, payload, r.value)
  {
    if fs == [] then None
    else if Clashes(rows, i, payload, fs[0]) then Some(fs[0])
    else
      assert forall j :: 1 <= j < |fs| ==> fs[j] == fs[1..][j - 1];
      FirstClash(rows, i, payload, fs[1..])
  }

  /** The new values a route draws: the time, a refresh token and its id,
      and the access-token lifetime in minutes. */
  datatype Issue = Issue(now: int, refreshToken: string, refreshId: string, accessMinutes: int)

  /** The claims of the access token issued for a row. */
  function AccessFor(k: Kind, a: Account, n: Issue): Claims
  {
    AccessClaims(IssuedClaims(k, a), n.now, Some(n.accessMinutes * 60), n.accessMinutes)
  }

  /** A row after profile setup: the given updatable fields copied, the
      setup token cleared, a new refresh token for thirty days. */
  function SetUp(k: Kind, a: Account, payload: map<Field, JValue>, n: Issue, hashRefresh: string -> string)
    : (b: Account)
    ensures forall f :: Col(b, f) == if f in Updatable(k) && Given(payload, f) then payload[f] else Col(a, f)
    ensures !Truthy(b.setupToken)
    ensures b.refreshId == Some(n.refreshId) && b.refreshHash == Some(hashRefresh(n.refreshToken))
    ensures b.refreshExpiresAt == Some(n.now + RefreshLifetime)
    ensures b.id == a.id && b.neuraId == a.neuraId && b.password == a.password && b.tokenVersion == a.tokenVersion
  {
    a.(profile := Overlay(a.profile, payload, FieldSet(Updatable(k))),
       setupToken := if Truthy(a.setupToken) then None else a.setupToken,
       refreshId := Some(n.refreshId), refreshHash := Some(hashRefresh(n.refreshToken)),
       refreshExpiresAt := Some(n.now + RefreshLifetime))
  }

  /** The tokens a successful profile setup returns. */
  datatype SetupReply = SetupReply(access: Claims, refreshToken: string, refreshId: string)

  const UniqueFailed := HttpError(409, "Unique constraint failed")

  /** The teacher and CR profile setup for the row the dependency resolved:
      a clash is refused with its own 409; otherwise the row is set up, and
      the commit fails with 409 when a unique column would repeat. */
  function ProfileSetup(k: Kind, db: Db, i: int, payload: map<Field, JValue>, n: Issue, hashRefresh: string -> string)
    : (s: Step<SetupReply>)
    requires 0 <= i < |db.rows|
    ensures FirstClash(db.rows, i, payload, ClashChecks(k)).Some? ==>
              s == Step(Err(ClashError(k, FirstClash(db.rows, i, payload, ClashChecks(k)).value)), db)
    ensures var b := SetUp(k, db.rows[i], payload, n, hashRefresh);
            FirstClash(db.rows, i, payload, ClashChecks(k)).None? ==>
              if UniqueColumns(k, db.rows[i := b])
              then s == Step(Ok(SetupReply(AccessFor(k, b, n), n.refreshToken, n.refreshId)), Db(db.rows[i := b], db.otps))
              else s == Step(Err(UniqueFailed), db)
    ensures s.result.Ok? ==> UniqueColumns(k, s.db.rows)
  {
    var clash := FirstClash(db.rows, i, payload, ClashChecks(k));
    if clash.Some? then Step(Err(ClashError(k, clash.value)), db)
    else
      var b := SetUp(k, db.rows[i], payload, n, hashRefresh);
      if !UniqueColumns(k, db.rows[i := b]) then Step(Err(UniqueFailed), db)
      else Step(Ok(SetupReply(AccessFor(k, b, n), n.refreshToken, n.refreshId)), Db(db.rows[i := b], db.otps))
  }

  /** The reply and the table of a successful profile setup. */
  lemma SetupSucceeded(k: Kind, db: Db, i: int, payload: map<Field, JValue>, n: Issue, hashRefresh: string -> string)
    requires 0 <= i < |db.rows| && ProfileSetup(k, db, i, payload, n, hashRefresh).result.Ok?
    ensures var b := SetUp(k, db.rows[i], payload, n, hashRefresh);
            ProfileSetup(k, db, i, payload, n, hashRefresh)
            == Step(Ok(SetupReply(AccessFor(k, b, n), n.refreshToken, n.refreshId)), Db(db.rows[i := b], db.otps))
  {
  }

  /** The access token returned by profile setup is accepted by
      `get_current_*` for the same row, until the version changes. */
  lemma SetupTokenWorks(k: Kind, db: Db, i: int, payload: map<Field, JValue>, n: Issue,
                        hashRefresh: string -> string, token: string, decode: string -> Option<Claims>)
    requires 0 <= i < |db.rows| && UniqueNeura(db.rows) && db.rows[i].neuraId != "" && token != ""
    requires ProfileSetup(k, db, i, payload, n, hashRefresh).result.Ok?
    requires decode(token) == Some(ProfileSetup(k, db, i, payload, n, hashRefresh).result.value.access)
    ensures CurrentUser(k, Some(Credentials(Some("Bearer"), Some(token))), decode,
                        ProfileSetup(k, db, i, payload, n, hashRefresh).db.rows) == Ok(i)
  {
    var b := SetUp(k, db.rows[i], payload, n, hashRefresh);
    SetupSucceeded(k, db, i, payload, n, hashRefresh);
    var rows := db.rows[i := b];
    SignedClaimsAdmitted(k, b, n.now, Some(n.accessMinutes * 60), n.accessMinutes);
    FindNeuraOfRow(db.rows, i);
    FindNeuraKept(db.rows, i, b, JStr(b.neuraId));
    BearerAccepted(k, token, decode, rows, i);
  }

  const StudentNotFound := HttpError(400, "Student not found")

  /** The student profile setup: the row is found by the neura id in the
      request (no token is needed); the given fields are copied; a repeated
      unique column makes the commit fail. */
  function StudentSetup(db: Db, neuraId: string, payload: map<Field, JValue>): (s: Step<Account>)
    ensures FindNeura(db.rows, JStr(neuraId)) == -1 ==> s == Step(Err(StudentNotFound), db)
    ensures s.result.Ok? ==>
              var i := FindNeura(db.rows, JStr(neuraId));
              && i >= 0 && s.db == Db(db.rows[i := s.result.value], db.otps)
              && (forall f :: Col(s.result.value, f)
                    == if f in Updatable(StudentKind) && Given(payload, f) then payload[f] else Col(db.rows[i], f))
              && s.result.value.(profile := db.rows[i].profile) == db.rows[i]
              && UniqueColumns(StudentKind, s.db.rows)
    ensures s.result.Err? ==> s.db == db
  {
    var i := FindNeura(db.rows, JStr(neuraId));
    if i < 0 then Step(Err(StudentNotFound), db)
    else
      var a := db.rows[i];
      var b := a.(profile := Overlay(a.profile, payload, FieldSet(Updatable(StudentKind))));
      if !UniqueColumns(StudentKind, db.rows[i := b]) then Step(Err(IntegrityError("students unique")), db)
      else Step(Ok(b), Db(db.rows[i := b], db.otps))
  }

  // ---------------------------------------------------------------------
  // Refresh and logout

  /** A strict JWT decode: the claims, or the kind of failure. */
  datatype Decoded = Unexpired(claims: Claims) | ExpiredToken | InvalidToken

  /** The three headers of a refresh request. */
  datatype RefreshRequest = RefreshRequest(bearer: Option<string>, refreshId: string, accessToken: string)

  /** The token functions a refresh uses. */
  datatype RefreshKeys = RefreshKeys(strict: string -> Decoded, lax: string -> Option<Claims>,
                                     verifyRefresh: (string, string) -> bool, hashRefresh: string -> string)

  /** The new access token, and the new refresh token when it rotates. */
  datatype RefreshReply = RefreshReply(access: Claims, rotated: Option<(string, string)>)

  const HeaderMissing := HttpError(401, "Authorization header missing")
  const NotExpiredYet := HttpError(400, "Access token not expired yet")
  const InvalidAccess := HttpError(401, "Invalid access token")
  const InvalidRefresh := HttpError(401, "Invalid refresh token")
  const RefreshExpired := HttpError(401, "Refresh token expired")
  const TokenMismatch := HttpError(401, "Token mismatch")
  const TokenRevoked := HttpError(401, "Token revoked")

  /** The checks of a refresh, in order, up to the row they accept. */
  function RefreshCheck(k: Kind, rows: seq<Account>, q: RefreshRequest, keys: RefreshKeys, now: int): (r: Result<nat>)
    ensures q.bearer.None? ==> r == Err(HeaderMissing)
    ensures q.bearer.Some? && keys.strict(q.accessToken).Unexpired? ==> r == Err(NotExpiredYet)
    ensures r.Ok? <==>
              q.bearer.Some? && keys.strict(q.accessToken).ExpiredToken? && keys.lax(q.accessToken).Some?
              && FindRefresh(rows, q.refreshId) >= 0
              && var a := rows[FindRefresh(rows, q.refreshId)];
                 var claims := keys.lax(q.accessToken).value;
                 && Truthy(a.refreshHash) && keys.verifyRefresh(q.bearer.value, a.refreshHash.value)
                 && a.refreshExpiresAt.Some? && now <= a.refreshExpiresAt.value
                 && Claim(claims, IdClaim(k)) == Some(JStr(a.neuraId))
                 && PyEqualsInt(Claim(claims, "token_version"), a.tokenVersion)
    ensures r.Ok? ==> r.value == FindRefresh(rows, q.refreshId)
    ensures r.Err? ==> r.error.HttpError? && r.error.status in {400, 401}
  {
    if q.bearer.None? then Err(HeaderMissing)
    else if keys.strict(q.accessToken).Unexpired? then Err(NotExpiredYet)
    else if keys.strict(q.accessToken).InvalidToken? then Err(InvalidAccess)
    else if keys.lax(q.accessToken).None? then Err(InvalidAccess)
    else
      var claims := keys.lax(q.accessToken).value;
      var i := FindRefresh(rows, q.refreshId);
      if i < 0 || !Truthy(rows[i].refreshHash) then Err(InvalidRefresh)
      else if !keys.verifyRefresh(q.bearer.value, rows[i].refreshHash.value) then Err(InvalidRefresh)
      else if rows[i].refreshExpiresAt.None? || now > rows[i].refreshExpiresAt.value then Err(RefreshExpired)
      else if Claim(claims, IdClaim(k)) != Some(JStr(rows[i].neuraId)) then Err(TokenMismatch)
      else if !PyEqualsInt(Claim(claims, "token_version"), rows[i].tokenVersion) then Err(TokenRevoked)
      else Ok(i)
  }

  /** A row with its refresh token rotated. */
  function Rotated(a: Account, n: Issue, hashRefresh: string -> string): Account
  {
    a.(refreshId := Some(n.refreshId), refreshHash := Some(hashRefresh(n.refreshToken)),
       refreshExpiresAt := Some(n.now + RefreshLifetime))
  }

  /** The refresh route: a new access token for the accepted row; the
      teacher route also rotates the refresh token, the CR route leaves the
      row as it is. */
  function Refresh(k: Kind, db: Db, q: RefreshRequest, keys: RefreshKeys, n: Issue): (s: Step<RefreshReply>)
    ensures RefreshCheck(k, db.rows, q, keys, n.now).Err? ==>
              s == Step(Err(RefreshCheck(k, db.rows, q, keys, n.now).error), db)
    ensures RefreshCheck(k, db.rows, q, keys, n.now).Ok? ==>
              var i := RefreshCheck(k, db.rows, q, keys, n.now).value;
              if k == TeacherKind
              then s == Step(Ok(RefreshReply(AccessFor(k, db.rows[i], n), Some((n.refreshToken, n.refreshId)))),
                             Db(db.rows[i := Rotated(db.rows[i], n, keys.hashRefresh)], db.otps))
              else s == Step(Ok(RefreshReply(AccessFor(k, db.rows[i], n), None)), db)
  {
    match RefreshCheck(k, db.rows, q, keys, n.now)
    case Err(e) => Step(Err(e), db)
    case Ok(i) =>
      if k == TeacherKind then
        Step(Ok(RefreshReply(AccessFor(k, db.rows[i], n), Some((n.refreshToken, n.refreshId)))),
             Db(db.rows[i := Rotated(db.rows[i], n, keys.hashRefresh)], db.otps))
      else Step(Ok(RefreshReply(AccessFor(k, db.rows[i], n), None)), db)
  }

  /** A rotated teacher refresh token cannot be replayed: the same request
      again finds no row for the old id. */
  lemma {:induction false} RotatedRefreshIsSingleUse(db: Db, q: RefreshRequest, keys: RefreshKeys, n: Issue, m: Issue)
    requires UniqueRefreshIds(db.rows) && n.refreshId != q.refreshId
    requires Refresh(TeacherKind, db, q, keys, n).result.Ok?
    ensures Refresh(TeacherKind, Refresh(TeacherKind, db, q, keys, n).db, q, keys, m).result == Err(InvalidRefresh)
  {
    var i := FindRefresh(db.rows, q.refreshId);
    var rows := Refresh(TeacherKind, db, q, keys, n).db.rows;
    assert rows == db.rows[i := Rotated(db.rows[i], n, keys.hashRefresh)];
    forall j | 0 <= j < |rows|
      ensures rows[j].refreshId != Some(q.refreshId)
    {
      if j != i {
        if j < i { assert db.rows[j].refreshId != db.rows[i].refreshId; }
        else { assert db.rows[i].refreshId != db.rows[j].refreshId; }
      }
    }
  }

  /** A CR refresh changes nothing, so the same refresh token keeps working
      until it expires. */
  lemma CrRefreshRepeats(db: Db, q: RefreshRequest, keys: RefreshKeys, n: Issue, m: Issue)
    requires Refresh(CrKind, db, q, keys, n).result.Ok? && m.now <= n.now
    ensures Refresh(CrKind, Refresh(CrKind, db, q, keys, n).db, q, keys, m).result.Ok?
  {
  }

  /** A row after logout: the version moves on and the refresh token is
      gone. */
  function LoggedOut(a: Account): (b: Account)
    ensures b.tokenVersion == a.tokenVersion + 1
    ensures b.refreshId.None? && b.refreshHash.None? && b.refreshExpiresAt.None?
    ensures b.(tokenVersion := a.tokenVersion, refreshId := a.refreshId, refreshHash := a.refreshHash,
               refreshExpiresAt := a.refreshExpiresAt) == a
  {
    a.(tokenVersion := a.tokenVersion + 1, refreshId := None, refreshHash := None, refreshExpiresAt := None)
  }

  /** The logout route for the user the access token names. */
  function Logout(k: Kind, db: Db, c: Option<Credentials>, decode: string -> Option<Claims>): (s: Step<()>)
    ensures CurrentUser(k, c, decode, db.rows).Err? ==> s == Step(Err(CurrentUser(k, c, decode, db.rows).error), db)
    ensures CurrentUser(k, c, decode, db.rows).Ok? ==>
              var i := CurrentUser(k, c, decode, db.rows).value;
              i < |db.rows| && s == Step(Ok(()), Db(db.rows[i := LoggedOut(db.rows[i])], db.otps))
  {
    match CurrentUser(k, c, decode, db.rows)
    case Err(e) => Step(Err(e), db)
    case Ok(i) => Step(Ok(()), Db(db.rows[i := LoggedOut(db.rows[i])], db.otps))
  }

  /** After logout the access token used for it, and any other issued with
      the old version, is refused as revoked. */
  lemma {:induction false} LogoutRevokesAccess(k: Kind, db: Db, c: Option<Credentials>, decode: string -> Option<Claims>)
    requires Logout(k, db, c, decode).result.Ok?
    ensures CurrentUser(k, c, decode, Logout(k, db, c, decode).db.rows) == Err(HttpError(401, Revoked))
  {
    var i := CurrentUser(k, c, decode, db.rows).value;
    var token := BearerToken(c).value;
    var claims := decode(token).value;
    var rows := Logout(k, db, c, decode).db.rows;
    var v := Claim(claims, IdClaim(k)).value;
    FindNeuraKept(db.rows, i, LoggedOut(db.rows[i]), v);
    assert PyEqualsInt(Claim(claims, "token_version"), db.rows[i].tokenVersion);
    if PyEqualsInt(Claim(claims, "token_version"), rows[i].tokenVersion) {
      PyEqualsIntUnique(Claim(claims, "token_version"), db.rows[i].tokenVersion, rows[i].tokenVersion);
    }
    StaleVersionRevoked(k, token, decode, rows);
  }

  /** After logout the refresh token the row held is refused too. */
  lemma {:induction false} LogoutEndsRefresh(k: Kind, db: Db, c: Option<Credentials>, decode: string -> Option<Claims>,
                                             q: RefreshRequest, keys: RefreshKeys, n: Issue)
    requires UniqueRefreshIds(db.rows) && Logout(k, db, c, decode).result.Ok?
    requires db.rows[CurrentUser(k, c, decode, db.rows).value].refreshId == Some(q.refreshId)
    ensures FindRefresh(Logout(k, db, c, decode).db.rows, q.refreshId) == -1
    ensures Refresh(k, Logout(k, db, c, decode).db, q, keys, n).result.Err?
  {
    var i := CurrentUser(k, c, decode, db.rows).value;
    var rows := Logout(k, db, c, decode).db.rows;
    forall j | 0 <= j < |rows|
      ensures rows[j].refreshId != Some(q.refreshId)
    {
      if j != i {
        if j < i { assert db.rows[j].refreshId != db.rows[i].refreshId; }
        else { assert db.rows[i].refreshId != db.rows[j].refreshId; }
      }
    }
  }

  /** The update-password route for the user the access token names. */
  function UpdatePassword(k: Kind, db: Db, c: Option<Credentials>, decode: string -> Option<Claims>,
                          p: PasswordUpdateIn, verify: (string, Option<string>) -> bool, hash: string -> string)
    : (s: Step<()>)
    ensures CurrentUser(k, c, decode, db.rows).Err? ==> s == Step(Err(CurrentUser(k, c, decode, db.rows).error), db)
    ensures CurrentUser(k, c, decode, db.rows).Ok? ==>
              var i := CurrentUser(k, c, decode, db.rows).value;
              && i < |db.rows|
              && (ChangePassword(db.rows[i], p, verify, hash).Err? ==>
                    s == Step(Err(ChangePassword(db.rows[i], p, verify, hash).error), db))
              && (ChangePassword(db.rows[i], p, verify, hash).Ok? ==>
                    s == Step(Ok(()), Db(db.rows[i := ChangePassword(db.rows[i], p, verify, hash).value], db.otps)))
  {
    match CurrentUser(k, c, decode, db.rows)
    case Err(e) => Step(Err(e), db)
    case Ok(i) =>
      match ChangePassword(db.rows[i], p, verify, hash)
      case Err(e) => Step(Err(e), db)
      case Ok(b) => Step(Ok(()), Db(db.rows[i := b], db.otps))
  }

  // ---------------------------------------------------------------------
  // The student login after a reset

  /** As written, a student who resets the password cannot log in with the
      new one: the reset stores its hash, and the login compares plain text. */
  lemma {:induction false} ResetLocksStudentOut(db: Db, q: ResetRequest, hash: string -> string, t1: int, t2: int)
    requires UniqueNeura(db.rows) && Reset(db, q, hash, t1, t2).result.Ok?
    requires hash(q.newPassword) != q.newPassword
    ensures var i := FindBy(db.rows, Email, JStr(q.email));
            StudentLoginAsWritten(Reset(db, q, hash, t1, t2).db.rows, db.rows[i].neuraId, q.newPassword)
            == Err(PasswordInvalid)
  {
    var i := FindBy(db.rows, Email, JStr(q.email));
    var rows := Reset(db, q, hash, t1, t2).db.rows;
    FindNeuraOfRow(db.rows, i);
    FindNeuraKept(db.rows, i, rows[i], JStr(db.rows[i].neuraId));
  }

  /** With the password verified, the new password logs the student (or the
      teacher or CR) in after a reset. */
  lemma {:induction false} ResetThenLogin(db: Db, q: ResetRequest, hash: string -> string, t1: int, t2: int,
                                          verify: (string, Option<string>) -> bool, setupToken: string)
    requires UniqueNeura(db.rows) && Reset(db, q, hash, t1, t2).result.Ok?
    requires verify(q.newPassword, Some(hash(q.newPassword)))
    ensures var i := FindBy(db.rows, Email, JStr(q.email));
            var after := Reset(db, q, hash, t1, t2).db;
            && StudentLogin(after.rows, db.rows[i].neuraId, q.newPassword, verify).Ok?
            && TokenLogin(TeacherKind, after, db.rows[i].neuraId, q.newPassword, verify, setupToken).result.Ok?
            && TokenLogin(CrKind, after, db.rows[i].neuraId, q.newPassword, verify, setupToken).result.Ok?
  {
    var i := FindBy(db.rows, Email, JStr(q.email));
    var rows := Reset(db, q, hash, t1, t2).db.rows;
    FindNeuraOfRow(db.rows, i);
    FindNeuraKept(db.rows, i, rows[i], JStr(db.rows[i].neuraId));
  }

  // ---------------------------------------------------------------------
  // The routers

  /** The `setattr` loop of profile setup over the fields `fs`. */
  method CopyGiven(profile: map<Field, JValue>, payload: map<Field, JValue>, fs: seq<Field>)
    returns (r: map<Field, JValue>)
    ensures r == Overlay(profile, payload, FieldSet(fs))
  {
    r := profile;
    assert Overlay(profile, payload, FieldSet(fs[..0])) == profile;
    for k := 0 to |fs|
      invariant r == Overlay(profile, payload, FieldSet(fs[..k]))
    {
      OverlayStep(profile, payload, FieldSet(fs[..k]), fs[k]);
      assert fs[..k + 1][..k] == fs[..k];
      if fs[k] in payload && !payload[fs[k]].JNull? {
        r := r[fs[k] := payload[fs[k]]];
      }
    }
    assert fs[..|fs|] == fs;
  }

  /** A change to one row that keeps its id, neura id and profile keeps
      the table's unique columns unique. */
  lemma UniqueKept(k: Kind, rows: seq<Account>, i: int, a: Account)
    requires 0 <= i < |rows| && UniqueNeura(rows) && UniqueColumns(k, rows)
    requires a.neuraId == rows[i].neuraId && a.profile == rows[i].profile
    ensures UniqueNeura(rows[i := a]) && UniqueColumns(k, rows[i := a])
  {
    var r := rows[i := a];
    assert forall j, f :: 0 <= j < |rows| ==> Col(r[j], f) == Col(rows[j], f);
  }

  /** One router: its table, and its module-level OTP store. */
  class AccountRouter {
    const kind: Kind
    var rows: seq<Account>
    var otps: OtpStore

    ghost predicate Valid()
      reads this
    {
      UniqueNeura(rows) && UniqueColumns(kind, rows)
    }

    constructor(k: Kind, table: seq<Account>)
      requires UniqueNeura(table) && UniqueColumns(k, table)
      ensures kind == k && rows == table && otps == map[] && Valid()
    {
      kind := k;
      rows := table;
      otps := map[];
    }

    /** `cleanup_expired_otps`: the expired emails are collected, then
        deleted one by one. */
    method CleanupExpired(now: int)
      modifies this
      ensures otps == Cleaned(old(otps), now) && rows == old(rows)
    {
      ghost var start := otps;
      var expired := set e | e in otps && otps[e].expires < now;
      while expired != {}
        invariant expired <= start.Keys
        invariant forall e :: e in otps <==> e in start && (start[e].expires >= now || e in expired)
        invariant forall e :: e in otps ==> otps[e] == start[e]
        invariant forall e :: e in expired ==> start[e].expires < now
        invariant rows == old(rows)
        decreases |expired|
      {
        var e :| e in expired;
        otps := otps - {e};
        expired := expired - {e};
      }
      assert otps == Cleaned(start, now);
    }

    /** The teacher or CR login route. */
    method Login(neuraId: string, password: string, verify: (string, Option<string>) -> bool, setupToken: string)
      returns (r: Result<string>)
      requires Valid() && kind != StudentKind
      modifies this
      ensures Step(r, Db(rows, otps)) == TokenLogin(kind, old(Db(rows, otps)), neuraId, password, verify, setupToken)
      ensures Valid()
    {
      var i := FindNeura(rows, JStr(neuraId));
      if i < 0 {
        return Err(IdInvalid(kind));
      }
      if !verify(password, rows[i].password) {
        return Err(PasswordInvalid);
      }
      UniqueKept(kind, rows, i, rows[i].(setupToken := Some(setupToken)));
      rows := rows[i := rows[i].(setupToken := Some(setupToken))];
      r := Ok(setupToken);
    }

    /** The forget-password route. */
    method ForgetPassword(email: string, code: int, now: int, mailFailed: bool) returns (r: Result<()>)
      requires Valid() && 1000 <= code <= 9999
      modifies this
      ensures Step(r, Db(rows, otps)) == Forget(old(Db(rows, otps)), email, code, now, mailFailed)
      ensures Valid()
    {
      if FindBy(rows, Email, JStr(email)) < 0 {
        return Err(EmailNotFound);
      }
      CleanupExpired(now);
      otps := otps[email := OtpEntry(IntToString(code), now + OtpLifetime)];
      if mailFailed {
        return Err(MailFailed);
      }
      r := Ok(());
    }

    /** The reset-password route. */
    method ResetPassword(q: ResetRequest, hash: string -> string, cleanupNow: int, checkNow: int)
      returns (r: Result<()>)
      requires Valid()
      modifies this
      ensures Step(r, Db(rows, otps)) == Reset(old(Db(rows, otps)), q, hash, cleanupNow, checkNow)
      ensures Valid()
    {
      var i := FindBy(rows, Email, JStr(q.email));
      if i < 0 {
        return Err(EmailNotFound);
      }
      CleanupExpired(cleanupNow);
      if q.email !in otps || otps[q.email].otp != q.otp {
        return Err(InvalidOtp);
      }
      if checkNow > otps[q.email].expires {
        otps := otps - {q.email};
        return Err(OtpExpired);
      }
      if q.newPassword != q.confirm {
        return Err(ConfirmMismatch);
      }
      UniqueKept(kind, rows, i, rows[i].(password := Some(hash(q.newPassword))));
      rows := rows[i := rows[i].(password := Some(hash(q.newPassword)))];
      otps := otps - {q.email};
      r := Ok(());
    }

    /** The teacher or CR profile-setup route, after its dependency. */
    method ProfileSetupRoute(c: Option<Credentials>, decode: string -> Option<Claims>, payload: map<Field, JValue>,
                             n: Issue, hashRefresh: string -> string) returns (r: Result<SetupReply>)
      requires Valid() && kind != StudentKind
      modifies this
      ensures ProfileSetupUser(kind, c, decode, old(rows)).Err? ==>
                r == Err(ProfileSetupUser(kind, c, decode, old(rows)).error) && rows == old(rows) && otps == old(otps)
      ensures ProfileSetupUser(kind, c, decode, old(rows)).Ok? ==>
                Step(r, Db(rows, otps))
                == ProfileSetup(kind, old(Db(rows, otps)), ProfileSetupUser(kind, c, decode, old(rows)).value,
                                payload, n, hashRefresh)
      ensures Valid()
    {
      var user := ProfileSetupUser(kind, c, decode, rows);
      if user.Err? {
        return Err(user.error);
      }
      r := SetUpRow(user.value, payload, n, hashRefresh);
    }

    /** Profile setup of row `i`: the clash checks, the `setattr` loop, the
        setup token, the refresh token and the commit. */
    method SetUpRow(i: nat, payload: map<Field, JValue>, n: Issue, hashRefresh: string -> string)
      returns (r: Result<SetupReply>)
      requires Valid() && i < |rows|
      modifies this
      ensures Step(r, Db(rows, otps)) == ProfileSetup(kind, old(Db(rows, otps)), i, payload, n, hashRefresh)
      ensures Valid()
    {
      var clash := FirstClash(rows, i, payload, ClashChecks(kind));
      if clash.Some? {
        return Err(ClashError(kind, clash.value));
      }
      var b := SetUpAccount(rows[i], payload, n, hashRefresh);
      if !UniqueColumns(kind, rows[i := b]) {
        return Err(UniqueFailed);
      }
      SameNeuraIds(rows, i, b);
      rows := rows[i := b];
      r := Ok(SetupReply(AccessFor(kind, b, n), n.refreshToken, n.refreshId));
    }

    /** The row's new values: the `setattr` loop, the cleared setup token
        and the new refresh token. */
    method SetUpAccount(a: Account, payload: map<Field, JValue>, n: Issue, hashRefresh: string -> string)
      returns (b: Account)
      ensures b == SetUp(kind, a, payload, n, hashRefresh)
    {
      var profile := CopyGiven(a.profile, payload, Updatable(kind));
      var setup := a.setupToken;
      if Truthy(setup) {
        setup := None;
      }
      b := a.(profile := profile, setupToken := setup, refreshId := Some(n.refreshId),
              refreshHash := Some(hashRefresh(n.refreshToken)), refreshExpiresAt := Some(n.now + RefreshLifetime));
    }

    /** The student profile-setup route. */
    method StudentProfileSetup(neuraId: string, payload: map<Field, JValue>) returns (r: Result<Account>)
      requires Valid() && kind == StudentKind
      modifies this
      ensures Step(r, Db(rows, otps)) == StudentSetup(old(Db(rows, otps)), neuraId, payload)
      ensures Valid()
    {
      var i := FindNeura(rows, JStr(neuraId));
      if i < 0 {
        return Err(StudentNotFound);
      }
      var profile := CopyGiven(rows[i].profile, payload, Updatable(StudentKind));
      var b := rows[i].(profile := profile);
      if !UniqueColumns(StudentKind, rows[i := b]) {
        return Err(IntegrityError("students unique"));
      }
      assert UniqueNeura(rows[i := b]) by {
        var r' := rows[i := b];
        assert forall j :: 0 <= j < |rows| ==> r'[j].neuraId == rows[j].neuraId;
      }
      rows := rows[i := b];
      r := Ok(b);
    }

    /** The teacher or CR refresh route. */
    method RefreshRoute(q: RefreshRequest, keys: RefreshKeys, n: Issue) returns (r: Result<RefreshReply>)
      requires Valid() && kind != StudentKind
      modifies this
      ensures Step(r, Db(rows, otps)) == Refresh(kind, old(Db(rows, otps)), q, keys, n)
      ensures Valid()
    {
      var check := RefreshCheck(kind, rows, q, keys, n.now);
      if check.Err? {
        return Err(check.error);
      }
      var i := check.value;
      if kind == TeacherKind {
        UniqueKept(kind, rows, i, Rotated(rows[i], n, keys.hashRefresh));
        rows := rows[i := Rotated(rows[i], n, keys.hashRefresh)];
        r := Ok(RefreshReply(AccessFor(kind, rows[i], n), Some((n.refreshToken, n.refreshId))));
      } else {
        r := Ok(RefreshReply(AccessFor(kind, rows[i], n), None));
      }
    }

    /** The logout route. */
    method LogoutRoute(c: Option<Credentials>, decode: string -> Option<Claims>) returns (r: Result<()>)
      requires Valid()
      modifies this
      ensures Step(r, Db(rows, otps)) == Logout(kind, old(Db(rows, otps)), c, decode)
      ensures Valid()
    {
      var user := CurrentUser(kind, c, decode, rows);
      if user.Err? {
        return Err(user.error);
      }
      var i := user.value;
      UniqueKept(kind, rows, i, LoggedOut(rows[i]));
      rows := rows[i := LoggedOut(rows[i])];
      r := Ok(());
    }

    /** The update-password route of this router's kind. */
    method UpdatePasswordRoute(c: Option<Credentials>, decode: string -> Option<Claims>, p: PasswordUpdateIn,
                               verify: (string, Option<string>) -> bool, hash: string -> string)
      returns (r: Result<()>)
      requires Valid()
      modifies this
      ensures Step(r, Db(rows, otps)) == UpdatePassword(kind, old(Db(rows, otps)), c, decode, p, verify, hash)
      ensures Valid()
    {
      var user := CurrentUser(kind, c, decode, rows);
      if user.Err? {
        return Err(user.error);
      }
      var i := user.value;
      var changed := ChangePassword(rows[i], p, verify, hash);
      if changed.Err? {
        return Err(changed.error);
      }
      UniqueKept(kind, rows, i, changed.value);
      rows := rows[i := changed.value];
      r := Ok(());
    }
  }
}
