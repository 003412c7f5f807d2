/** Access tokens and the request dependencies that resolve the current
    student, teacher or CR: the claims `create_access_token` signs, the
    bearer-header check, the access-token checks in their order, and the
    profile-setup variant that also accepts a setup token. Signing and
    verifying a JWT are a parameter: `decode` gives the claims of a token
    whose signature and expiry check out, and None otherwise. */
module Auth {

  import opened Common
  import opened Json
  import opened Text

  datatype Kind = StudentKind | TeacherKind | CrKind

  /** The claim that names the user of each kind. */
  function IdClaim(k: Kind): string
  {
    match k
    case StudentKind => "neura_id"
    case TeacherKind => "neura_teacher_id"
    case CrKind => "neura_cr_id"
  }

  /** The profile columns the auth routers read and write. */
  datatype Field = FullName | Designation | Dept | JoiningYear | MobileNo | Email | ProfileImage
                 | RollNo | Section | Series | CrNo

  /** A row of `students`, `teachers` or `crs` as the auth code sees it;
      times are numbers of seconds. */
  datatype Account = Account(
    id: string,
    neuraId: string,
    password: Option<string>,
    tokenVersion: int,
    setupToken: Option<string>,
    refreshId: Option<string>,
    refreshHash: Option<string>,
    refreshExpiresAt: Option<int>,
    profile: map<Field, JValue>)

  type Claims = map<string, JValue>

  const CredentialsMessage := "Could not validate credentials"
  const AccessRequired := "Access token required"
  const Revoked := "Token has been revoked"
  const InvalidSetupToken := "Invalid setup token"

  const Unauthorized := HttpError(401, CredentialsMessage)

  /** `create_access_token`: the caller's claims with "exp" (now plus the
      given lifetime, or the default minutes when none or a zero lifetime is
      given) and "iat" (now) added. */
  function AccessClaims(data: Claims, now: int, delta: Option<int>, defaultMinutes: int): (r: Claims)
    ensures r.Keys == data.Keys + {"exp", "iat"}
    ensures r["iat"] == JInt(now)
    ensures r["exp"] == JInt(now + if delta.Some? && delta.value != 0 then delta.value else defaultMinutes * 60)
    ensures forall k :: k in data && k != "exp" && k != "iat" ==> r[k] == data[k]
  {
    var lifetime := if delta.Some? && delta.value != 0 then delta.value else defaultMinutes * 60;
    data["exp" := JInt(now + lifetime)]["iat" := JInt(now)]
  }

  /** The claims the profile-setup and refresh endpoints sign for a user. */
  function IssuedClaims(k: Kind, a: Account): Claims
  {
    map[IdClaim(k) := JStr(a.neuraId), "token_version" := JInt(a.tokenVersion), "type" := JStr("access")]
  }

  /** The `Authorization` header as HTTPBearer hands it over. */
  datatype Credentials = Credentials(scheme: Option<string>, token: Option<string>)

  /** `_get_bearer_token`: a header with scheme "bearer" (any case) and a
      non-empty token. */
  function BearerToken(c: Option<Credentials>): (r: Result<string>)
    ensures r.Ok? <==> c.Some? && Truthy(c.value.scheme) && Lower(c.value.scheme.value) == "bearer"
                       && Truthy(c.value.token)
    ensures r.Ok? ==> r.value == c.value.token.value && r.value != ""
    ensures r.Err? ==> r.error == Unauthorized
  {
    if c.None? || !Truthy(c.value.scheme) || Lower(c.value.scheme.value) != "bearer" then Err(Unauthorized)
    else if !Truthy(c.value.token) then Err(Unauthorized)
    else Ok(c.value.token.value)
  }

  /** Python's `v == n` for a decoded claim and a stored integer
      (`True == 1`, `1.0 == 1`); a missing claim is never equal. */
  predicate PyEqualsInt(v: Option<JValue>, n: int)
  {
    v.Some? && match v.value
      case JInt(i) => i == n
      case JBool(b) => (if b then 1 else 0) == n
      case JFloat(x) => x == n as real
      case _ => false
  }

  /** A claim can equal at most one integer. */
  lemma PyEqualsIntUnique(v: Option<JValue>, n: int, m: int)
    requires PyEqualsInt(v, n) && PyEqualsInt(v, m)
    ensures n == m
  {
  }

  function Claim(claims: Claims, key: string): Option<JValue>
  {
    if key in claims then Some(claims[key]) else None
  }

  /** The first row whose neura id equals the claim. */
  function FindNeura(rows: seq<Account>, v: JValue): (i: int)
    ensures -1 <= i < |rows|
    ensures i >= 0 ==> v == JStr(rows[i].neuraId) && forall k :: 0 <= k < i ==> v != JStr(rows[k].neuraId)
    ensures i == -1 <==> forall k :: 0 <= k < |rows| ==> v != JStr(rows[k].neuraId)
  {
    if rows == [] then -1
    else if v == JStr(rows[0].neuraId) then 0
    else
      var j := FindNeura(rows[1..], v);
      assert forall k :: 1 <= k < |rows| ==> rows[k] == rows[1..][k - 1];
      if j == -1 then -1 else j + 1
  }

  /** What the checks ask of the claims and the row they name. */
  predicate Admits(k: Kind, claims: Claims, a: Account)
  {
    Claim(claims, "type") == Some(JStr("access")) && Claim(claims, IdClaim(k)) == Some(JStr(a.neuraId))
    && a.neuraId != "" && PyEqualsInt(Claim(claims, "token_version"), a.tokenVersion)
  }

  /** The access-token checks after the header, in order: the token
      decodes; its type is "access"; the id claim is present and truthy; a
      row has that id; the token version equals the row's. The result is the
      index of the row. */
  function AccessUser(k: Kind, token: string, decode: string -> Option<Claims>, rows: seq<Account>): (r: Result<nat>)
    ensures decode(token).None? ==> r == Err(Unauthorized)
    ensures decode(token).Some? && Claim(decode(token).value, "type") != Some(JStr("access"))
            ==> r == Err(HttpError(401, AccessRequired))
    ensures r.Ok? <==> decode(token).Some? && Claim(decode(token).value, IdClaim(k)).Some?
                       && FindNeura(rows, Claim(decode(token).value, IdClaim(k)).value) >= 0
                       && Admits(k, decode(token).value, rows[FindNeura(rows, Claim(decode(token).value, IdClaim(k)).value)])
    ensures r.Ok? ==> r.value == FindNeura(rows, Claim(decode(token).value, IdClaim(k)).value) && r.value < |rows|
    ensures r.Err? ==> r.error.HttpError? && r.error.status == 401
  {
    if decode(token).None? then Err(Unauthorized)
    else
      var claims := decode(token).value;
      if Claim(claims, "type") != Some(JStr("access")) then Err(HttpError(401, AccessRequired))
      else
        var id := Claim(claims, IdClaim(k));
        if FalsyOpt(id) then Err(Unauthorized)
        else
          var i := FindNeura(rows, id.value);
          if i < 0 then Err(Unauthorized)
          else if !PyEqualsInt(Claim(claims, "token_version"), rows[i].tokenVersion) then Err(HttpError(401, Revoked))
          else Ok(i)
  }

  /** `get_current_student`, `get_current_teacher`, `get_current_cr`. */
  function CurrentUser(k: Kind, c: Option<Credentials>, decode: string -> Option<Claims>, rows: seq<Account>)
    : (r: Result<nat>)
    ensures BearerToken(c).Err? ==> r == Err(Unauthorized)
    ensures BearerToken(c).Ok? ==> r == AccessUser(k, BearerToken(c).value, decode, rows)
    ensures r.Ok? ==> r.value < |rows|
  {
    var token :- BearerToken(c);
    AccessUser(k, token, decode, rows)
  }

  /** A token whose version is not the row's (a user who has since logged
      out) is refused as revoked, whatever else it says. */
  lemma StaleVersionRevoked(k: Kind, token: string, decode: string -> Option<Claims>, rows: seq<Account>)
    requires decode(token).Some?
    requires var claims := decode(token).value;
             Claim(claims, "type") == Some(JStr("access")) && Claim(claims, IdClaim(k)).Some?
             && !Falsy(Claim(claims, IdClaim(k)).value)
             && FindNeura(rows, Claim(claims, IdClaim(k)).value) >= 0
             && !PyEqualsInt(Claim(claims, "token_version"),
                             rows[FindNeura(rows, Claim(claims, IdClaim(k)).value)].tokenVersion)
    ensures AccessUser(k, token, decode, rows) == Err(HttpError(401, Revoked))
  {
  }

  /** The claims issued for a row pass every check for that row, as long as
      its token version is unchanged and the id is not shared. */
  lemma IssuedClaimsAdmitted(k: Kind, a: Account)
    requires a.neuraId != ""
    ensures Admits(k, IssuedClaims(k, a), a)
  {
    assert IdClaim(k) != "type" && IdClaim(k) != "token_version";
  }

  /** A signed token carries the issued claims plus exp and iat; all three
      checks read the issued claims unchanged. */
  lemma SignedClaimsAdmitted(k: Kind, a: Account, now: int, delta: Option<int>, defaultMinutes: int)
    requires a.neuraId != ""
    ensures Admits(k, AccessClaims(IssuedClaims(k, a), now, delta, defaultMinutes), a)
  {
    assert IdClaim(k) != "type" && IdClaim(k) != "token_version";
    assert IdClaim(k) != "exp" && IdClaim(k) != "iat";
  }

  /** A bearer token whose claims admit a row, the first with its id, is
      accepted for that row. */
  lemma BearerAccepted(k: Kind, token: string, decode: string -> Option<Claims>, rows: seq<Account>, i: int)
    requires token != "" && 0 <= i < |rows| && decode(token).Some? && Admits(k, decode(token).value, rows[i])
    requires FindNeura(rows, JStr(rows[i].neuraId)) == i
    ensures CurrentUser(k, Some(Credentials(Some("Bearer"), Some(token))), decode, rows) == Ok(i)
  {
    BearerScheme(token);
    AdmittedRow(k, token, decode, rows, i);
  }

  lemma BearerScheme(token: string)
    requires token != ""
    ensures BearerToken(Some(Credentials(Some("Bearer"), Some(token)))) == Ok(token)
  {
    assert Lower("Bearer") == "bearer";
  }

  lemma AdmittedRow(k: Kind, token: string, decode: string -> Option<Claims>, rows: seq<Account>, i: int)
    requires 0 <= i < |rows| && decode(token).Some? && Admits(k, decode(token).value, rows[i])
    requires FindNeura(rows, JStr(rows[i].neuraId)) == i
    ensures AccessUser(k, token, decode, rows) == Ok(i)
  {
    assert Claim(decode(token).value, IdClaim(k)) == Some(JStr(rows[i].neuraId));
  }

  /** `token.count(".")`. */
  function Count(s: string, c: char): (n: nat)
    ensures n <= |s|
    ensures c !in s ==> n == 0
  {
    if s == [] then 0 else (if s[0] == c then 1 else 0) + Count(s[1..], c)
  }

  /** The first row holding this setup token. */
  function FindSetup(rows: seq<Account>, token: string): (i: int)
    ensures -1 <= i < |rows|
    ensures i >= 0 ==> rows[i].setupToken == Some(token)
    ensures i == -1 <==> forall k :: 0 <= k < |rows| ==> rows[k].setupToken != Some(token)
  {
    if rows == [] then -1
    else if rows[0].setupToken == Some(token) then 0
    else
      var j := FindSetup(rows[1..], token);
      assert forall k :: 1 <= k < |rows| ==> rows[k] == rows[1..][k - 1];
      if j == -1 then -1 else j + 1
  }

  /** `get_*_for_profile_setup`: a token with exactly two dots goes through
      the access checks; any other is looked up as a setup token. */
  function ProfileSetupUser(k: Kind, c: Option<Credentials>, decode: string -> Option<Claims>, rows: seq<Account>)
    : (r: Result<nat>)
    ensures BearerToken(c).Err? ==> r == Err(Unauthorized)
    ensures BearerToken(c).Ok? && Count(BearerToken(c).value, '.') == 2
            ==> r == AccessUser(k, BearerToken(c).value, decode, rows)
    ensures BearerToken(c).Ok? && Count(BearerToken(c).value, '.') != 2 ==>
              (r.Ok? <==> FindSetup(rows, BearerToken(c).value) >= 0)
              && (r.Ok? ==> r.value == FindSetup(rows, BearerToken(c).value) && r.value < |rows| && rows[r.value].setupToken == Some(BearerToken(c).value))
              && (r.Err? ==> r.error == HttpError(401, InvalidSetupToken))
    ensures r.Ok? ==> r.value < |rows|
  {
    var token :- BearerToken(c);
    if Count(token, '.') == 2 then AccessUser(k, token, decode, rows)
    else
      var i := FindSetup(rows, token);
      if i < 0 then Err(HttpError(401, InvalidSetupToken)) else Ok(i)
  }

  /** A setup token has no dots (it is URL-safe base64), so it is never
      decoded as a JWT; the row holding it is accepted. */
  lemma SetupTokenAccepted(k: Kind, token: string, decode: string -> Option<Claims>, rows: seq<Account>)
    requires token != "" && '.' !in token && FindSetup(rows, token) >= 0
    ensures ProfileSetupUser(k, Some(Credentials(Some("Bearer"), Some(token))), decode, rows)
            == Ok(FindSetup(rows, token))
  {
    assert Lower("Bearer") == "bearer";
  }
}
