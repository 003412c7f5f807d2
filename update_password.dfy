/** The password change shared by the student, teacher and CR endpoints:
    the request schema and the ordered checks before the stored password is
    replaced by the hash of the new one. Hashing and verifying are
    parameters. */
module PasswordUpdate {

  import opened Common
  import opened Auth

  /** `PasswordUpdateIn`. */
  datatype PasswordUpdateIn = PasswordUpdateIn(current: string, newPassword: string, confirm: string)

  const MinPasswordLength := 6
  const MaxPasswordLength := 128

  predicate LengthOk(s: string)
  {
    MinPasswordLength <= |s| <= MaxPasswordLength
  }

  function CheckLength(field: string, s: string): (r: Result<string>)
    ensures r.Ok? <==> LengthOk(s)
    ensures r.Ok? ==> r.value == s
  {
    if |s| < MinPasswordLength then Err(ValueError(field + ": String should have at least 6 characters"))
    else if |s| > MaxPasswordLength then Err(ValueError(field + ": String should have at most 128 characters"))
    else Ok(s)
  }

  /** The schema: each of the three passwords is 6 to 128 characters. */
  function ValidatePasswordUpdate(current: string, newPassword: string, confirm: string)
    : (r: Result<PasswordUpdateIn>)
    ensures r.Ok? <==> LengthOk(current) && LengthOk(newPassword) && LengthOk(confirm)
    ensures r.Ok? ==> r.value == PasswordUpdateIn(current, newPassword, confirm)
  {
    var c :- CheckLength("current_password", current);
    var n :- CheckLength("new_password", newPassword);
    var k :- CheckLength("confirm_new_password", confirm);
    Ok(PasswordUpdateIn(c, n, k))
  }

  const Mismatch := HttpError(400, "New passwords do not match")
  const NotSet := HttpError(400, "Password not set")
  const Incorrect := HttpError(401, "Current password incorrect")

  /** `_change_password`: the new and confirmed passwords must agree (checked
      first), a password must be stored, and the current one must verify
      against it; then only the password changes, to the hash of the new
      one. */
  function ChangePassword(a: Account, p: PasswordUpdateIn, verify: (string, Option<string>) -> bool,
                          hash: string -> string): (r: Result<Account>)
    ensures p.newPassword != p.confirm ==> r == Err(Mismatch)
    ensures p.newPassword == p.confirm && !Truthy(a.password) ==> r == Err(NotSet)
    ensures p.newPassword == p.confirm && Truthy(a.password) && !verify(p.current, a.password)
            ==> r == Err(Incorrect)
    ensures r.Ok? <==> p.newPassword == p.confirm && Truthy(a.password) && verify(p.current, a.password)
    ensures r.Ok? ==> r.value.password == Some(hash(p.newPassword))
    ensures r.Ok? ==> r.value.(password := a.password) == a
  {
    if p.newPassword != p.confirm then Err(Mismatch)
    else if !Truthy(a.password) then Err(NotSet)
    else if !verify(p.current, a.password) then Err(Incorrect)
    else Ok(a.(password := Some(hash(p.newPassword))))
  }

  /** A change leaves everything that authenticates a session alone: the
      token version, the refresh token and the setup token; an access token
      issued before the change is still accepted. */
  lemma ChangeKeepsSessions(k: Kind, a: Account, p: PasswordUpdateIn, verify: (string, Option<string>) -> bool,
                            hash: string -> string, claims: Claims)
    requires ChangePassword(a, p, verify, hash).Ok? && Admits(k, claims, a)
    ensures var b := ChangePassword(a, p, verify, hash).value;
            b.tokenVersion == a.tokenVersion && b.refreshId == a.refreshId && b.refreshHash == a.refreshHash
            && b.setupToken == a.setupToken && Admits(k, claims, b)
  {
    var b := ChangePassword(a, p, verify, hash).value;
    assert b == a.(password := b.password);
  }
}
