/** The device-token table the push service sends to: registering (upsert
    keyed on the stripped token) and deactivating a token. Row ids and the
    clock are parameters. */
module DeviceTokens {

  import opened Common
  import opened Json
  import opened Text
  import opened Sections

  datatype Owner = StudentOwner | TeacherOwner | CrOwner

  /** A row of `device_tokens`; `lastSeenAt` is a time as a number. */
  datatype DeviceToken = DeviceToken(
    id: string,
    token: string,
    ownerRole: Owner,
    ownerId: string,
    platform: string,
    dept: Option<string>,
    series: Option<string>,
    sec: Option<string>,
    isActive: bool,
    lastSeenAt: int)

  /** The `token` column is unique. */
  predicate UniqueTokens(rows: seq<DeviceToken>)
  {
    forall i, j :: 0 <= i < j < |rows| ==> rows[i].token != rows[j].token
  }

  /** `.filter(DeviceToken.token == token).first()`: the index of the row, or
      -1 when there is none. */
  function FindToken(rows: seq<DeviceToken>, token: string): (i: int)
    ensures -1 <= i < |rows|
    ensures i >= 0 ==> rows[i].token == token
    ensures i == -1 <==> forall k :: 0 <= k < |rows| ==> rows[k].token != token
    ensures i >= 0 ==> forall k :: 0 <= k < i ==> rows[k].token != token
  {
    if |rows| == 0 then -1
    else if rows[0].token == token then 0
    else
      var j := FindToken(rows[1..], token);
      assert forall k :: 1 <= k < |rows| ==> rows[k] == rows[1..][k - 1];
      if j == -1 then -1 else j + 1
  }

  /** The arguments of `upsert_device_token`; the section may be any value
      the request carried. */
  datatype Registration = Registration(
    token: string,
    ownerRole: Owner,
    ownerId: string,
    platform: string,
    dept: Option<string>,
    series: Option<string>,
    sec: JValue)

  /** The platform of a new row: stripped and lower-cased, "android" when
      empty. */
  function NewPlatform(platform: string): (r: string)
    ensures platform == "" ==> r == "android"
    ensures platform != "" ==> r == Lower(Strip(platform))
  {
    if platform == "" then "android" else Lower(Strip(platform))
  }

  /** A new row's platform never holds an upper-case letter. */
  lemma NewPlatformLowerCase(platform: string)
    ensures NoUpper(NewPlatform(platform))
  {
    var r := NewPlatform(platform);
    if platform == "" {
      assert r == "android";
    } else {
      forall i | 0 <= i < |r| ensures !('A' <= r[i] <= 'Z') {
        assert r[i] == LowerChar(Strip(platform)[i]);
      }
    }
  }

  predicate NoUpper(s: string)
  {
    forall i :: 0 <= i < |s| ==> !('A' <= s[i] <= 'Z')
  }

  /** An existing row re-registered: owner, platform (as given), audience
      and section overwritten, active again, seen now. */
  function Refreshed(row: DeviceToken, reg: Registration, now: int): DeviceToken
  {
    row.(ownerRole := reg.ownerRole, ownerId := reg.ownerId, platform := reg.platform,
         dept := reg.dept, series := reg.series, sec := DeviceSection(reg.sec),
         isActive := true, lastSeenAt := now)
  }

  /** A new row for a token not yet known. */
  function FreshRow(id: string, key: string, reg: Registration, now: int): DeviceToken
  {
    DeviceToken(id, key, reg.ownerRole, reg.ownerId, NewPlatform(reg.platform),
                reg.dept, reg.series, DeviceSection(reg.sec), true, now)
  }

  /** `upsert_device_token` on the table: the row of the stripped token is
      refreshed, or a new row added. */
  function Upserted(rows: seq<DeviceToken>, id: string, reg: Registration, now: int): (r: seq<DeviceToken>)
    ensures UniqueTokens(rows) ==> UniqueTokens(r)
    ensures FindToken(rows, Strip(reg.token)) >= 0 ==> |r| == |rows|
    ensures FindToken(rows, Strip(reg.token)) == -1 ==> |r| == |rows| + 1 && r[..|rows|] == rows
    ensures forall k :: 0 <= k < |rows| && rows[k].token != Strip(reg.token) ==> r[k] == rows[k]
  {
    var key := Strip(reg.token);
    var i := FindToken(rows, key);
    if i >= 0 then
      var row := Refreshed(rows[i], reg, now);
      ReplacedKeepsUnique(rows, i, row);
      rows[i := row]
    else
      var row := FreshRow(id, key, reg, now);
      AppendedKeepsUnique(rows, row);
      rows + [row]
  }

  lemma ReplacedKeepsUnique(rows: seq<DeviceToken>, i: nat, row: DeviceToken)
    requires i < |rows| && row.token == rows[i].token
    ensures UniqueTokens(rows) ==> UniqueTokens(rows[i := row])
  {
    var r := rows[i := row];
    assert forall k :: 0 <= k < |rows| ==> r[k].token == rows[k].token;
  }

  lemma AppendedKeepsUnique(rows: seq<DeviceToken>, row: DeviceToken)
    requires forall k :: 0 <= k < |rows| ==> rows[k].token != row.token
    ensures UniqueTokens(rows) ==> UniqueTokens(rows + [row])
  {
    var r := rows + [row];
    assert forall k :: 0 <= k < |rows| ==> r[k] == rows[k];
  }

  /** After an upsert the token has exactly the registered owner and
      audience, is active, and its section is the normalised one. */
  lemma UpsertedRow(rows: seq<DeviceToken>, id: string, reg: Registration, now: int)
    requires UniqueTokens(rows)
    ensures var r := Upserted(rows, id, reg, now);
            var i := FindToken(r, Strip(reg.token));
            && i >= 0 && r[i].isActive
            && r[i].ownerRole == reg.ownerRole && r[i].ownerId == reg.ownerId
            && r[i].dept == reg.dept && r[i].series == reg.series
            && r[i].sec == DeviceSection(reg.sec) && r[i].lastSeenAt == now
  {
    var key := Strip(reg.token);
    var i := FindToken(rows, key);
    if i >= 0 {
      var r := rows[i := Refreshed(rows[i], reg, now)];
      assert forall k :: 0 <= k < i ==> r[k].token != key by {
        forall k | 0 <= k < i ensures r[k].token != key {
          assert r[k] == rows[k];
        }
      }
      FindTokenAt(r, key, i);
    } else {
      var r := rows + [FreshRow(id, key, reg, now)];
      assert forall k :: 0 <= k < |rows| ==> r[k].token != key by {
        forall k | 0 <= k < |rows| ensures r[k].token != key {
          assert r[k] == rows[k];
        }
      }
      FindTokenAt(r, key, |rows|);
    }
  }

  /** The first row holding the token is the one found. */
  lemma FindTokenAt(rows: seq<DeviceToken>, token: string, i: nat)
    requires i < |rows| && rows[i].token == token
    requires forall k :: 0 <= k < i ==> rows[k].token != token
    ensures FindToken(rows, token) == i
  {
    var j := FindToken(rows, token);
    assert j != -1;
  }

  /** A new row's platform is normalised; an existing row keeps the
      platform exactly as sent. */
  lemma UpsertPlatform(rows: seq<DeviceToken>, id: string, reg: Registration, now: int)
    requires UniqueTokens(rows)
    ensures var key := Strip(reg.token);
            var i := FindToken(rows, key);
            var r := Upserted(rows, id, reg, now);
            && (i >= 0 ==> r[i].platform == reg.platform)
            && (i == -1 ==> r[|rows|].platform == NewPlatform(reg.platform))
  {
  }

  /** `deactivate_token`: the row of the token (not stripped here) becomes
      inactive; an unknown token changes nothing. */
  function Deactivated(rows: seq<DeviceToken>, token: string): (r: seq<DeviceToken>)
    ensures |r| == |rows|
    ensures UniqueTokens(rows) ==> UniqueTokens(r)
    ensures UniqueTokens(rows) ==> forall k :: 0 <= k < |rows| ==>
              r[k] == (if rows[k].token == token then rows[k].(isActive := false) else rows[k])
  {
    var i := FindToken(rows, token);
    if i < 0 then rows else rows[i := rows[i].(isActive := false)]
  }

  /** Deactivating twice is deactivating once. */
  lemma DeactivateIdempotent(rows: seq<DeviceToken>, token: string)
    requires UniqueTokens(rows)
    ensures Deactivated(Deactivated(rows, token), token) == Deactivated(rows, token)
  {
    var once := Deactivated(rows, token);
    var twice := Deactivated(once, token);
    assert forall k :: 0 <= k < |rows| ==> twice[k] == once[k];
  }

  /** The `device_tokens` table. */
  class DeviceTokenTable {
    var rows: seq<DeviceToken>

    ghost predicate Valid()
      reads this
    {
      UniqueTokens(rows)
    }

    constructor()
      ensures Valid() && rows == []
    {
      rows := [];
    }

    method Upsert(id: string, reg: Registration, now: int) returns (row: DeviceToken)
      requires Valid()
      modifies this
      ensures Valid()
      ensures rows == Upserted(old(rows), id, reg, now)
      ensures row.token == Strip(reg.token) && row in rows && row.isActive
    {
      UpsertedRow(rows, id, reg, now);
      var key := Strip(reg.token);
      var i := FindToken(rows, key);
      if i >= 0 {
        row := Refreshed(rows[i], reg, now);
        rows := rows[i := row];
      } else {
        row := FreshRow(id, key, reg, now);
        rows := rows + [row];
      }
    }

    method Deactivate(token: string)
      requires Valid()
      modifies this
      ensures Valid()
      ensures rows == Deactivated(old(rows), token)
    {
      var i := FindToken(rows, token);
      if i >= 0 {
        rows := rows[i := rows[i].(isActive := false)];
      }
    }
  }
}
