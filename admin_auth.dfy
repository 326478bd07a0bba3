/** The admin web app's token store (`adminAuth`): the `adminToken` entry of
    `localStorage`, written on an admin login and dropped on logout, on
    expiry and when it cannot be read. Decoding the token's payload
    (`JSON.parse(atob(token.split('.')[1]))`) is a given partial function,
    None where the source throws; `Date.now()` is `now`, in milliseconds. */
module AdminAuth {
  import opened Js

  /** `payload.exp * 1000 < Date.now()`: a missing or non-numeric `exp` is
      NaN and never expired; `null` counts as 0 and always is. */
  predicate Expired(payload: Record, now: nat) {
    var exp := ToNumber(Get(payload, "exp"));
    exp.Num? && exp.n * 1000 < now
  }

  /** `payload.role === 'ADMIN'` */
  predicate IsAdminPayload(payload: Record) {
    StrictEquals(Get(payload, "role"), Str("ADMIN"))
  }

  /** `localStorage.getItem(...)` followed by `!token`: nothing stored, or "". */
  predicate Present(stored: Option<string>) {
    stored.Some? && stored.value != ""
  }

  /** What `isAuthenticated()` answers. */
  predicate Authenticated(stored: Option<string>, decode: string -> Option<Record>, now: nat) {
    Present(stored) && decode(stored.value).Some?
    && !Expired(decode(stored.value).value, now) && IsAdminPayload(decode(stored.value).value)
  }

  /** What `isAuthenticated()` leaves stored: the token is removed when it
      cannot be decoded or has expired, and kept otherwise, even when it is
      not an admin's. */
  function StoredAfterCheck(stored: Option<string>, decode: string -> Option<Record>, now: nat): (after: Option<string>)
    ensures after == stored || after == None
    ensures after != stored <==> Present(stored) && (decode(stored.value).None? || Expired(decode(stored.value).value, now))
  {
    if Present(stored) && (decode(stored.value).None? || Expired(decode(stored.value).value, now)) then None else stored
  }

  /** `getUser()`: the three claims, or null without a readable token. */
  function UserOf(stored: Option<string>, decode: string -> Option<Record>): (user: Option<Record>)
    ensures user.Some? <==> Present(stored) && decode(stored.value).Some?
    ensures user.Some? ==>
      var p := decode(stored.value).value;
      user.value == map["userId" := Get(p, "userId"), "email" := Get(p, "email"), "role" := Get(p, "role")]
  {
    if !Present(stored) then None
    else match decode(stored.value)
      case None => None
      case Some(p) => Some(map["userId" := Get(p, "userId"), "email" := Get(p, "email"), "role" := Get(p, "role")])
  }

  /** How `login` ends: the stored token, or the error it throws. */
  datatype LoginResult = LoggedIn(token: string) | NotAdmin | Unreadable

  class Session {
    var adminToken: Option<string>

    constructor (stored: Option<string>)
      ensures adminToken == stored
    {
      adminToken := stored;
    }

    /** `login`, from the token the API answered with: only a token whose
        payload has the role "ADMIN" is stored and returned. */
    method Login(token: string, decode: string -> Option<Record>) returns (r: LoginResult)
      modifies this
      ensures decode(token).None? ==> r == Unreadable && adminToken == old(adminToken)
      ensures decode(token).Some? && !IsAdminPayload(decode(token).value) ==> r == NotAdmin && adminToken == old(adminToken)
      ensures decode(token).Some? && IsAdminPayload(decode(token).value) ==> r == LoggedIn(token) && adminToken == Some(token)
    {
      match decode(token)
      case None =>
        return Unreadable;
      case Some(payload) =>
        if Get(payload, "role") != Str("ADMIN") {
          return NotAdmin;
        }
        adminToken := Some(token);
        r := LoggedIn(token);
    }

    method Logout()
      modifies this
      ensures adminToken == None
    {
      adminToken := None;
    }

    function GetToken(): Option<string>
      reads this
    {
      adminToken
    }

    /** `isAuthenticated()`: the answer, and the removals it makes. */
    method IsAuthenticated(decode: string -> Option<Record>, now: nat) returns (b: bool)
      modifies this
      ensures b == Authenticated(old(adminToken), decode, now)
      ensures adminToken == StoredAfterCheck(old(adminToken), decode, now)
    {
      if !Present(adminToken) {
        return false;
      }
      match decode(adminToken.value)
      case None =>
        adminToken := None;
        return false;
      case Some(payload) =>
        var exp := ToNumber(Get(payload, "exp"));
        if exp.Num? && exp.n * 1000 < now {
          adminToken := None;
          return false;
        }
        b := Get(payload, "role") == Str("ADMIN");
    }

    function GetUser(decode: string -> Option<Record>): (user: Option<Record>)
      reads this
      ensures user == UserOf(adminToken, decode)
    {
      UserOf(adminToken, decode)
    }
  }

  /** Checking again right away gives the same answer and removes nothing
      more: the first check leaves only tokens it would keep. */
  lemma CheckIdempotent(stored: Option<string>, decode: string -> Option<Record>, now: nat)
    ensures var after := StoredAfterCheck(stored, decode, now);
      StoredAfterCheck(after, decode, now) == after
      && (Authenticated(stored, decode, now) ==> Authenticated(after, decode, now))
      && (after.Some? ==> Authenticated(after, decode, now) == Authenticated(stored, decode, now))
  {
  }

  /** A token that `login` stored passes `isAuthenticated` until it expires,
      and after it has expired the check removes it. */
  lemma LoggedInUntilExpiry(token: string, decode: string -> Option<Record>, now: nat)
    requires token != "" && decode(token).Some? && IsAdminPayload(decode(token).value)
    ensures Authenticated(Some(token), decode, now) <==> !Expired(decode(token).value, now)
    ensures Expired(decode(token).value, now) ==> StoredAfterCheck(Some(token), decode, now) == None
  {
  }

  /** The edge cases of the expiry test: without `exp` a token never
      expires; with `exp: null` it is expired at any time after the epoch. */
  lemma ExpEdgeCases(payload: Record, now: nat)
    ensures "exp" !in payload ==> !Expired(payload, now)
    ensures "exp" in payload && payload["exp"] == Null && now > 0 ==> Expired(payload, now)
    ensures "exp" in payload && payload["exp"] == Num(0) && now > 0 ==> Expired(payload, now)
  {
  }
}
