/** The customer web app's `useAuth` hook: the `token` entry of
    `localStorage` and the four pieces of state the hook derives from it.
    Every login, logout, auth-changed event and `token` storage event runs
    `checkAuth` again. The window event that login and logout raise is
    dispatched synchronously, so each of them is followed by one check in
    the same method here. Decoding the payload is the given partial
    function `decode` (None where the source throws), and `Date.now()` is
    `nowMs`. */
module UseAuth {
  import opened Js
  import AdminAuth

  /** `payload.exp && payload.exp < Date.now() / 1000`: a falsy `exp`
      (missing, null, 0, "") never expires here. A non-numeric string is
      truthy but compares as NaN, so it never expires either. */
  predicate Expired(payload: Record, nowMs: nat) {
    var exp := Get(payload, "exp");
    Truthy(exp) && ToNumber(exp).Num? && (ToNumber(exp).n as real) < (nowMs as real) / 1000.0
  }

  /** `payload.role || 'USER'` */
  function RoleOf(payload: Record): (role: Value)
    ensures Truthy(role)
    ensures Truthy(Get(payload, "role")) ==> role == Get(payload, "role")
  {
    Or(Get(payload, "role"), Str("USER"))
  }

  /** What `checkAuth` leaves behind: the stored token and the hook's state. */
  datatype View = View(stored: Option<string>, isAuthenticated: bool, userRole: Value, userInfo: Option<Record>)

  /** The outcome of one `checkAuth`. A token that cannot be decoded, or
      has expired, is removed; no role is required, unlike the admin app. */
  function Check(stored: Option<string>, decode: string -> Option<Record>, nowMs: nat): (v: View)
    ensures v.isAuthenticated <==>
      AdminAuth.Present(stored) && decode(stored.value).Some? && !Expired(decode(stored.value).value, nowMs)
    ensures v.stored == stored || v.stored == None
    ensures v.stored != stored <==> AdminAuth.Present(stored) && !v.isAuthenticated
    ensures !v.isAuthenticated ==> v.userRole == Null && v.userInfo == None
    ensures v.isAuthenticated ==>
      var p := decode(stored.value).value;
      && Truthy(v.userRole) && v.userRole == RoleOf(p)
      && v.userInfo.Some? && v.userInfo.value.Keys == {"userId", "email", "role", "username"}
      && v.userInfo.value["role"] == v.userRole
      && v.userInfo.value["userId"] == Get(p, "userId") && v.userInfo.value["email"] == Get(p, "email")
      && v.userInfo.value["username"] == Get(p, "username")
  {
    if !AdminAuth.Present(stored) then View(stored, false, Null, None)
    else match decode(stored.value)
      case None => View(None, false, Null, None)
      case Some(p) =>
        if Expired(p, nowMs) then View(None, false, Null, None)
        else View(stored, true, RoleOf(p),
                  Some(map["userId" := Get(p, "userId"), "email" := Get(p, "email"),
                           "role" := RoleOf(p), "username" := Get(p, "username")]))
  }

  class Hook {
    var token: Option<string>
    var isAuthenticated: bool
    var loading: bool
    var userRole: Value
    var userInfo: Option<Record>

    /** The hook's first render, before its effect has run. */
    constructor (stored: Option<string>)
      ensures token == stored && !isAuthenticated && loading && userRole == Null && userInfo == None
    {
      token := stored;
      isAuthenticated := false;
      loading := true;
      userRole := Null;
      userInfo := None;
    }

    function Current(): View
      reads this
    {
      View(token, isAuthenticated, userRole, userInfo)
    }

    /** `checkAuth()` */
    method CheckAuth(decode: string -> Option<Record>, nowMs: nat)
      modifies this
      ensures Current() == Check(old(token), decode, nowMs)
      ensures !loading
    {
      if !AdminAuth.Present(token) {
        isAuthenticated, userRole, userInfo := false, Null, None;
        loading := false;
        return;
      }
      match decode(token.value) {
        case None =>
          token := None;
          isAuthenticated, userRole, userInfo := false, Null, None;
        case Some(payload) =>
          var exp := Get(payload, "exp");
          if Truthy(exp) && ToNumber(exp).Num? && (ToNumber(exp).n as real) < (nowMs as real) / 1000.0 {
            token := None;
            isAuthenticated, userRole, userInfo := false, Null, None;
          } else {
            isAuthenticated := true;
            userRole := Or(Get(payload, "role"), Str("USER"));
            userInfo := Some(map["userId" := Get(payload, "userId"), "email" := Get(payload, "email"),
                                 "role" := Or(Get(payload, "role"), Str("USER")), "username" := Get(payload, "username")]);
          }
      }
      loading := false;
    }

    /** `login(token)`: store it, then the auth-changed check. */
    method Login(t: string, decode: string -> Option<Record>, nowMs: nat)
      modifies this
      ensures Current() == Check(Some(t), decode, nowMs) && !loading
    {
      token := Some(t);
      CheckAuth(decode, nowMs);
    }

    /** `logout()`: remove it, then the auth-changed check. */
    method Logout(decode: string -> Option<Record>, nowMs: nat)
      modifies this
      ensures Current() == View(None, false, Null, None) && !loading
    {
      token := None;
      CheckAuth(decode, nowMs);
    }

    /** A `storage` event from another tab, whose change is already in this
        tab's storage: `key` is None for `localStorage.clear()`. Only the
        key "token" triggers a check; a clear removes the token without
        one. */
    method OnStorage(key: Option<string>, newValue: Option<string>, decode: string -> Option<Record>, nowMs: nat)
      modifies this
      ensures key == Some("token") ==> Current() == Check(newValue, decode, nowMs) && !loading
      ensures key.None? ==>
        token == None && isAuthenticated == old(isAuthenticated) && loading == old(loading)
        && userRole == old(userRole) && userInfo == old(userInfo)
      ensures key.Some? && key != Some("token") ==> Current() == old(Current()) && loading == old(loading)
    {
      match key
      case None =>
        token := None;
      case Some(k) =>
        if k == "token" {
          token := newValue;
          CheckAuth(decode, nowMs);
        }
    }
  }

  /** A second check right after the first changes nothing: the first one
      already removed every token it would refuse. */
  lemma CheckStable(stored: Option<string>, decode: string -> Option<Record>, nowMs: nat)
    ensures Check(Check(stored, decode, nowMs).stored, decode, nowMs) == Check(stored, decode, nowMs)
  {
  }

  /** `exp < now / 1000` is the admin app's `exp * 1000 < now` for the same
      numeric `exp`. */
  lemma SecondsAgainstMilliseconds(exp: int, nowMs: nat)
    ensures (exp as real) < (nowMs as real) / 1000.0 <==> exp * 1000 < nowMs
  {
    assert (nowMs as real) / 1000.0 * 1000.0 == nowMs as real;
  }

  /** The two apps judge the same token differently: a truthy numeric `exp`
      expires at the same moment in both, while `exp` of 0 or null has
      expired for the admin app and never does for this one. Only the
      admin app asks for the role "ADMIN". */
  lemma AppsDisagree(t: string, decode: string -> Option<Record>, nowMs: nat)
    requires t != "" && decode(t).Some?
    ensures var p := decode(t).value;
      && (Truthy(Get(p, "exp")) && ToNumber(Get(p, "exp")).Num? ==> (Expired(p, nowMs) <==> AdminAuth.Expired(p, nowMs)))
      && (Get(p, "exp") in {Num(0), Null} && nowMs > 0 ==>
            Check(Some(t), decode, nowMs).isAuthenticated && !AdminAuth.Authenticated(Some(t), decode, nowMs))
      && (!Expired(p, nowMs) && !AdminAuth.Expired(p, nowMs) ==>
            (AdminAuth.Authenticated(Some(t), decode, nowMs) <==>
               Check(Some(t), decode, nowMs).isAuthenticated && StrictEquals(Get(p, "role"), Str("ADMIN"))))
  {
    var p := decode(t).value;
    if Truthy(Get(p, "exp")) && ToNumber(Get(p, "exp")).Num? {
      SecondsAgainstMilliseconds(ToNumber(Get(p, "exp")).n, nowMs);
    }
  }
}
