/** The auth service's controller: registration of users and of admins, and
    login. The bcrypt digest and comparison of strings, signing (`jwt.sign`)
    and the database are given functions; bcrypt's own refusal of a
    password that is not a string is written out. The INSERT a handler
    issues is returned beside its reply, so "nothing is inserted" is
    `None`. */
module AuthController {
  import opened Js

  /** `[^\s@]+`: one or more characters, none white space or '@'. */
  predicate Plain(s: string) {
    |s| > 0 && forall i :: 0 <= i < |s| ==> !IsSpace(s[i]) && s[i] != '@'
  }

  /** `/^[^\s@]+@[^\s@]+\.[^\s@]+$/` read off the pattern: the string splits
      at an '@' and a later '.' into three plain parts. */
  ghost predicate EmailPattern(s: string) {
    exists i, j :: 0 < i < j < |s| - 1 && s[i] == '@' && s[j] == '.'
      && Plain(s[..i]) && Plain(s[i + 1..j]) && Plain(s[j + 1..])
  }

  /** The first position of `c` in `s`, or `|s|`. */
  function Find(s: string, c: char): (k: nat)
    ensures k <= |s| && c !in s[..k]
    ensures forall t :: 0 <= t < k ==> s[t] != c
    ensures k < |s| ==> s[k] == c
  {
    if s == [] || s[0] == c then 0
    else
      var k := Find(s[1..], c);
      assert s[..k + 1] == [s[0]] + s[1..][..k];
      k + 1
  }

  /** The validator as one would write it without a regular expression: no
      white space; exactly one '@', not first; after it, a '.' that is
      neither the first nor the last character. */
  predicate IsEmail(s: string) {
    && (forall i :: 0 <= i < |s| ==> !IsSpace(s[i]))
    && var k := Find(s, '@');
       && 0 < k < |s| && '@' !in s[k + 1..]
       && var d := s[k + 1..];
          |d| >= 3 && '.' in d[1..|d| - 1]
  }

  /** The pattern holds exactly when the validator accepts. */
  lemma EmailPatternIff(s: string)
    ensures EmailPattern(s) <==> IsEmail(s)
  {
    if EmailPattern(s) {
      var i, j :| 0 < i < j < |s| - 1 && s[i] == '@' && s[j] == '.'
        && Plain(s[..i]) && Plain(s[i + 1..j]) && Plain(s[j + 1..]);
      PatternAccepted(s, i, j);
    }
    if IsEmail(s) {
      AcceptedPattern(s);
    }
  }

  lemma PatternAccepted(s: string, i: int, j: int)
    requires 0 < i < j < |s| - 1 && s[i] == '@' && s[j] == '.'
    requires Plain(s[..i]) && Plain(s[i + 1..j]) && Plain(s[j + 1..])
    ensures IsEmail(s)
  {
    PlainPieces(s, i, j);
    var k := Find(s, '@');
    assert k == i;
    var d := s[k + 1..];
    assert d[j - i - 1] == '.';
    assert d[1..|d| - 1][j - i - 2] == '.';
    forall t | 0 <= t < |d| ensures d[t] != '@' {
      assert d[t] == s[k + 1 + t];
    }
  }

  lemma AcceptedPattern(s: string)
    requires IsEmail(s)
    ensures EmailPattern(s)
  {
    var k := Find(s, '@');
    var d := s[k + 1..];
    var m :| 0 <= m < |d[1..|d| - 1]| && d[1..|d| - 1][m] == '.';
    var j := k + 2 + m;
    assert s[j] == '.';
    forall t | 0 <= t < |s| && t != k ensures s[t] != '@' {
      if t > k {
        assert d[t - k - 1] == s[t];
      }
    }
    var a, b, c := s[..k], s[k + 1..j], s[j + 1..];
    forall t | 0 <= t < |a| ensures !IsSpace(a[t]) && a[t] != '@' {
      assert a[t] == s[t];
    }
    forall t | 0 <= t < |b| ensures !IsSpace(b[t]) && b[t] != '@' {
      assert b[t] == s[k + 1 + t];
    }
    forall t | 0 <= t < |c| ensures !IsSpace(c[t]) && c[t] != '@' {
      assert c[t] == s[j + 1 + t];
    }
    assert Plain(a) && Plain(b) && Plain(c);
  }

  /** No '@' and no white space in the three pieces, read back on `s`. */
  lemma PlainPieces(s: string, i: int, j: int)
    requires 0 < i < j < |s| - 1 && s[i] == '@' && s[j] == '.'
    requires Plain(s[..i]) && Plain(s[i + 1..j]) && Plain(s[j + 1..])
    ensures forall t :: 0 <= t < |s| && t != i ==> s[t] != '@'
    ensures forall t :: 0 <= t < |s| ==> !IsSpace(s[t])
  {
    forall t | 0 <= t < |s| ensures !IsSpace(s[t]) && (t != i ==> s[t] != '@') {
      if t < i {
        assert s[..i][t] == s[t];
      } else if i < t < j {
        assert s[i + 1..j][t - i - 1] == s[t];
      } else if t > j {
        assert s[j + 1..][t - j - 1] == s[t];
      }
    }
  }

  /** `emailRegex.test(email)`: the value is tested as its string form. */
  predicate EmailOk(email: Value) {
    IsEmail(ToStr(email))
  }

  predicate OccursAt(s: string, t: string, i: int) {
    0 <= i <= |s| - |t| && s[i..i + |t|] == t
  }

  /** `s.includes(t)` */
  predicate Includes(s: string, t: string) {
    exists i :: 0 <= i <= |s| && OccursAt(s, t, i)
  }

  /** The `users` row an INSERT writes. */
  datatype NewUser = NewUser(username: Value, email: Value, passwordHash: string, role: string)

  /** How the INSERT ended: a `23505` unique violation carries the name of
      the violated constraint, when the driver reports one. */
  datatype InsertResult = Inserted | UniqueViolation(constraint: Option<string>) | InsertFailed

  /** A stored user as `SELECT * FROM users` returns it. */
  datatype UserRecord = UserRecord(id: Value, email: Value, passwordHash: string, role: Value)

  datatype Reply = Message(status: int, message: string) | LoggedIn(token: string, role: Value)

  const FieldsRequired := "Username, email, and password are required"
  const InvalidEmail := "Invalid email format"
  const BadSecret := "Invalid admin secret key"
  const EmailTaken := "Email already exists"
  const UsernameTaken := "Username already exists"
  const ServerError := "Internal server error"
  const LoginRequired := "Email and password are required"
  const BadLogin := "Invalid email or password"
  const DefaultAdminSecret := "admin-secret-key-change-in-production"

  /** The catch block shared by both registrations. */
  function InsertFailure(result: InsertResult): (reply: Reply)
    requires !result.Inserted?
    ensures result.UniqueViolation? && result.constraint.Some? && Includes(result.constraint.value, "email") ==>
      reply == Message(409, EmailTaken)
    ensures result.UniqueViolation? && !(result.constraint.Some? && Includes(result.constraint.value, "email")) ==>
      reply == Message(409, UsernameTaken)
    ensures result.InsertFailed? ==> reply == Message(500, ServerError)
  {
    match result
    case UniqueViolation(c) =>
      if c.Some? && Includes(c.value, "email") then Message(409, EmailTaken) else Message(409, UsernameTaken)
    case InsertFailed => Message(500, ServerError)
  }

  /** `bcrypt.hash(password, 4)`: bcrypt rejects data that is not a string
      or a Buffer, and a JSON body cannot carry a Buffer, so a number or a
      boolean password fails here and the catch block answers 500.
      `digest` is the hash of a string. */
  function BcryptHash(password: Value, digest: string -> string): (h: Option<string>)
    ensures h.Some? <==> password.Str?
    ensures h.Some? ==> h.value == digest(password.s)
  {
    if password.Str? then Some(digest(password.s)) else None
  }

  /** `bcrypt.compare(password, hash)`: None where bcrypt rejects a password
      that is not a string; `check` compares a string with a stored hash. */
  function BcryptCompare(password: Value, stored: string, check: (string, string) -> bool): (b: Option<bool>)
    ensures b.Some? <==> password.Str?
    ensures b.Some? ==> b.value == check(password.s, stored)
  {
    if password.Str? then Some(check(password.s, stored)) else None
  }

  /** `!username || !email || !password` fails. */
  predicate HasCredentials(body: Record) {
    Truthy(Get(body, "username")) && Truthy(Get(body, "email")) && Truthy(Get(body, "password"))
  }

  /** POST /register: 400 on a missing field, 400 on a malformed email,
      500 when bcrypt refuses the password; otherwise one INSERT with role
      "USER" whatever the body says, and its outcome decides 201, 409 or
      500. */
  function Register(body: Record, digest: string -> string, insert: NewUser -> InsertResult): (r: (Reply, Option<NewUser>))
    ensures !HasCredentials(body) ==> r == (Message(400, FieldsRequired), None)
    ensures HasCredentials(body) && !EmailOk(Get(body, "email")) ==> r == (Message(400, InvalidEmail), None)
    ensures HasCredentials(body) && EmailOk(Get(body, "email")) && !Get(body, "password").Str? ==>
      r == (Message(500, ServerError), None)
    ensures HasCredentials(body) && EmailOk(Get(body, "email")) && Get(body, "password").Str? ==>
      var row := NewUser(Get(body, "username"), Get(body, "email"), digest(Get(body, "password").s), "USER");
      && r.1 == Some(row)
      && r.0 == (if insert(row).Inserted? then Message(201, "User registered successfully") else InsertFailure(insert(row)))
    ensures r.1.Some? <==> HasCredentials(body) && EmailOk(Get(body, "email")) && Get(body, "password").Str?
    ensures r.1.Some? ==> r.1.value.role == "USER"
  {
    if !HasCredentials(body) then (Message(400, FieldsRequired), None)
    else if !EmailOk(Get(body, "email")) then (Message(400, InvalidEmail), None)
    else match BcryptHash(Get(body, "password"), digest)
      case None => (Message(500, ServerError), None)
      case Some(h) =>
        var row := NewUser(Get(body, "username"), Get(body, "email"), h, "USER");
        var result := insert(row);
        (if result.Inserted? then Message(201, "User registered successfully") else InsertFailure(result), Some(row))
  }

  /** `process.env.ADMIN_SECRET_KEY || 'admin-secret-key-change-in-production'` */
  function RequiredSecret(env: Option<string>): (s: string)
    ensures env.Some? && env.value != "" ==> s == env.value
    ensures env.None? || env.value == "" ==> s == DefaultAdminSecret
    ensures s != ""
  {
    if env.Some? && env.value != "" then env.value else DefaultAdminSecret
  }

  /** POST /register-admin: 400 on a missing field, then 403 unless the
      secret is exactly the configured one, then 400 on a malformed email,
      then 500 when bcrypt refuses the password; the INSERT writes role
      "ADMIN". */
  function RegisterAdmin(body: Record, env: Option<string>, digest: string -> string,
                         insert: NewUser -> InsertResult): (r: (Reply, Option<NewUser>))
    ensures !HasCredentials(body) ==> r == (Message(400, FieldsRequired), None)
    ensures HasCredentials(body) && !StrictEquals(Get(body, "adminSecret"), Str(RequiredSecret(env))) ==>
      r == (Message(403, BadSecret), None)
    ensures (HasCredentials(body) && StrictEquals(Get(body, "adminSecret"), Str(RequiredSecret(env)))
             && !EmailOk(Get(body, "email"))) ==> r == (Message(400, InvalidEmail), None)
    ensures (HasCredentials(body) && StrictEquals(Get(body, "adminSecret"), Str(RequiredSecret(env)))
             && EmailOk(Get(body, "email")) && !Get(body, "password").Str?) ==>
      r == (Message(500, ServerError), None)
    ensures (HasCredentials(body) && StrictEquals(Get(body, "adminSecret"), Str(RequiredSecret(env)))
             && EmailOk(Get(body, "email")) && Get(body, "password").Str?) ==>
      var row := NewUser(Get(body, "username"), Get(body, "email"), digest(Get(body, "password").s), "ADMIN");
      && r.1 == Some(row)
      && r.0 == (if insert(row).Inserted? then Message(201, "Admin registered successfully") else InsertFailure(insert(row)))
    ensures r.1.Some? <==>
      HasCredentials(body) && StrictEquals(Get(body, "adminSecret"), Str(RequiredSecret(env)))
      && EmailOk(Get(body, "email")) && Get(body, "password").Str?
    ensures r.1.Some? ==> r.1.value.role == "ADMIN"
  {
    var secret := Get(body, "adminSecret");
    if !HasCredentials(body) then (Message(400, FieldsRequired), None)
    else if !Truthy(secret) || !StrictEquals(secret, Str(RequiredSecret(env))) then (Message(403, BadSecret), None)
    else if !EmailOk(Get(body, "email")) then (Message(400, InvalidEmail), None)
    else match BcryptHash(Get(body, "password"), digest)
      case None => (Message(500, ServerError), None)
      case Some(h) =>
        var row := NewUser(Get(body, "username"), Get(body, "email"), h, "ADMIN");
        var result := insert(row);
        (if result.Inserted? then Message(201, "Admin registered successfully") else InsertFailure(result), Some(row))
  }

  /** The claims `jwt.sign` receives. */
  function TokenClaims(user: UserRecord): (c: Record)
    ensures c.Keys == {"userId", "email", "role"}
    ensures c["userId"] == user.id && c["email"] == user.email && c["role"] == user.role
  {
    map["userId" := user.id, "email" := user.email, "role" := user.role]
  }

  /** POST /login: 400 without both fields; the same 401 for an unknown
      email and for a wrong password; otherwise the signed token of the
      first matching user and its role. A failed query, a password bcrypt
      refuses to compare and a failed `jwt.sign` (None from `sign`, as
      when the signing secret is unset) are each a 500. */
  function Login(body: Record, select: Value -> Option<seq<UserRecord>>,
                 check: (string, string) -> bool, sign: Record -> Option<string>): (reply: Reply)
    ensures !(Truthy(Get(body, "email")) && Truthy(Get(body, "password"))) ==> reply == Message(400, LoginRequired)
    ensures Truthy(Get(body, "email")) && Truthy(Get(body, "password")) ==>
      var password := Get(body, "password");
      match select(Get(body, "email"))
      case None => reply == Message(500, ServerError)
      case Some(rows) =>
        && (rows == [] ==> reply == Message(401, BadLogin))
        && (rows != [] && !password.Str? ==> reply == Message(500, ServerError))
        && (rows != [] && password.Str? && !check(password.s, rows[0].passwordHash) ==> reply == Message(401, BadLogin))
        && (rows != [] && password.Str? && check(password.s, rows[0].passwordHash) ==>
              reply == (match sign(TokenClaims(rows[0]))
                        case None => Message(500, ServerError)
                        case Some(token) => LoggedIn(token, rows[0].role)))
  {
    var email, password := Get(body, "email"), Get(body, "password");
    if !Truthy(email) || !Truthy(password) then Message(400, LoginRequired)
    else match select(email)
      case None => Message(500, ServerError)
      case Some(rows) =>
        if rows == [] then Message(401, BadLogin)
        else match BcryptCompare(password, rows[0].passwordHash, check)
          case None => Message(500, ServerError)
          case Some(valid) =>
            if !valid then Message(401, BadLogin)
            else match sign(TokenClaims(rows[0]))
              case None => Message(500, ServerError)
              case Some(token) => LoggedIn(token, rows[0].role)
  }

  /** A failed login does not tell an unknown email from a wrong password. */
  lemma LoginFailuresAlike(body: Record, select: Value -> Option<seq<UserRecord>>,
                           check: (string, string) -> bool, sign: Record -> Option<string>)
    requires Truthy(Get(body, "email")) && Truthy(Get(body, "password"))
    ensures Login(body, select, check, sign).LoggedIn? <==>
      && select(Get(body, "email")).Some? && select(Get(body, "email")).value != []
      && Get(body, "password").Str?
      && check(Get(body, "password").s, select(Get(body, "email")).value[0].passwordHash)
      && sign(TokenClaims(select(Get(body, "email")).value[0])).Some?
    ensures Login(body, select, check, sign).Message? && Login(body, select, check, sign).status == 401 ==>
      Login(body, select, check, sign) == Message(401, BadLogin)
  {
  }
}
