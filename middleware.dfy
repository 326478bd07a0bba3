/** The bearer-token middleware and the ADMIN role gate. The same two
    functions are written out in the auth service's routes, the parking
    service's middleware and the booking service's middleware; they are
    modelled once here. Signature checking (`jwt.verify`) is a given partial
    function from token text to its decoded claims. */
module Middleware {
  import opened Js

  /** Decoded token claims (`userId`, `email`, `role`, `iat`, `exp`, ...). */
  type Claims = Record

  const BearerPrefix := "Bearer "
  const NoTokenError := "No token provided. Authorization header missing or invalid."
  const InvalidTokenError := "Invalid or expired token"
  const AdminRequiredError := "Admin access required"

  /** The text of `s` up to, not including, the first `c`. */
  function TakeUntil(s: string, c: char): (t: string)
    ensures |t| <= |s| && t == s[..|t|] && c !in t
    ensures |t| < |s| ==> s[|t|] == c
  {
    if s == [] || s[0] == c then [] else [s[0]] + TakeUntil(s[1..], c)
  }

  /** `s.split(c)` for a one-character separator. */
  function Split(s: string, c: char): (parts: seq<string>)
    ensures |parts| >= 1 && parts[0] == TakeUntil(s, c)
  {
    if s == [] then [""]
    else
      var rest := Split(s[1..], c);
      if s[0] == c then [""] + rest else [[s[0]] + rest[0]] + rest[1..]
  }

  /** `parts.join(c)`, the inverse of `Split`. */
  function Join(parts: seq<string>, c: char): string
    requires |parts| >= 1
  {
    if |parts| == 1 then parts[0] else parts[0] + [c] + Join(parts[1..], c)
  }

  /** Splitting loses nothing: joining the parts gives the string back. */
  lemma {:induction false} SplitJoin(s: string, c: char)
    ensures Join(Split(s, c), c) == s
  {
    if s != [] {
      SplitJoin(s[1..], c);
      var rest := Split(s[1..], c);
      if s[0] == c {
        JoinSeparator(rest, c);
      } else {
        JoinFirst(rest, s[0], c);
      }
      assert s == [s[0]] + s[1..];
    }
  }

  /** An empty first part puts a bare separator in front of the joined text. */
  lemma JoinSeparator(parts: seq<string>, c: char)
    requires |parts| >= 1
    ensures Join([""] + parts, c) == [c] + Join(parts, c)
  {
    assert ([""] + parts)[1..] == parts;
  }

  /** Putting a character in front of the first part puts it in front of
      the joined text. */
  lemma JoinFirst(parts: seq<string>, x: char, c: char)
    requires |parts| >= 1
    ensures Join([[x] + parts[0]] + parts[1..], c) == [x] + Join(parts, c)
  {
    var q := [[x] + parts[0]] + parts[1..];
    if |parts| > 1 {
      assert q[1..] == parts[1..];
    }
  }

  /** No part of a split contains the separator. */
  lemma {:induction false} SplitPartsPlain(s: string, c: char)
    ensures forall i :: 0 <= i < |Split(s, c)| ==> c !in Split(s, c)[i]
  {
    if s != [] {
      var rest := Split(s[1..], c);
      SplitPartsPlain(s[1..], c);
      var parts := Split(s, c);
      if s[0] == c {
        assert parts == [""] + rest;
      } else {
        assert parts == [[s[0]] + rest[0]] + rest[1..];
        forall i | 0 <= i < |parts| ensures c !in parts[i] {
          if i > 0 { assert parts[i] == rest[i]; }
        }
      }
    }
  }

  /** A prefix free of separators becomes the first part on its own. */
  lemma {:induction false} SplitAfterPrefix(p: string, q: string, c: char)
    requires c !in p
    ensures Split(p + [c] + q, c) == [p] + Split(q, c)
  {
    if p == [] {
      assert p + [c] + q == [c] + q;
      assert ([c] + q)[1..] == q;
    } else {
      var s := p + [c] + q;
      assert s[1..] == p[1..] + [c] + q;
      SplitAfterPrefix(p[1..], q, c);
      assert [p[0]] + p[1..] == p;
    }
  }

  predicate StartsWith(s: string, prefix: string) {
    |prefix| <= |s| && s[..|prefix|] == prefix
  }

  /** `authHeader.split(' ')[1]`: for a header that starts with "Bearer ",
      the text after "Bearer " up to the next space (empty after a double
      space). */
  function BearerToken(header: string): (token: string)
    requires StartsWith(header, BearerPrefix)
    ensures token == TakeUntil(header[|BearerPrefix|..], ' ')
  {
    SplitAfterPrefix("Bearer", header[|BearerPrefix|..], ' ');
    assert header == "Bearer" + [' '] + header[|BearerPrefix|..];
    Split(header, ' ')[1]
  }

  /** What a middleware decides: call `next`, or answer with an error. */
  datatype Gate = Next | Reject(status: int, error: string)

  /** The `authenticate` decision on the Authorization header: 401 without a
      "Bearer " header, 401 when the token does not verify, and otherwise
      `next` with `req.user` set to the decoded claims (returned here). */
  function Authenticate(header: Option<string>, verify: string -> Option<Claims>): (r: (Gate, Option<Claims>))
    ensures r.0.Reject? ==> r.0.status == 401 && r.1.None?
    ensures r.0.Next? <==> r.1.Some?
    ensures (header.None? || !StartsWith(header.value, BearerPrefix)) ==> r.0 == Reject(401, NoTokenError)
    ensures header.Some? && StartsWith(header.value, BearerPrefix) ==>
      match verify(BearerToken(header.value))
      case None => r.0 == Reject(401, InvalidTokenError)
      case Some(claims) => r == (Next, Some(claims))
  {
    if header.None? || !StartsWith(header.value, BearerPrefix) then (Reject(401, NoTokenError), None)
    else match verify(BearerToken(header.value))
      case None => (Reject(401, InvalidTokenError), None)
      case Some(claims) => (Next, Some(claims))
  }

  /** The incoming request, of which the middleware read the Authorization
      header and write `req.user`. */
  class Request {
    const authorization: Option<string>
    var user: Option<Claims>

    constructor (authorization: Option<string>)
      ensures this.authorization == authorization && user.None?
    {
      this.authorization := authorization;
      user := None;
    }
  }

  /** `authenticate(req, res, next)`: sets `req.user` only on success. */
  method AuthenticateRequest(req: Request, verify: string -> Option<Claims>) returns (g: Gate)
    modifies req
    ensures g == Authenticate(req.authorization, verify).0
    ensures g.Next? ==> req.user == Authenticate(req.authorization, verify).1
    ensures g.Reject? ==> req.user == old(req.user)
  {
    var r := Authenticate(req.authorization, verify);
    g := r.0;
    if g.Next? {
      req.user := r.1;
    }
  }

  /** `isAdmin`: 403 unless `req.user` is set and its role is exactly "ADMIN". */
  function IsAdmin(user: Option<Claims>): (g: Gate)
    ensures g.Next? <==> user.Some? && StrictEquals(Get(user.value, "role"), Str("ADMIN"))
    ensures g.Reject? ==> g == Reject(403, AdminRequiredError)
  {
    if user.None? || Get(user.value, "role") != Str("ADMIN") then Reject(403, AdminRequiredError) else Next
  }

  /** An Express middleware in a route's chain. */
  datatype Guard = AuthenticateGuard | IsAdminGuard

  /** Where a request ends up: in the route's handler, with `req.user` as the
      chain left it, or rejected by a middleware. */
  datatype Outcome = Handled(user: Option<Claims>) | Rejected(status: int, error: string)

  /** Runs the chain in order; the first rejection answers the request. */
  function RunChain(chain: seq<Guard>, header: Option<string>, verify: string -> Option<Claims>, user: Option<Claims>): (o: Outcome)
    ensures o.Rejected? ==> o.status == 401 || o.status == 403
    ensures chain == [] ==> o == Handled(user)
    decreases |chain|
  {
    if chain == [] then Handled(user)
    else match chain[0]
      case AuthenticateGuard =>
        var (g, claims) := Authenticate(header, verify);
        if g.Reject? then Rejected(g.status, g.error) else RunChain(chain[1..], header, verify, claims)
      case IsAdminGuard =>
        var g := IsAdmin(user);
        if g.Reject? then Rejected(g.status, g.error) else RunChain(chain[1..], header, verify, user)
  }

  /** `authenticate, isAdmin`, as put in front of every admin route. */
  const AdminChain: seq<Guard> := [AuthenticateGuard, IsAdminGuard]

  /** Through `authenticate, isAdmin` a request reaches the handler exactly when
      it carries a "Bearer " token that verifies to claims with role "ADMIN";
      a bad or missing token is a 401, a valid non-admin token a 403. */
  lemma AdminChainAdmits(header: Option<string>, verify: string -> Option<Claims>)
    ensures var o := RunChain(AdminChain, header, verify, None);
      var bearer := header.Some? && StartsWith(header.value, BearerPrefix);
      && (o.Handled? <==> bearer && verify(BearerToken(header.value)).Some?
                          && Get(verify(BearerToken(header.value)).value, "role") == Str("ADMIN"))
      && (o.Handled? ==> o.user == verify(BearerToken(header.value)))
      && (o.Rejected? && o.status == 403 ==> bearer && verify(BearerToken(header.value)).Some?)
      && (!bearer ==> o == Rejected(401, NoTokenError))
  {
    assert AdminChain[1..] == [IsAdminGuard];
    assert AdminChain[1..][1..] == [];
  }
}
