/** The auth service's router: which handler serves each path and which
    middleware runs before it. Its inline `authenticate` and `isAdmin` are
    the ones in the Middleware module. */
module AuthRoutes {
  import opened Js
  import opened Middleware

  datatype Handler = RegisterHandler | LoginHandler | RegisterAdminHandler | GetUsersHandler

  datatype Route = Route(verb: string, path: string, guards: seq<Guard>, handler: Handler)

  const Routes: seq<Route> := [
    Route("POST", "/register", [], RegisterHandler),
    Route("POST", "/login", [], LoginHandler),
    Route("POST", "/register-admin", [], RegisterAdminHandler),
    Route("GET", "/users", AdminChain, GetUsersHandler)
  ]

  /** The route that serves a request, if any, matching verb and path
      exactly (no case folding, no trailing `/`). */
  function RouteFor(verb: string, path: string): (r: Option<Route>)
    ensures r.Some? ==> r.value in Routes && r.value.verb == verb && r.value.path == path
    ensures r.None? ==> forall i :: 0 <= i < |Routes| ==> !(Routes[i].verb == verb && Routes[i].path == path)
  {
    if verb == "POST" && path == "/register" then Some(Routes[0])
    else if verb == "POST" && path == "/login" then Some(Routes[1])
    else if verb == "POST" && path == "/register-admin" then Some(Routes[2])
    else if verb == "GET" && path == "/users" then Some(Routes[3])
    else None
  }

  /** A request reaches its handler, or is answered by a middleware. */
  function Serve(verb: string, path: string, header: Option<string>, verify: string -> Option<Claims>): (o: Option<(Handler, Outcome)>)
    ensures o.Some? <==> RouteFor(verb, path).Some?
    ensures o.Some? ==> o.value.0 == RouteFor(verb, path).value.handler
  {
    match RouteFor(verb, path)
    case None => None
    case Some(route) => Some((route.handler, RunChain(route.guards, header, verify, None)))
  }

  /** Registration and login are open to any request; the user list needs a
      bearer token whose claims carry the role "ADMIN". */
  lemma OnlyUsersGuarded(verb: string, path: string, header: Option<string>, verify: string -> Option<Claims>)
    requires Serve(verb, path, header, verify).Some?
    ensures var (handler, outcome) := Serve(verb, path, header, verify).value;
      && (handler != GetUsersHandler ==> outcome == Handled(None))
      && (handler == GetUsersHandler ==>
            (outcome.Handled? <==>
               header.Some? && StartsWith(header.value, BearerPrefix) && verify(BearerToken(header.value)).Some?
               && Get(verify(BearerToken(header.value)).value, "role") == Str("ADMIN")))
  {
    AdminChainAdmits(header, verify);
  }
}
