/** How Express runs a route declared as `router.<verb>(path, ...middleware,
    handler)`: the middleware in order, each either answering the request or
    passing it on; a request that matches no route is not found. */
module Router {
  import Common
  import opened Users
  import opened Access
  import opened AuthMiddleware

  /** The outcome of a request whose matching route, if any, is `route`.
      Authentication always runs first, so a request that fails it is
      refused with its 401 and never reaches the role check; a request that
      passes reaches the handler unless the chain also demands an
      administrator and the caller is not one, which is a 403. */
  function Dispatch(route: Common.Option<Route>, req: Request, verify: string -> Common.Option<Common.Id>,
                    users: seq<Common.Entry<User>>): (r: Outcome)
    ensures !r.Next?
    ensures route.None? <==> r == NotFound
    ensures route.Some? && Authenticate(req.authorization, verify, users).Unauthenticated? ==>
              r == Authenticate(req.authorization, verify, users)
    ensures r.Ok? <==>
              && route.Some? && Authenticate(req.authorization, verify, users).Next?
              && (route.value.chain == AdminOnly ==>
                    Authenticate(req.authorization, verify, users).user.value.role == AdminRole)
    ensures r.Ok? ==> r.handler == route.value.handler && r.caller == Authenticate(req.authorization, verify, users).user
    ensures r.Forbidden? <==>
              && route.Some? && route.value.chain == AdminOnly
              && Authenticate(req.authorization, verify, users).Next?
              && Authenticate(req.authorization, verify, users).user.value.role != AdminRole
  {
    if route.None? then NotFound
    else
      var auth := Authenticate(req.authorization, verify, users);
      if !auth.Next? then auth
      else if route.value.chain == Authenticated then Ok(route.value.handler, auth.user)
      else
        var check := AdminCheck(auth.user);
        if check.Next? then Ok(route.value.handler, check.user)
        else
          assert route.value.chain == AdminOnly && auth.user.value.role != AdminRole;
          check
  }
}
