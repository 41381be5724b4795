/** The client router (backend/src/routes/clientRoutes.js), mounted at
    `/api/clients`. Every route demands an administrator. */
module ClientRoutes {
  import Common
  import opened Users
  import opened Access
  import opened AuthMiddleware
  import opened Router

  /** The route table. There is no route that reads one client. */
  function Table(verb: Method, path: Path): Common.Option<Route> {
    match (verb, path)
    case (Get, Root) => Common.Some(Route(AdminOnly, ListClients))
    case (Post, Root) => Common.Some(Route(AdminOnly, CreateClient))
    case (Put, Param(_)) => Common.Some(Route(AdminOnly, UpdateClient))
    case (Delete, Param(_)) => Common.Some(Route(AdminOnly, DeleteClient))
    case _ => Common.None
  }

  function Handle(req: Request, verify: string -> Common.Option<Common.Id>, users: seq<Common.Entry<User>>): Outcome {
    Dispatch(Table(req.verb, req.path), req, verify, users)
  }

  /** Every client operation, listing included, needs an administrator; an
      authenticated caller of another role is forbidden. */
  lemma EverythingNeedsAdmin(req: Request, verify: string -> Common.Option<Common.Id>, users: seq<Common.Entry<User>>)
    requires Table(req.verb, req.path).Some?
    ensures Handle(req, verify, users).Ok? <==>
              Authenticate(req.authorization, verify, users).Next? &&
              Authenticate(req.authorization, verify, users).user.value.role == AdminRole
    ensures Handle(req, verify, users).Forbidden? <==>
              Authenticate(req.authorization, verify, users).Next? &&
              Authenticate(req.authorization, verify, users).user.value.role != AdminRole
  {
  }

  /** An unauthenticated caller gets the middleware's 401 on every route,
      never a 403. */
  lemma AuthenticationFirst(req: Request, verify: string -> Common.Option<Common.Id>, users: seq<Common.Entry<User>>)
    requires Table(req.verb, req.path).Some?
    requires Authenticate(req.authorization, verify, users).Unauthenticated?
    ensures Handle(req, verify, users) == Authenticate(req.authorization, verify, users)
  {
  }

  /** `GET /:id` matches no route, whoever asks. */
  lemma NoGetOneClient(id: string, authorization: Common.Option<string>,
                       verify: string -> Common.Option<Common.Id>, users: seq<Common.Entry<User>>)
    ensures Handle(Request(Get, Param(id), authorization), verify, users) == NotFound
  {
  }

  /** Each route names its own controller operation, and every operation
      of the client controller has a route. */
  lemma OneRoutePerHandler(v1: Method, p1: Path, v2: Method, p2: Path)
    requires Table(v1, p1).Some? && Table(v2, p2).Some?
    requires Table(v1, p1).value.handler == Table(v2, p2).value.handler
    ensures v1 == v2 && p1.Root? == p2.Root?
  {
  }

  lemma EveryHandlerRouted(h: Handler)
    requires h in {ListClients, CreateClient, UpdateClient, DeleteClient}
    ensures exists v, p :: Table(v, p).Some? && Table(v, p).value.handler == h
  {
    var id := "0";
    match h
    case ListClients => assert Table(Get, Root).value.handler == h;
    case CreateClient => assert Table(Post, Root).value.handler == h;
    case UpdateClient => assert Table(Put, Param(id)).value.handler == h;
    case DeleteClient => assert Table(Delete, Param(id)).value.handler == h;
  }
}
