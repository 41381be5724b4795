/** The piece router (backend/src/routes/pieceRoutes.js), mounted at
    `/api/pieces`. */
module PieceRoutes {
  import Common
  import opened Users
  import opened Access
  import opened AuthMiddleware
  import opened Router

  /** The route table. */
  function Table(verb: Method, path: Path): Common.Option<Route> {
    match (verb, path)
    case (Get, Root) => Common.Some(Route(Authenticated, ListPieces))
    case (Get, Param(_)) => Common.Some(Route(Authenticated, GetPiece))
    case (Post, Root) => Common.Some(Route(AdminOnly, CreatePiece))
    case (Put, Param(_)) => Common.Some(Route(AdminOnly, UpdatePiece))
    case (Delete, Param(_)) => Common.Some(Route(AdminOnly, DeletePiece))
    case _ => Common.None
  }

  function Handle(req: Request, verify: string -> Common.Option<Common.Id>, users: seq<Common.Entry<User>>): Outcome {
    Dispatch(Table(req.verb, req.path), req, verify, users)
  }

  /** Listing and reading pieces needs an authenticated caller of any role,
      and is never forbidden. */
  lemma ReadsNeedAuthenticationOnly(req: Request, verify: string -> Common.Option<Common.Id>, users: seq<Common.Entry<User>>)
    requires req.verb == Get
    ensures Handle(req, verify, users).Ok? <==> Authenticate(req.authorization, verify, users).Next?
    ensures !Handle(req, verify, users).Forbidden?
    ensures Handle(req, verify, users).Ok? ==>
              Handle(req, verify, users).handler == (if req.path.Root? then ListPieces else GetPiece)
  {
  }

  /** Creating, updating and deleting pieces needs an administrator; an
      authenticated caller of another role is forbidden. */
  lemma WritesNeedAdmin(req: Request, verify: string -> Common.Option<Common.Id>, users: seq<Common.Entry<User>>)
    requires req.verb != Get && Table(req.verb, req.path).Some?
    ensures Handle(req, verify, users).Ok? <==>
              Authenticate(req.authorization, verify, users).Next? &&
              Authenticate(req.authorization, verify, users).user.value.role == AdminRole
    ensures Handle(req, verify, users).Forbidden? <==>
              Authenticate(req.authorization, verify, users).Next? &&
              Authenticate(req.authorization, verify, users).user.value.role != AdminRole
  {
  }

  /** An unauthenticated caller gets the middleware's 401 on every route,
      never a 403. */
  lemma AuthenticationFirst(req: Request, verify: string -> Common.Option<Common.Id>, users: seq<Common.Entry<User>>)
    requires Table(req.verb, req.path).Some?
    requires Authenticate(req.authorization, verify, users).Unauthenticated?
    ensures Handle(req, verify, users) == Authenticate(req.authorization, verify, users)
  {
  }

  /** Each route names its own controller operation, and every operation
      of the piece controller has a route. */
  lemma OneRoutePerHandler(v1: Method, p1: Path, v2: Method, p2: Path)
    requires Table(v1, p1).Some? && Table(v2, p2).Some?
    requires Table(v1, p1).value.handler == Table(v2, p2).value.handler
    ensures v1 == v2 && p1.Root? == p2.Root?
  {
  }

  lemma EveryHandlerRouted(h: Handler)
    requires h in {ListPieces, GetPiece, CreatePiece, UpdatePiece, DeletePiece}
    ensures exists v, p :: Table(v, p).Some? && Table(v, p).value.handler == h
  {
    var id := "0";
    match h
    case ListPieces => assert Table(Get, Root).value.handler == h;
    case GetPiece => assert Table(Get, Param(id)).value.handler == h;
    case CreatePiece => assert Table(Post, Root).value.handler == h;
    case UpdatePiece => assert Table(Put, Param(id)).value.handler == h;
    case DeletePiece => assert Table(Delete, Param(id)).value.handler == h;
  }
}
