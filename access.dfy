/** The vocabulary of the access layer shared by the middleware and the three
    route files: requests, the controller operations a route dispatches to,
    and the outcome of running a route's middleware chain. */
module Access {
  import opened Common
  import opened Users

  datatype Method = Get | Post | Put | Delete

  /** The two path shapes the routers declare: `/` and `/:id`. */
  datatype Path = Root | Param(id: string)

  /** A request as the middleware sees it: its method, its path below the
      router's mount point, and its Authorization header, if any. */
  datatype Request = Request(verb: Method, path: Path, authorization: Option<string>)

  /** The controller operations. */
  datatype Handler =
    | ListOrders | GetOrder | CreateOrder | UpdateOrder | DeleteOrder
    | ListPieces | GetPiece | CreatePiece | UpdatePiece | DeletePiece
    | ListClients | CreateClient | UpdateClient | DeleteClient

  /** The two middleware chains the routes use: `authMiddleware` alone, or
      `authMiddleware` followed by `adminOnly`. */
  datatype Chain = Authenticated | AdminOnly

  datatype Route = Route(chain: Chain, handler: Handler)

  /** `Next` is a middleware calling `next()` with `req.user` set; `Ok` is the
      request reaching its controller with the caller attached; `NotFound` is
      a request no route matches. */
  datatype Outcome =
    | Next(user: Entry<User>)
    | Unauthenticated(message: string)
    | Forbidden(message: string)
    | NotFound
    | Ok(handler: Handler, caller: Entry<User>)
}
