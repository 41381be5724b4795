# Oficina mecânica — a Dafny model of the repair-shop back office

The system is a small repair-shop back office. It has a catalogue of
pieces (`Peça`), a client directory (`Cliente`) and service orders
(`Ordem de serviço`). Each order names one client and lists the pieces
it uses, in quantity. The server is Express over MongoDB through
Mongoose. It has three CRUD controllers, a JWT middleware that separates
any signed-in user from an administrator, a login endpoint and a
start-up step that creates the administrator account. The React front
end has an administrator's order editor, a client's filtered order list
and a route guard.

This project models that behaviour:

- The three Mongoose schemas become validity predicates with their casts:
  trim, lower-case, defaults, and the `pre('save')` stamp (`piece_model.dfy`,
  `client_model.dfy`, `order_model.dfy`). The string behaviour they rely
  on is in `text.dfy`.
- The three collections are classes holding a `map` from id to document,
  with one method per controller operation (`*_controller.dfy`). Order
  reads resolve each reference to the current document, or to null.
- The access decision is pure functions returning an `Outcome`:
  `authMiddleware`, `adminOnly`, Express's route chain, and the three
  route tables (`access.dfy`, `auth_middleware.dfy`, `router.dfy`,
  `*_routes.dfy`).
- `login` (`auth_controller.dfy`) and the administrator bootstrap
  (`admin_setup.dfy`) work over a user collection kept in natural order
  (`users.dfy`).
- The front end's order-form logic (`admin_dashboard.dfy`), the client's
  order filter (`client_dashboard.dfy`) and the route guard
  (`protected_route.dfy`) are modelled as well.
- `scenarios.dfy` holds sequences of requests whose effect only shows
  across several calls.

The model follows the code. In several places the code does less than one
might expect, and so does the model:

- **Writes are not reference-checked.** An order can be created for a
  client or piece that does not exist (`Scenarios.OrderForUnknownClient`).
- **Updates skip validation and the save hook.** `findByIdAndUpdate`
  without `runValidators` runs no validator and no `pre('save')` hook, but
  it does apply the `trim`/`lowercase` setters. So an update can store a
  negative price, a blank name, a status outside the enum or a quantity of
  0, and it does not touch `updatedAt`.
- **Ownership is filtered in the browser only.** `listOrders` returns
  every order to every signed-in caller. The ownership filter exists only
  in the client dashboard.
- **Quantities need not be whole.** Stock quantities are not required to
  be integers, and order quantities need only be at least 1.

The client dashboard compares `order.client._id`, a Client document id,
with the signed-in user's id, a User document id. These are two different
collections, so the model keeps them as two independent ids. As a result,
a client-role user sees no orders unless a Client id happens to equal
their User id. The model's ids are small per-collection counters, so they
coincide far more often than MongoDB ObjectIds would.

The JWT library, password hashing and the clock are parameters:

- `verify` takes a token to the id in its payload, or nothing.
- `comparePassword` takes a user and a password to a boolean.
- `now` is a natural number.

## Model

| member | source | states |
|---|---|---|
| Text.TrimStart | backend/src/models/piece.js:4 | the result is the suffix of the input that remains after dropping only white space, and it does not start with white space |
| Text.TrimEnd | backend/src/models/piece.js:4 | the result is the prefix of the input that remains after dropping only white space, and it does not end with white space |
| Text.Trim | backend/src/models/piece.js:4-5 | `trim`: the result is the input minus white-space runs at both ends, and it has no white space at either end |
| Text.TrimOfTrimmed | backend/src/models/client.js:4 | a string with no white space at either end trims to itself |
| Text.TrimIdempotent | backend/src/models/piece.js:4-5 | trimming twice equals trimming once |
| Text.TrimBlank | backend/src/models/client.js:4 | a white-space-only string trims to empty, so a blank required name is rejected |
| Text.LowerChar | backend/src/models/client.js:6 | each capital letter maps to its small letter; any other character is kept |
| Text.Lower | backend/src/models/client.js:6 | `lowercase`: the length is kept and each character is lower-cased |
| Text.LowerHasNoUpper | backend/src/models/client.js:6 | no capital letter is left after lower-casing |
| Text.LowerIdempotent | backend/src/models/client.js:6 | lower-casing twice equals lower-casing once |
| Text.Split | backend/src/middlewares/authMiddleware.js:8 | `split(' ')`: at least one piece, none containing the separator, and a string without the separator is one piece |
| Text.JoinSplit | backend/src/middlewares/authMiddleware.js:8 | joining the pieces of a split with the separator gives the string back |
| Text.SplitJoin | backend/src/middlewares/authMiddleware.js:8 | splitting a join of separator-free pieces gives the pieces back |
| Text.SplitPiece | backend/src/middlewares/authMiddleware.js:8 | a separator-free string splits into itself alone |
| Text.SplitCons | backend/src/middlewares/authMiddleware.js:8 | splitting `w + sep + t` puts `w` in front of the pieces of `t` |
| Users.FirstIndex | backend/src/controllers/authController.js:7 | the position of the first match: it matches, nothing before it matches, and there is none exactly when nothing matches |
| Users.FirstIndexAppend | backend/src/config/adminSetup.js:6-16 | appending keeps the first match; with no earlier match the first match comes from the appended part |
| Users.FindByEmail | backend/src/controllers/authController.js:7 | `findOne({ email })`: the first user whose email is exactly the one given, or none exactly when no user has it |
| Users.FindById | backend/src/middlewares/authMiddleware.js:12 | `findById`: a stored user with that id, or none exactly when no user has it |
| Users.FindByEmailAppend | backend/src/config/adminSetup.js:6-16 | adding a user keeps the user an email finds; an email that found nobody finds the added user, if it is theirs |
| PieceModel.Stamp | backend/src/models/piece.js:13-16 | the save hook sets updatedAt to the clock and changes nothing else |
| PieceModel.Create | backend/src/models/piece.js:3-16 | a piece is created iff name and category are present and not blank, the price is present and ≥ 0, and the quantity, if given, is ≥ 0; the created piece is valid, its name and category are the trimmed inputs, its quantity defaults to 0, its createdAt defaults to the clock and its updatedAt is the clock |
| PieceModel.CreatedIsTrimmed | backend/src/models/piece.js:4-5 | a created piece stores its name and category trimmed: each is the trim of the input and trimming it again changes nothing |
| PieceModel.UpdateNothing | backend/src/controllers/pieceController.js:20 | an empty update body changes nothing |
| PieceModel.UpdateKeepsStamp | backend/src/controllers/pieceController.js:20 | an update does not refresh updatedAt |
| PieceModel.UpdateIdempotent | backend/src/controllers/pieceController.js:20 | sending the same update twice equals sending it once |
| PieceModel.UpdateBypassesValidation | backend/src/controllers/pieceController.js:20 | an update can give a valid piece a negative price |
| ClientModel.NormalEmail | backend/src/models/client.js:6 | an email is stored lower-cased, and an absent one stays absent |
| ClientModel.Create | backend/src/models/client.js:3-8 | a client is created iff the name is present and not blank; its name is trimmed, its email lower-cased, its phone kept and its createdAt defaults to the clock |
| ClientModel.CreatedIsNormal | backend/src/models/client.js:4-6 | a stored email is its own lower-case form and a stored name is its own trim |
| ClientModel.EmailCaseInsensitive | backend/src/models/client.js:6 | emails that differ only in case are stored alike |
| ClientModel.UpdateIdempotent | backend/src/controllers/clientController.js:14 | sending the same update twice equals sending it once |
| ClientModel.UpdateBypassesValidation | backend/src/controllers/clientController.js:14 | an update can store a blank name |
| OrderModel.ParseStatus | backend/src/models/order.js:10 | an admitted status string is the spelling of the status it parses to |
| OrderModel.StatusRoundTrip | backend/src/models/order.js:10 | every status is admitted and parses back to itself |
| OrderModel.ParseStatusExact | backend/src/models/order.js:10 | a string is admitted iff it is `aberta`, `em_andamento` or `concluida` |
| OrderModel.Create | backend/src/models/order.js:3-18 | an order is created iff a client is given, every item has a piece and a quantity ≥ 1, and the status, if given, is in the enum; items default to empty, status to `aberta`, createdAt to the clock, and updatedAt is the clock |
| OrderModel.CreateDefaultsToOpen | backend/src/models/order.js:10 | an order created without a status is open |
| OrderModel.AnyStatusReplacesAny | backend/src/controllers/orderController.js:24 | any status can replace any other: the order stays valid and nothing else, updatedAt included, changes |
| OrderModel.UpdateBypassesValidation | backend/src/controllers/orderController.js:24 | an update can store a status outside the enum or an item of quantity 0 |
| OrderModel.UpdateIdempotent | backend/src/controllers/orderController.js:24 | sending the same update twice equals sending it once |
| PieceController.PieceStore.List | backend/src/controllers/pieceController.js:3-6 | every stored piece is returned |
| PieceController.PieceStore.Get | backend/src/controllers/pieceController.js:8-12 | the piece with that id, or 404 "Peça não encontrada" |
| PieceController.PieceStore.Create | backend/src/controllers/pieceController.js:14-17 | an accepted body adds exactly one piece under the next id, which then advances, and answers 201 with it; a rejected body changes nothing |
| PieceController.PieceStore.Update | backend/src/controllers/pieceController.js:19-23 | the named piece becomes the merge and is returned; no other piece changes; an unknown id gets 404 and changes nothing |
| PieceController.PieceStore.Delete | backend/src/controllers/pieceController.js:25-29 | exactly the named piece is removed with 204; an unknown id gets 404 and changes nothing |
| ClientController.ClientStore.List | backend/src/controllers/clientController.js:3-6 | every stored client is returned |
| ClientController.ClientStore.Create | backend/src/controllers/clientController.js:8-11 | an accepted body adds exactly one client under the next id, which then advances, and answers 201; a rejected body changes nothing |
| ClientController.ClientStore.Update | backend/src/controllers/clientController.js:13-17 | the named client becomes the merge and is returned; an unknown id gets 404 "Cliente não encontrado" and changes nothing |
| ClientController.ClientStore.Delete | backend/src/controllers/clientController.js:19-23 | exactly the named client is removed with 204; an unknown id gets 404 and changes nothing |
| OrderController.Resolve | backend/src/controllers/orderController.js:5-6 | a reference resolves to the stored document iff that document exists, and to null otherwise |
| OrderController.PopulateItems | backend/src/controllers/orderController.js:6 | every item is resolved, in order, with the count kept |
| OrderController.Populate | backend/src/controllers/orderController.js:4-6 | a read never fails: the client and each item's piece are the current documents or null, and the item count and order, the quantities and the other fields are as stored |
| OrderController.DeletedPieceReadsAsNull | backend/src/controllers/pieceController.js:25-29 | after a piece is deleted, items that used it read with a null piece and every other item reads as before |
| OrderController.DeletedClientReadsAsNull | backend/src/controllers/clientController.js:19-23 | after a client is deleted, its orders read with a null client and unchanged items |
| OrderController.OrderStore.List | backend/src/controllers/orderController.js:3-8 | every stored order, whoever asks, each populated |
| OrderController.OrderStore.Get | backend/src/controllers/orderController.js:10-16 | the order populated, or 404 "Ordem não encontrada"; nothing changes |
| OrderController.OrderStore.Create | backend/src/controllers/orderController.js:18-21 | an accepted body adds exactly one order under the next id, which then advances, and answers 201; references are not checked |
| OrderController.OrderStore.Update | backend/src/controllers/orderController.js:23-27 | the named order becomes the merge and is returned; no other order changes; an unknown id gets 404 and changes nothing |
| OrderController.OrderStore.Delete | backend/src/controllers/orderController.js:29-33 | exactly the named order is removed with 204; an unknown id gets 404 and changes nothing |
| AuthMiddleware.BearerTokenOf | backend/src/middlewares/authMiddleware.js:8 | the token of `scheme token` is the second word |
| AuthMiddleware.NoSpaceNoToken | backend/src/middlewares/authMiddleware.js:8 | a header with no space has no token |
| AuthMiddleware.Authenticate | backend/src/middlewares/authMiddleware.js:4-20 | 401 "Token não fornecido" iff the header is missing or empty; 401 "Token inválido ou expirado" iff there is no second word or it does not verify; 401 "Usuário inválido" iff the token verifies to an id naming no user; otherwise the request proceeds with that user |
| AuthMiddleware.BearerUserPasses | backend/src/middlewares/authMiddleware.js:8-16 | a `Bearer` header with a token naming a user of the collection, the only one with that id, lets that user through |
| AuthMiddleware.AdminCheck | backend/src/middlewares/authMiddleware.js:22-27 | 403 "Acesso restrito" iff the role is not admin; otherwise it proceeds with the same user |
| Router.Dispatch | backend/src/routes/orderRoutes.js:9-13 | no route means not found; a failed authentication gives its 401; the handler runs iff authentication passes and any admin requirement is met; 403 iff an admin route meets an authenticated non-admin |
| OrderRoutes.ReadsNeedAuthenticationOnly | backend/src/routes/orderRoutes.js:9-10 | GETs reach the list or get handler iff the caller is authenticated, and are never forbidden |
| OrderRoutes.WritesNeedAdmin | backend/src/routes/orderRoutes.js:11-13 | POST, PUT and DELETE reach the handler iff the caller is an authenticated admin, and are forbidden iff authenticated and not admin |
| OrderRoutes.AuthenticationFirst | backend/src/routes/orderRoutes.js:9-13 | an unauthenticated caller gets the 401 on every route |
| OrderRoutes.OneRoutePerHandler | backend/src/routes/orderRoutes.js:9-13 | two routes with the same handler have the same method and path shape |
| OrderRoutes.EveryHandlerRouted | backend/src/routes/orderRoutes.js:9-13 | every order operation has a route |
| PieceRoutes.ReadsNeedAuthenticationOnly | backend/src/routes/pieceRoutes.js:9-10 | GETs reach the list or get handler iff the caller is authenticated, and are never forbidden |
| PieceRoutes.WritesNeedAdmin | backend/src/routes/pieceRoutes.js:11-13 | POST, PUT and DELETE reach the handler iff the caller is an authenticated admin |
| PieceRoutes.AuthenticationFirst | backend/src/routes/pieceRoutes.js:9-13 | an unauthenticated caller gets the 401 on every route |
| PieceRoutes.OneRoutePerHandler | backend/src/routes/pieceRoutes.js:9-13 | two routes with the same handler have the same method and path shape |
| PieceRoutes.EveryHandlerRouted | backend/src/routes/pieceRoutes.js:9-13 | every piece operation has a route |
| ClientRoutes.EverythingNeedsAdmin | backend/src/routes/clientRoutes.js:9-12 | every client route, listing included, reaches its handler iff the caller is an authenticated admin |
| ClientRoutes.AuthenticationFirst | backend/src/routes/clientRoutes.js:9-12 | an unauthenticated caller gets the 401 on every route |
| ClientRoutes.NoGetOneClient | backend/src/routes/clientRoutes.js:9-12 | `GET /:id` matches no route |
| ClientRoutes.OneRoutePerHandler | backend/src/routes/clientRoutes.js:9-12 | two routes with the same handler have the same method and path shape |
| ClientRoutes.EveryHandlerRouted | backend/src/routes/clientRoutes.js:9-12 | every client operation has a route |
| AuthController.Login | backend/src/controllers/authController.js:4-23 | a login succeeds iff the user `findOne` returns (the first with exactly that email, or the first user at all when the body has no email) has a matching password; the token payload is exactly that user's id and role, and the summary is id, name, email and role with no password; every failure is 401 "Credenciais inválidas" |
| AuthController.FailuresIndistinguishable | backend/src/controllers/authController.js:7-11 | an unknown email and a wrong password get identical answers |
| AuthController.Lookup | backend/src/controllers/authController.js:7 | with an email, the first user with exactly that email; without one, the filter is empty and the first stored user, if any, is found |
| AuthController.MissingEmailTriesFirstUser | backend/src/controllers/authController.js:5-11 | a body without email signs in as the first stored user iff the password matches that user; with no users it is 401 |
| AuthController.EmailMatchedExactly | backend/src/controllers/authController.js:7 | the email is matched as submitted, with case significant |
| AdminSetup.EnsureAdmin | backend/src/config/adminSetup.js:3-18 | a taken email leaves the users unchanged; otherwise exactly one administrator named Admin with that email is appended; afterwards the email finds an account |
| AdminSetup.EnsureAdminIdempotent | backend/src/config/adminSetup.js:6-7 | running the bootstrap twice equals running it once |
| AdminSetup.ExistingAccountKept | backend/src/config/adminSetup.js:6-7 | an existing account with the email is kept, role included |
| AdminSetup.NewAdminFound | backend/src/config/adminSetup.js:9-16 | after an insert the email finds the new administrator |
| AdminSetup.UserStore.EnsureAdminExists | backend/src/config/adminSetup.js:3-18 | the collection becomes the bootstrap of the old one, keeping every id below the next id |
| ProtectedRoute.Guard | frontend/src/components/ProtectedRoute.jsx:6-22 | the indicator shows iff loading; no user, or a role not in the given roles, redirects to `/`; children render iff not loading, a user is present and roles is null or contains the role |
| ProtectedRoute.DefaultRolesAdmitAnyone | frontend/src/components/ProtectedRoute.jsx:29-31 | with the default null roles every signed-in user passes |
| ProtectedRoute.EmptyRolesAdmitNobody | frontend/src/components/ProtectedRoute.jsx:17-19 | an empty role list lets nobody through |
| ClientDashboard.Filter | frontend/src/pages/ClientDashboard.jsx:43 | `filter` gives a subsequence whose every element passes |
| ClientDashboard.FilterMembers | frontend/src/pages/ClientDashboard.jsx:43 | an element is kept iff it is in the list and passes |
| ClientDashboard.FilterTwice | frontend/src/pages/ClientDashboard.jsx:42-48 | filtering twice equals filtering once by both conditions |
| ClientDashboard.FilterAll | frontend/src/pages/ClientDashboard.jsx:46 | a condition everything meets keeps everything |
| ClientDashboard.FilterSame | frontend/src/pages/ClientDashboard.jsx:39-51 | conditions that agree on every element filter alike |
| ClientDashboard.FilteredIsFilter | frontend/src/pages/ClientDashboard.jsx:39-51 | the two filters in sequence are one filter by every applicable condition |
| ClientDashboard.FilteredOrdersSpec | frontend/src/pages/ClientDashboard.jsx:39-51 | the result is a subsequence of the loaded orders; an order is shown iff it passes every applicable filter; a client sees only orders whose client id is theirs; a chosen status shows only that status; a non-client with `todos` sees everything |
| AdminDashboard.AddOrderItem | frontend/src/pages/AdminDashboard.jsx:223-228 | one `{piece: '', quantity: 1}` is appended; earlier items and other fields are unchanged |
| AdminDashboard.EditItem | frontend/src/pages/AdminDashboard.jsx:235 | the edited field takes the value and the other field is kept |
| AdminDashboard.UpdateOrderItem | frontend/src/pages/AdminDashboard.jsx:230-240 | only the item at the index changes; the length and other items are kept; an out-of-range index changes nothing |
| AdminDashboard.WithoutIndex | frontend/src/pages/AdminDashboard.jsx:245 | the element at the index is removed and the rest kept in order; an out-of-range index removes nothing |
| AdminDashboard.RemoveOrderItem | frontend/src/pages/AdminDashboard.jsx:242-247 | exactly the item at the index is dropped; an out-of-range index is a no-op |
| AdminDashboard.RemoveUndoesAdd | frontend/src/pages/AdminDashboard.jsx:223-247 | removing the item just added gives the form back |
| AdminDashboard.Payload | frontend/src/pages/AdminDashboard.jsx:176-182 | the body carries the form's client, items (count and order kept), description and status, and no timestamps |
| AdminDashboard.SubmitRequest | frontend/src/pages/AdminDashboard.jsx:173-189 | blocked iff a required select is empty or a quantity is not accepted by the number input; otherwise an update of the order being edited if there is one, else a create, with the payload as body |
| AdminDashboard.SubmittedCreateAccepted | frontend/src/pages/AdminDashboard.jsx:176-188 | a submitted new order is accepted by the schema iff its status is in the enum, and is stored with the form's client, items and status |
| AdminDashboard.DefaultOrderBlocked | frontend/src/pages/AdminDashboard.jsx:38-43 | the default form (no client, no items, `aberta`) cannot be submitted |
| AdminDashboard.EditForm | frontend/src/pages/AdminDashboard.jsx:199-210 | a removed client or piece becomes the empty option; quantities, status and item order are kept; a missing description becomes `''` |
| AdminDashboard.EditRoundTrip | frontend/src/pages/AdminDashboard.jsx:199-210 | editing a stored order and submitting it unchanged updates that order to itself, except that a missing description becomes `''`; updatedAt is not bumped |
| AdminDashboard.EditBlockedIffNotEditable | frontend/src/pages/AdminDashboard.jsx:199-210 | resubmitting a loaded order is blocked iff a reference dangles or a quantity is not accepted by the input |
| AdminDashboard.ErrorText | frontend/src/pages/AdminDashboard.jsx:193-196 | the server's message unless it is missing or empty, then "Erro ao salvar ordem." |
| AdminDashboard.OrderEditor.SetClient | frontend/src/pages/AdminDashboard.jsx:525-527 | only the client field changes |
| AdminDashboard.OrderEditor.SetDescription | frontend/src/pages/AdminDashboard.jsx:593-595 | only the description changes |
| AdminDashboard.OrderEditor.SetStatus | frontend/src/pages/AdminDashboard.jsx:604-610 | only the status changes, to one of the three listed |
| AdminDashboard.OrderEditor.AddItem | frontend/src/pages/AdminDashboard.jsx:223-228 | the form becomes `AddOrderItem` of the old form |
| AdminDashboard.OrderEditor.UpdateItem | frontend/src/pages/AdminDashboard.jsx:230-240 | the form becomes `UpdateOrderItem` of the old form |
| AdminDashboard.OrderEditor.RemoveItem | frontend/src/pages/AdminDashboard.jsx:242-247 | the form becomes `RemoveOrderItem` of the old form |
| AdminDashboard.OrderEditor.Edit | frontend/src/pages/AdminDashboard.jsx:199-210 | the form is filled from the order, and that order becomes the one being edited |
| AdminDashboard.OrderEditor.Submit | frontend/src/pages/AdminDashboard.jsx:173-189 | the request sent is an update iff the form is submittable and an order is being edited |
| AdminDashboard.OrderEditor.Finish | frontend/src/pages/AdminDashboard.jsx:184-196 | on success the form resets and the edit clears, with an earlier error left in place; on failure the form and the edit stay and the error is shown |
| AdminDashboard.OrderEditor.CancelEdit | frontend/src/pages/AdminDashboard.jsx:619-625 | as written: the form resets but the order being edited stays |
| AdminDashboard.OrderEditor.CancelEditFixed | frontend/src/pages/AdminDashboard.jsx:619-625 | corrected: the form resets and the edit ends |
| AdminDashboard.CancelEditScenario | frontend/src/pages/AdminDashboard.jsx:619-625 | edit, cancel, choose a client, submit: as written this sends an update of the cancelled order, and corrected it sends a create |
| AdminDashboard.CancelledFormCreates | frontend/src/pages/AdminDashboard.jsx:185-189 | with no edit pending a submittable form is created; with an edit pending it is never created |
| Scenarios.DeleteOrderTwice | backend/src/controllers/orderController.js:29-33 | the first delete gets 204 and the second 404 |
| Scenarios.DeletePieceTwice | backend/src/controllers/pieceController.js:25-29 | the first delete gets 204 and the second 404 |
| Scenarios.DeleteClientTwice | backend/src/controllers/clientController.js:19-23 | the first delete gets 204 and the second 404 |
| Scenarios.DeletePieceThenReadOrder | backend/src/controllers/pieceController.js:25-29 | deleting a piece leaves the orders unchanged, and an order that used it still reads, with that item's piece null and its quantity kept |
| Scenarios.OrderForUnknownClient | backend/src/controllers/orderController.js:18-21 | an order for a client that does not exist is created and reads with a null client |
| Scenarios.SameEmailTwice | backend/src/models/client.js:6 | two clients with the same email are both created, under distinct ids |
| Scenarios.ReopenCompleted | backend/src/controllers/orderController.js:23-27 | a completed order can be moved back to `aberta` with nothing else changing |

## Left out

- Express wiring, CORS, JSON parsing and the server start-up in
  `backend/src/server.js` are transport. HTTP status codes appear only
  as the outcome and reply constructors.
- JWT signing and verification (`utils/jwt`) and password hashing and
  comparison (`models/user`) are not part of this model. They are function
  parameters. A token that verifies without an `id` is the same here as a
  verified id that names no user.
- The User schema (`backend/src/models/user.js`) is not part of this model.
  A user is the four fields the code reads.
- ObjectId generation and casting are left out: ids are natural numbers
  handed out in order. A malformed id is not modelled. Mongoose rejects it
  with a cast error, an unhandled rejection; what the transport answers is
  left out.
- Bodies are records of optional fields. Fields a schema does not know,
  fields explicitly set to `null`, values of the wrong type, and the `_id`
  Mongoose gives each line item are not modelled.
- Rejected promises (a failing `create`, a store error) are not caught by
  the controllers; what the transport then answers is left out. A failed
  validation is the single `ValidationError` reply.
- `find()` result order is left out: lists are returned as maps from id to
  document.
- A login body without `password` is not modelled: what `comparePassword` does
  with it belongs to the User model, which is not part of this model.
- Text.LowerChar and Text.Lower: only the Basic Latin and Latin-1 capitals are lower-cased.
  JavaScript's full Unicode case mapping is left out.
- `Number(...)` conversions of form strings and `toFixed(2)` on prices are
  left out. Form quantities are already numbers, or absent for an empty
  input.
- AdminDashboard.AcceptedQuantity: the number input's own validation is
  modelled as required, at least 1 and whole. The browser's handling of
  typed text that is not a number is left out.
- `loadAllData`, the delete handlers with their `window.confirm`, and the
  piece and client forms of the administrator page are left out. Their
  "Cancelar edição" buttons at `AdminDashboard.jsx:364` and `:460` behave
  like the order form's.
- Rendering is left out, along with `AuthContext` (session in
  `localStorage`), the login page, the app routes, the navigation bar and
  the thin axios wrappers.
- `ensureAdminExists` reads `ADMIN_EMAIL`/`ADMIN_PASSWORD` from the
  environment; here they are parameters. An undefined `ADMIN_EMAIL` is not
  modelled.
- Concurrency between requests is left out: each request is one atomic
  step.

## Findings

| source | as written | input that shows it | evidently intended | confidence | as-written member | corrected member |
|---|---|---|---|---|---|---|
| frontend/src/pages/AdminDashboard.jsx:622 | "Cancelar edição" resets the order form but leaves `editingOrderId` set | edit an order, press "Cancelar edição", choose a client and submit: the new form is sent as `PUT` over the cancelled order | cancelling ends the edit, as a successful save does at line 192, so the next submit creates a new order | medium, not executed | AdminDashboard.OrderEditor.CancelEdit (shown by AdminDashboard.CancelEditScenario) | AdminDashboard.OrderEditor.CancelEditFixed (with AdminDashboard.CancelledFormCreates) |
