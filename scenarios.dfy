/** Sequences of controller calls, each showing a property of the stores that
    only appears across several requests. */
module Scenarios {
  import opened Common
  import OrderModel
  import ClientModel
  import PieceModel
  import Text
  import ClientController
  import PieceController
  import OrderController

  /** Deleting an order twice: the first delete answers 204, the second 404,
      and the order is gone. */
  method DeleteOrderTwice(os: OrderController.OrderStore, id: Id) returns (first: Reply<()>, second: Reply<()>)
    requires os.Valid() && id in os.orders
    modifies os
    ensures first == NoContent && second == NotFound(OrderController.OrderNotFound)
    ensures os.orders == old(os.orders) - {id}
  {
    first := os.Delete(id);
    second := os.Delete(id);
  }

  /** Deleting a piece twice: 204, then 404. */
  method DeletePieceTwice(ps: PieceController.PieceStore, id: Id) returns (first: Reply<()>, second: Reply<()>)
    requires ps.Valid() && id in ps.pieces
    modifies ps
    ensures first == NoContent && second == NotFound(PieceController.PieceNotFound)
    ensures ps.pieces == old(ps.pieces) - {id}
  {
    first := ps.Delete(id);
    second := ps.Delete(id);
  }

  /** Deleting a client twice: 204, then 404. */
  method DeleteClientTwice(cs: ClientController.ClientStore, id: Id) returns (first: Reply<()>, second: Reply<()>)
    requires cs.Valid() && id in cs.clients
    modifies cs
    ensures first == NoContent && second == NotFound(ClientController.ClientNotFound)
    ensures cs.clients == old(cs.clients) - {id}
  {
    first := cs.Delete(id);
    second := cs.Delete(id);
  }

  /** Deleting a piece leaves every order as stored; reading an order that
      used it afterwards still succeeds, with the item's piece read as null
      and its quantity kept. */
  method DeletePieceThenReadOrder(os: OrderController.OrderStore, cs: ClientController.ClientStore,
                                  ps: PieceController.PieceStore, oid: Id, k: nat)
    returns (r: Reply<OrderController.PopulatedOrder>)
    requires ps.Valid() && oid in os.orders
    requires k < |os.orders[oid].pieces| && os.orders[oid].pieces[k].piece.Some?
    requires os.orders[oid].pieces[k].piece.value in ps.pieces
    modifies ps
    ensures os.orders == old(os.orders)
    ensures r.Ok? && |r.body.pieces| == |os.orders[oid].pieces|
    ensures r.body.pieces[k].piece.None? && r.body.pieces[k].quantity == os.orders[oid].pieces[k].quantity
  {
    var gone := os.orders[oid].pieces[k].piece.value;
    var _ := ps.Delete(gone);
    r := os.Get(oid, cs, ps);
  }

  /** No reference is checked on write: an order naming a client that does
      not exist is created, and reads back with a null client. */
  method OrderForUnknownClient(os: OrderController.OrderStore, cs: ClientController.ClientStore,
                               ps: PieceController.PieceStore, missing: Id, now: nat)
    returns (created: Reply<Entry<OrderModel.Order>>, read: Reply<OrderController.PopulatedOrder>)
    requires os.Valid() && missing !in cs.clients
    modifies os
    ensures created.Created? && created.body.value.client == missing
    ensures read.Ok? && read.body.client.None?
  {
    var body := OrderModel.OrderInput(Some(missing), None, None, None, None, None);
    created := os.Create(body, now);
    read := os.Get(created.body.id, cs, ps);
  }

  /** Nothing makes an email unique: the same body creates two clients, under
      two ids, with the same email. */
  method SameEmailTwice(cs: ClientController.ClientStore, body: ClientModel.ClientInput, now: nat)
    returns (a: Reply<Entry<ClientModel.Client>>, b: Reply<Entry<ClientModel.Client>>)
    requires cs.Valid() && ClientModel.Create(body, now).Some? && body.email.Some?
    modifies cs
    ensures a.Created? && b.Created? && a.body.id != b.body.id
    ensures a.body.value.email == b.body.value.email == Some(Text.Lower(body.email.value))
    ensures cs.clients == old(cs.clients)[a.body.id := a.body.value][b.body.id := b.body.value]
  {
    a := cs.Create(body, now);
    b := cs.Create(body, now);
  }

  /** A completed order can be reopened: an update moves it back to
      `aberta`, and nothing else about it changes. */
  method ReopenCompleted(os: OrderController.OrderStore, id: Id) returns (r: Reply<Entry<OrderModel.Order>>)
    requires os.Valid() && id in os.orders
    requires os.orders[id].status == OrderModel.StatusName(OrderModel.Concluida)
    modifies os
    ensures r.Ok? && r.body.value.status == OrderModel.StatusName(OrderModel.Aberta)
    ensures id in os.orders && os.orders[id] == old(os.orders[id]).(status := OrderModel.StatusName(OrderModel.Aberta))
  {
    r := os.Update(id, OrderModel.StatusUpdate(OrderModel.StatusName(OrderModel.Aberta)));
  }
}
