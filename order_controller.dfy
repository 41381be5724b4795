/** The order controller (backend/src/controllers/orderController.js) over an
    in-memory order collection. Reads replace the client reference and each
    piece reference by the document it names, as `.populate` does; writes
    store the body's references as they are. */
module OrderController {
  import opened Common
  import OrderModel
  import ClientModel
  import PieceModel
  import ClientController
  import PieceController

  const OrderNotFound := "Ordem não encontrada"

  /** A line item as a read returns it. */
  datatype PopulatedItem = PopulatedItem(piece: Option<Entry<PieceModel.Piece>>, quantity: Option<real>)

  /** An order as a read returns it: `client` and every `piece` are the
      current documents, or `None` (JSON null) where the reference dangles. */
  datatype PopulatedOrder = PopulatedOrder(
    id: Id,
    client: Option<Entry<ClientModel.Client>>,
    pieces: seq<PopulatedItem>,
    description: Option<string>,
    status: string,
    createdAt: nat,
    updatedAt: nat)

  /** Resolve-or-null: the document a reference names, if it is still there. */
  function Resolve<T>(ref: Option<Id>, m: map<Id, T>): (r: Option<Entry<T>>)
    ensures r.Some? <==> ref.Some? && ref.value in m
    ensures r.Some? ==> r.value == Entry(ref.value, m[ref.value])
  {
    if ref.Some? && ref.value in m then Some(Entry(ref.value, m[ref.value])) else None
  }

  function PopulateItem(item: OrderModel.LineItem, pieces: map<Id, PieceModel.Piece>): PopulatedItem {
    PopulatedItem(Resolve(item.piece, pieces), item.quantity)
  }

  function PopulateItems(items: seq<OrderModel.LineItem>, pieces: map<Id, PieceModel.Piece>): (r: seq<PopulatedItem>)
    ensures |r| == |items|
    ensures forall i :: 0 <= i < |items| ==> r[i] == PopulateItem(items[i], pieces)
  {
    seq(|items|, i requires 0 <= i < |items| => PopulateItem(items[i], pieces))
  }

  /** `.populate('client').populate('pieces.piece')` on one order. It never
      fails: the client is the stored client exactly when the reference
      resolves, and so is each item's piece; the item count and order, the
      quantities and every other field are the stored ones. */
  function Populate(id: Id, o: OrderModel.Order,
                    clients: map<Id, ClientModel.Client>, pieces: map<Id, PieceModel.Piece>): (r: PopulatedOrder)
    ensures r.id == id
    ensures r.client.Some? <==> o.client in clients
    ensures r.client.Some? ==> r.client.value == Entry(o.client, clients[o.client])
    ensures |r.pieces| == |o.pieces|
    ensures forall i :: 0 <= i < |o.pieces| ==>
              && r.pieces[i].quantity == o.pieces[i].quantity
              && (r.pieces[i].piece.Some? <==> o.pieces[i].piece.Some? && o.pieces[i].piece.value in pieces)
              && (r.pieces[i].piece.Some? ==> r.pieces[i].piece.value.id == o.pieces[i].piece.value)
              && (r.pieces[i].piece.Some? ==> r.pieces[i].piece.value.value == pieces[o.pieces[i].piece.value])
    ensures r.description == o.description && r.status == o.status
    ensures r.createdAt == o.createdAt && r.updatedAt == o.updatedAt
  {
    PopulatedOrder(
      id,
      Resolve(Some(o.client), clients),
      PopulateItems(o.pieces, pieces),
      o.description,
      o.status,
      o.createdAt,
      o.updatedAt)
  }

  /** After the piece `gone` is deleted, every item that referred to it reads
      as a removed piece, and every other item reads as before. */
  lemma {:induction false} DeletedPieceReadsAsNull(id: Id, o: OrderModel.Order,
      clients: map<Id, ClientModel.Client>, pieces: map<Id, PieceModel.Piece>, gone: Id)
    ensures var before := Populate(id, o, clients, pieces);
            var after := Populate(id, o, clients, pieces - {gone});
            && after.client == before.client
            && |after.pieces| == |before.pieces|
            && forall i :: 0 <= i < |o.pieces| ==>
                 if o.pieces[i].piece == Some(gone) then after.pieces[i].piece.None?
                 else after.pieces[i] == before.pieces[i]
  {
    var before := Populate(id, o, clients, pieces);
    var after := Populate(id, o, clients, pieces - {gone});
    forall i | 0 <= i < |o.pieces| && o.pieces[i].piece != Some(gone)
      ensures after.pieces[i] == before.pieces[i]
    {
      assert after.pieces[i].quantity == before.pieces[i].quantity;
      assert after.pieces[i].piece == before.pieces[i].piece;
    }
  }

  /** After the client `gone` is deleted, its orders read with a removed
      client and unchanged items. */
  lemma DeletedClientReadsAsNull(id: Id, o: OrderModel.Order,
      clients: map<Id, ClientModel.Client>, pieces: map<Id, PieceModel.Piece>)
    ensures Populate(id, o, clients - {o.client}, pieces).client.None?
    ensures Populate(id, o, clients - {o.client}, pieces).pieces == Populate(id, o, clients, pieces).pieces
  {
  }

  /** The `orders` collection: a map from id to document, and the next id to
      hand out. */
  class OrderStore {
    var orders: map<Id, OrderModel.Order>
    var nextId: Id

    /** Every stored id was handed out before, so `nextId` is unused. */
    ghost predicate Valid()
      reads this
    {
      forall id :: id in orders ==> id < nextId
    }

    constructor ()
      ensures Valid() && orders == map[]
    {
      orders := map[];
      nextId := 0;
    }

    /** `listOrders`: every stored order, whoever asks, each populated from
        the current clients and pieces. */
    method List(cs: ClientController.ClientStore, ps: PieceController.PieceStore)
      returns (r: map<Id, PopulatedOrder>)
      ensures r.Keys == orders.Keys
      ensures forall id :: id in orders ==> r[id] == Populate(id, orders[id], cs.clients, ps.pieces)
    {
      r := map id | id in orders :: Populate(id, orders[id], cs.clients, ps.pieces);
    }

    /** `getOrder`: the order with that id, populated, or 404. */
    method Get(id: Id, cs: ClientController.ClientStore, ps: PieceController.PieceStore)
      returns (r: Reply<PopulatedOrder>)
      ensures id in orders ==> r == Ok(Populate(id, orders[id], cs.clients, ps.pieces))
      ensures id !in orders ==> r == NotFound(OrderNotFound)
    {
      if id in orders {
        r := Ok(Populate(id, orders[id], cs.clients, ps.pieces));
      } else {
        r := NotFound(OrderNotFound);
      }
    }

    /** `createOrder`: a body the schema accepts adds exactly one order, under
        an unused id, and is answered 201 with it (unpopulated); any other
        body is rejected and the collection is unchanged. Whether the client
        and the pieces exist is not asked. */
    method Create(body: OrderModel.OrderInput, now: nat) returns (r: Reply<Entry<OrderModel.Order>>)
      requires Valid()
      modifies this
      ensures Valid()
      ensures OrderModel.Create(body, now).None? ==> r == ValidationError && orders == old(orders) && nextId == old(nextId)
      ensures OrderModel.Create(body, now).Some? ==>
                && r.Created? && r.body.id !in old(orders)
                && r.body.value == OrderModel.Create(body, now).value
                && orders == old(orders)[r.body.id := r.body.value]
                && r.body.id == old(nextId) && nextId == old(nextId) + 1
    {
      match OrderModel.Create(body, now)
      case None =>
        r := ValidationError;
      case Some(o) =>
        var id := nextId;
        orders := orders[id := o];
        nextId := nextId + 1;
        r := Created(Entry(id, o));
    }

    /** `updateOrder`: merges the body into the order with that id and answers
        with the order as it is afterwards (unpopulated); an unknown id is
        answered 404 and changes nothing. No other order changes. */
    method Update(id: Id, body: OrderModel.OrderInput) returns (r: Reply<Entry<OrderModel.Order>>)
      requires Valid()
      modifies this`orders
      ensures Valid()
      ensures id in old(orders) ==>
                && orders == old(orders)[id := OrderModel.Update(old(orders)[id], body)]
                && r == Ok(Entry(id, orders[id]))
      ensures id !in old(orders) ==> orders == old(orders) && r == NotFound(OrderNotFound)
    {
      if id in orders {
        orders := orders[id := OrderModel.Update(orders[id], body)];
        r := Ok(Entry(id, orders[id]));
      } else {
        r := NotFound(OrderNotFound);
      }
    }

    /** `deleteOrder`: removes the order with that id and answers 204; an
        unknown id is answered 404 and changes nothing. No other order
        changes. */
    method Delete(id: Id) returns (r: Reply<()>)
      requires Valid()
      modifies this`orders
      ensures Valid()
      ensures id in old(orders) ==> orders == old(orders) - {id} && r == NoContent
      ensures id !in old(orders) ==> orders == old(orders) && r == NotFound(OrderNotFound)
    {
      if id in orders {
        orders := orders - {id};
        r := NoContent;
      } else {
        r := NotFound(OrderNotFound);
      }
    }
  }
}
