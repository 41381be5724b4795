/** The Order schema (backend/src/models/order.js): a service order of one
    client, listing the pieces it uses. */
module OrderModel {
  import opened Common

  /** The values the schema's `enum` admits for `status`. */
  datatype Status = Aberta | EmAndamento | Concluida

  /** The stored spelling of a status. */
  function StatusName(s: Status): string {
    match s
    case Aberta => "aberta"
    case EmAndamento => "em_andamento"
    case Concluida => "concluida"
  }

  /** The enum validator: the status a string spells, if it spells one. */
  function ParseStatus(s: string): (r: Option<Status>)
    ensures r.Some? ==> StatusName(r.value) == s
  {
    if s == "aberta" then Some(Aberta)
    else if s == "em_andamento" then Some(EmAndamento)
    else if s == "concluida" then Some(Concluida)
    else None
  }

  /** Every status is admitted and reads back as itself. */
  lemma StatusRoundTrip(s: Status)
    ensures ParseStatus(StatusName(s)) == Some(s)
  {
  }

  /** A string is admitted exactly when it is the spelling of a status. */
  lemma ParseStatusExact(s: string)
    ensures ParseStatus(s).Some? <==> s in {"aberta", "em_andamento", "concluida"}
  {
  }

  /** A line item. The schema requires both fields, but an update stores
      whatever the body carries, so either may be missing from a stored item. */
  datatype LineItem = LineItem(piece: Option<Id>, quantity: Option<real>)

  /** A stored order. `status` holds a string rather than a `Status`, because
      an update stores a status the enum does not admit. */
  datatype Order = Order(
    client: Id,
    pieces: seq<LineItem>,
    description: Option<string>,
    status: string,
    createdAt: nat,
    updatedAt: nat)

  /** A request body for create or update; `None` is a field the body leaves out. */
  datatype OrderInput = OrderInput(
    client: Option<Id>,
    pieces: Option<seq<LineItem>>,
    description: Option<string>,
    status: Option<string>,
    createdAt: Option<nat>,
    updatedAt: Option<nat>)

  /** A line item needs a piece reference and a quantity of at least 1; nothing
      asks the quantity to be whole. */
  predicate ValidItem(i: LineItem) {
    i.piece.Some? && i.quantity.Some? && i.quantity.value >= 1.0
  }

  predicate ValidItems(items: seq<LineItem>) {
    forall i :: 0 <= i < |items| ==> ValidItem(items[i])
  }

  /** The schema's validators. The client reference is a field of every
      `Order`, so "client required" is the type; the item list may be empty
      and the description absent. */
  predicate Valid(o: Order) {
    ValidItems(o.pieces) && ParseStatus(o.status).Some?
  }

  const DefaultStatus := Aberta

  /** `Order.create(body)`: cast (pieces default to the empty list, status to
      `aberta`, createdAt to the clock), validate, then the `pre('save')` hook
      stamps updatedAt. `None` is the validation error. Nothing looks up the
      client or the pieces the body refers to. */
  function Create(body: OrderInput, now: nat): (r: Option<Order>)
    ensures r.Some? <==>
              && body.client.Some?
              && ValidItems(body.pieces.GetOr([]))
              && (body.status.Some? ==> ParseStatus(body.status.value).Some?)
    ensures r.Some? ==> Valid(r.value)
    ensures r.Some? ==> r.value.client == body.client.value && r.value.pieces == body.pieces.GetOr([])
    ensures r.Some? ==> r.value.status == body.status.GetOr(StatusName(DefaultStatus))
    ensures r.Some? ==> r.value.description == body.description
    ensures r.Some? ==> r.value.createdAt == body.createdAt.GetOr(now) && r.value.updatedAt == now
  {
    if body.client.None? then None
    else
      var o := Order(
        body.client.value,
        body.pieces.GetOr([]),
        body.description,
        body.status.GetOr(StatusName(DefaultStatus)),
        body.createdAt.GetOr(now),
        body.updatedAt.GetOr(now));
      if Valid(o) then Some(o.(updatedAt := now)) else None
  }

  /** An order created without a status is open. */
  lemma CreateDefaultsToOpen(body: OrderInput, now: nat)
    requires body.client.Some? && ValidItems(body.pieces.GetOr([])) && body.status.None?
    ensures Create(body, now).Some?
    ensures ParseStatus(Create(body, now).value.status) == Some(Aberta)
  {
  }

  /** `findByIdAndUpdate(id, body)`: every field the body carries replaces the
      stored one (the item list wholesale), every other field stays. No
      validator and no save hook runs. */
  function Update(o: Order, body: OrderInput): Order {
    Order(
      body.client.GetOr(o.client),
      body.pieces.GetOr(o.pieces),
      if body.description.Some? then body.description else o.description,
      body.status.GetOr(o.status),
      body.createdAt.GetOr(o.createdAt),
      body.updatedAt.GetOr(o.updatedAt))
  }

  /** A body that sets the status alone. */
  function StatusUpdate(s: string): OrderInput {
    OrderInput(None, None, None, Some(s), None, None)
  }

  /** There is no transition graph: any status replaces any other, the order
      stays valid, and nothing else changes, updatedAt included. */
  lemma AnyStatusReplacesAny(o: Order, s: Status)
    requires Valid(o)
    ensures ParseStatus(Update(o, StatusUpdate(StatusName(s))).status) == Some(s)
    ensures Valid(Update(o, StatusUpdate(StatusName(s))))
    ensures Update(o, StatusUpdate(StatusName(s))).(status := o.status) == o
  {
    StatusRoundTrip(s);
  }

  /** Because no validator runs on update, a valid order can be given a
      status outside the enum, or an item of quantity 0. */
  lemma UpdateBypassesValidation(o: Order)
    requires Valid(o)
    ensures !Valid(Update(o, StatusUpdate("cancelada")))
    ensures !Valid(Update(o, OrderInput(None, Some([LineItem(Some(0), Some(0.0))]), None, None, None, None)))
  {
    var zero := Update(o, OrderInput(None, Some([LineItem(Some(0), Some(0.0))]), None, None, None, None));
    assert !ValidItem(zero.pieces[0]);
  }

  /** Sending the same update twice has the effect of sending it once. */
  lemma UpdateIdempotent(o: Order, body: OrderInput)
    ensures Update(Update(o, body), body) == Update(o, body)
  {
  }
}
