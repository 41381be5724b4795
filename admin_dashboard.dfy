/** The order form of frontend/src/pages/AdminDashboard.jsx: the form state,
    the item editor, the mapping of a loaded order into the form, the request
    a submit sends, and the state changes around it. */
module AdminDashboard {
  import opened Common
  import OrderModel
  import ClientModel
  import PieceModel
  import opened OrderController

  /** The order form. A select left on its empty option (`''`) is `None`;
      so is a quantity input left empty. Items are the model's line items,
      piece reference and quantity. */
  datatype OrderForm = OrderForm(
    client: Option<Id>,
    pieces: seq<OrderModel.LineItem>,
    description: string,
    status: string)

  /** `defaultOrder`: no client chosen, no items, no description, open. */
  const DefaultOrder := OrderForm(None, [], "", OrderModel.StatusName(OrderModel.DefaultStatus))

  /** The item `addOrderItem` appends: no piece chosen, quantity 1. */
  const NewItem := OrderModel.LineItem(None, Some(1.0))

  /** `addOrderItem`: one new item at the end; the earlier items and the
      other fields are unchanged. */
  function AddOrderItem(f: OrderForm): (g: OrderForm)
    ensures |g.pieces| == |f.pieces| + 1
    ensures g.pieces[..|f.pieces|] == f.pieces && g.pieces[|f.pieces|] == NewItem
    ensures g.(pieces := f.pieces) == f
  {
    f.(pieces := f.pieces + [NewItem])
  }

  /** The two fields an item row edits: its piece select and its quantity
      input. */
  datatype ItemEdit = SetPiece(piece: Option<Id>) | SetQuantity(quantity: Option<real>)

  /** `{ ...item, [field]: value }`: the edited field takes the value, the
      other field is kept. */
  function EditItem(item: OrderModel.LineItem, e: ItemEdit): (r: OrderModel.LineItem)
    ensures e.SetPiece? ==> r.piece == e.piece && r.quantity == item.quantity
    ensures e.SetQuantity? ==> r.quantity == e.quantity && r.piece == item.piece
  {
    match e
    case SetPiece(p) => item.(piece := p)
    case SetQuantity(q) => item.(quantity := q)
  }

  /** `updateOrderItem(index, field, value)`: only the item at `index`
      changes, and only in the edited field; the length and every other item
      stay. An index outside the list changes nothing. */
  function UpdateOrderItem(f: OrderForm, index: int, e: ItemEdit): (g: OrderForm)
    ensures |g.pieces| == |f.pieces|
    ensures forall i :: 0 <= i < |f.pieces| && i != index ==> g.pieces[i] == f.pieces[i]
    ensures 0 <= index < |f.pieces| ==> g.pieces[index] == EditItem(f.pieces[index], e)
    ensures !(0 <= index < |f.pieces|) ==> g == f
    ensures g.(pieces := f.pieces) == f
  {
    var items := seq(|f.pieces|, i requires 0 <= i < |f.pieces| =>
                       if i == index then EditItem(f.pieces[i], e) else f.pieces[i]);
    assert !(0 <= index < |f.pieces|) ==> items == f.pieces;
    f.(pieces := items)
  }

  /** `s.filter((_, idx) => idx !== index)`: the item at `index` removed, the
      rest in order; an index outside the list removes nothing. */
  function WithoutIndex<T>(s: seq<T>, index: int): (r: seq<T>)
    ensures 0 <= index < |s| ==> r == s[..index] + s[index + 1..]
    ensures !(0 <= index < |s|) ==> r == s
    decreases |s|
  {
    if s == [] then []
    else if index == 0 then s[1..]
    else
      var rest := WithoutIndex(s[1..], index - 1);
      assert 0 < index < |s| ==> s[..index] == [s[0]] + s[1..][..index - 1];
      assert 0 < index < |s| ==> s[index + 1..] == s[1..][index..];
      [s[0]] + rest
  }

  /** `removeOrderItem(index)`. */
  function RemoveOrderItem(f: OrderForm, index: int): (g: OrderForm)
    ensures 0 <= index < |f.pieces| ==> |g.pieces| == |f.pieces| - 1
    ensures 0 <= index < |f.pieces| ==> g.pieces == f.pieces[..index] + f.pieces[index + 1..]
    ensures !(0 <= index < |f.pieces|) ==> g == f
    ensures g.(pieces := f.pieces) == f
  {
    f.(pieces := WithoutIndex(f.pieces, index))
  }

  /** Removing the item just added gives the form back. */
  lemma RemoveUndoesAdd(f: OrderForm)
    ensures RemoveOrderItem(AddOrderItem(f), |f.pieces|) == f
  {
    var g := AddOrderItem(f);
    assert g.pieces[..|f.pieces|] + g.pieces[|f.pieces| + 1..] == f.pieces;
  }

  /** A quantity the number input (`min="1"`, default step 1) accepts. */
  predicate AcceptedQuantity(q: Option<real>) {
    q.Some? && q.value >= 1.0 && q.value == q.value.Floor as real
  }

  /** The browser submits the form only if the client select and every piece
      select have a value and every quantity is accepted; otherwise the
      submit handler does not run. */
  predicate Submittable(f: OrderForm) {
    && f.client.Some?
    && forall i :: 0 <= i < |f.pieces| ==> f.pieces[i].piece.Some? && AcceptedQuantity(f.pieces[i].quantity)
  }

  /** The body `handleOrderSubmit` sends: the form's four fields, every item
      reduced to its piece and quantity, in the same order. Timestamps are
      not sent. */
  function Payload(f: OrderForm): (b: OrderModel.OrderInput)
    ensures b.client == f.client && b.pieces == Some(f.pieces)
    ensures b.description == Some(f.description) && b.status == Some(f.status)
    ensures b.createdAt.None? && b.updatedAt.None?
  {
    OrderModel.OrderInput(f.client, Some(f.pieces), Some(f.description), Some(f.status), None, None)
  }

  /** What pressing the submit button does. */
  datatype Request =
    | Blocked
    | CreateRequest(body: OrderModel.OrderInput)
    | UpdateRequest(id: Id, body: OrderModel.OrderInput)

  /** Blocked if the form is not submittable; otherwise an update of the
      order being edited, if there is one, and a create if not. */
  function SubmitRequest(f: OrderForm, editing: Option<Id>): (r: Request)
    ensures r.Blocked? <==> !Submittable(f)
    ensures r.UpdateRequest? <==> Submittable(f) && editing.Some?
    ensures r.UpdateRequest? ==> r.id == editing.value
    ensures !r.Blocked? ==> r.body == Payload(f)
  {
    if !Submittable(f) then Blocked
    else if editing.Some? then UpdateRequest(editing.value, Payload(f))
    else CreateRequest(Payload(f))
  }

  /** A submitted new order is accepted by the schema exactly when its status
      is one the enum admits, and is then stored with the form's client,
      items and status. The quantities the browser lets through all meet the
      schema's minimum. */
  lemma SubmittedCreateAccepted(f: OrderForm, now: nat)
    requires Submittable(f)
    ensures OrderModel.Create(Payload(f), now).Some? <==> OrderModel.ParseStatus(f.status).Some?
    ensures OrderModel.Create(Payload(f), now).Some? ==>
              var o := OrderModel.Create(Payload(f), now).value;
              o.client == f.client.value && o.pieces == f.pieces && o.status == f.status
  {
    assert OrderModel.ValidItems(f.pieces) by {
      forall i | 0 <= i < |f.pieces|
        ensures OrderModel.ValidItem(f.pieces[i])
      {
      }
    }
  }

  /** The default form cannot be submitted: a client must be chosen first. */
  lemma DefaultOrderBlocked(editing: Option<Id>)
    ensures SubmitRequest(DefaultOrder, editing) == Blocked
  {
  }

  /** `handleOrderEdit`: a populated order loaded into the form. A removed
      client or piece becomes the empty option; quantities, status and the
      item order are kept; a missing description becomes `''`. */
  function EditForm(o: PopulatedOrder): (f: OrderForm)
    ensures f.client.Some? <==> o.client.Some?
    ensures f.client.Some? ==> f.client.value == o.client.value.id
    ensures |f.pieces| == |o.pieces|
    ensures forall i :: 0 <= i < |o.pieces| ==>
              && (f.pieces[i].piece.Some? <==> o.pieces[i].piece.Some?)
              && (f.pieces[i].piece.Some? ==> f.pieces[i].piece.value == o.pieces[i].piece.value.id)
              && f.pieces[i].quantity == o.pieces[i].quantity
    ensures f.description == o.description.GetOr("") && f.status == o.status
  {
    OrderForm(
      if o.client.Some? then Some(o.client.value.id) else None,
      seq(|o.pieces|, i requires 0 <= i < |o.pieces| =>
        OrderModel.LineItem(
          if o.pieces[i].piece.Some? then Some(o.pieces[i].piece.value.id) else None,
          o.pieces[i].quantity)),
      o.description.GetOr(""),
      o.status)
  }

  /** Every reference of a stored order resolves and every quantity is one
      the number input accepts. */
  predicate Editable(o: OrderModel.Order, clients: map<Id, ClientModel.Client>, pieces: map<Id, PieceModel.Piece>) {
    && o.client in clients
    && forall i :: 0 <= i < |o.pieces| ==>
         o.pieces[i].piece.Some? && o.pieces[i].piece.value in pieces && AcceptedQuantity(o.pieces[i].quantity)
  }

  /** Opening a stored order for editing and submitting it unchanged sends an
      update of that order which leaves it as it was, except that a missing
      description is stored as `''`: the client, the items, the status and
      both timestamps are kept. */
  lemma EditRoundTrip(id: Id, o: OrderModel.Order,
                      clients: map<Id, ClientModel.Client>, pieces: map<Id, PieceModel.Piece>)
    requires Editable(o, clients, pieces)
    ensures var r := SubmitRequest(EditForm(Populate(id, o, clients, pieces)), Some(id));
            && r == UpdateRequest(id, r.body)
            && OrderModel.Update(o, r.body) == o.(description := Some(o.description.GetOr("")))
  {
    var p := Populate(id, o, clients, pieces);
    var f := EditForm(p);
    assert f.pieces == o.pieces by {
      forall i | 0 <= i < |o.pieces|
        ensures f.pieces[i] == o.pieces[i]
      {
        assert f.pieces[i].piece == o.pieces[i].piece;
      }
    }
  }

  /** An order loaded into the form and submitted unchanged is blocked
      exactly when its client or one of its pieces was removed, or one of
      its quantities is not one the input accepts. */
  lemma EditBlockedIffNotEditable(id: Id, o: OrderModel.Order, editing: Option<Id>,
                                  clients: map<Id, ClientModel.Client>, pieces: map<Id, PieceModel.Piece>)
    ensures SubmitRequest(EditForm(Populate(id, o, clients, pieces)), editing).Blocked?
            <==> !Editable(o, clients, pieces)
  {
    var f := EditForm(Populate(id, o, clients, pieces));
    if Submittable(f) {
      forall i | 0 <= i < |o.pieces|
        ensures o.pieces[i].piece.Some? && o.pieces[i].piece.value in pieces && AcceptedQuantity(o.pieces[i].quantity)
      {
        assert f.pieces[i].piece.Some? && AcceptedQuantity(f.pieces[i].quantity);
      }
    }
  }

  /** How the server answered a submitted request: saved, or failed with the
      error body's message if it carried one. */
  datatype SaveOutcome = Saved | Failed(message: Option<string>)

  const SaveOrderError := "Erro ao salvar ordem."

  /** `error?.response?.data?.message || 'Erro ao salvar ordem.'`: the
      server's message, unless it is missing or empty. */
  function ErrorText(message: Option<string>): (t: string)
    ensures t != []
    ensures message.Some? && message.value != [] ==> t == message.value
    ensures !(message.Some? && message.value != []) ==> t == SaveOrderError
  {
    if message.Some? && message.value != [] then message.value else SaveOrderError
  }

  /** The state the order tab keeps: the form, the id of the order being
      edited (`editingOrderId`) and the error shown. */
  class OrderEditor {
    var form: OrderForm
    var editingId: Option<Id>
    var errorMessage: string

    constructor ()
      ensures form == DefaultOrder && editingId == None && errorMessage == ""
    {
      form := DefaultOrder;
      editingId := None;
      errorMessage := "";
    }

    /** The client select's `onChange`. */
    method SetClient(c: Option<Id>)
      modifies this`form
      ensures form == old(form).(client := c)
    {
      form := form.(client := c);
    }

    /** The description textarea's `onChange`. */
    method SetDescription(d: string)
      modifies this`form
      ensures form == old(form).(description := d)
    {
      form := form.(description := d);
    }

    /** The status select's `onChange`. */
    method SetStatus(s: OrderModel.Status)
      modifies this`form
      ensures form == old(form).(status := OrderModel.StatusName(s))
    {
      form := form.(status := OrderModel.StatusName(s));
    }

    method AddItem()
      modifies this`form
      ensures form == AddOrderItem(old(form))
    {
      form := AddOrderItem(form);
    }

    method UpdateItem(index: int, e: ItemEdit)
      modifies this`form
      ensures form == UpdateOrderItem(old(form), index, e)
    {
      form := UpdateOrderItem(form, index, e);
    }

    method RemoveItem(index: int)
      modifies this`form
      ensures form == RemoveOrderItem(old(form), index)
    {
      form := RemoveOrderItem(form, index);
    }

    /** `handleOrderEdit(order)`: the form is filled from the order and the
        order becomes the one being edited. */
    method Edit(o: PopulatedOrder)
      modifies this`form, this`editingId
      ensures form == EditForm(o) && editingId == Some(o.id)
    {
      form := EditForm(o);
      editingId := Some(o.id);
    }

    /** Pressing the submit button: the request it sends, if any. */
    method Submit() returns (r: Request)
      ensures r == SubmitRequest(form, editingId)
      ensures r.UpdateRequest? <==> Submittable(form) && editingId.Some?
    {
      r := SubmitRequest(form, editingId);
    }

    /** The end of `handleOrderSubmit`: on success the form resets and no
        order is being edited any more; on failure the form and the edit
        stay and the error is shown. A success leaves an earlier error in
        place. */
    method Finish(outcome: SaveOutcome)
      modifies this`form, this`editingId, this`errorMessage
      ensures outcome.Saved? ==>
                form == DefaultOrder && editingId == None && errorMessage == old(errorMessage)
      ensures outcome.Failed? ==>
                form == old(form) && editingId == old(editingId) && errorMessage == ErrorText(outcome.message)
    {
      match outcome
      case Saved =>
        form := DefaultOrder;
        editingId := None;
      case Failed(m) =>
        errorMessage := ErrorText(m);
    }

    /** "Cancelar edição" as written: the form resets, but the order stays
        the one being edited. */
    method CancelEdit()
      modifies this`form
      ensures form == DefaultOrder && editingId == old(editingId)
    {
      form := DefaultOrder;
    }

    /** "Cancelar edição" as intended: the form resets and the edit ends,
        which is what a successful save does. */
    method CancelEditFixed()
      modifies this`form, this`editingId
      ensures form == DefaultOrder && editingId == None
    {
      form := DefaultOrder;
      editingId := None;
    }
  }

  /** Edit an order, cancel, choose a client and submit. As written this
      sends an update that overwrites the cancelled order with the new form;
      with the corrected cancel it sends a create. */
  method CancelEditScenario(o: PopulatedOrder, c: Id) returns (asWritten: Request, corrected: Request)
    ensures asWritten == UpdateRequest(o.id, Payload(DefaultOrder.(client := Some(c))))
    ensures corrected == CreateRequest(Payload(DefaultOrder.(client := Some(c))))
  {
    var e := new OrderEditor();
    e.Edit(o);
    e.CancelEdit();
    e.SetClient(Some(c));
    asWritten := e.Submit();

    var g := new OrderEditor();
    g.Edit(o);
    g.CancelEditFixed();
    g.SetClient(Some(c));
    corrected := g.Submit();
  }

  /** With the corrected cancel, any form filled in afterwards is submitted
      as a new order, never as an update. */
  lemma CancelledFormCreates(f: OrderForm)
    requires Submittable(f)
    ensures SubmitRequest(f, None) == CreateRequest(Payload(f))
    ensures forall id: Id :: SubmitRequest(f, Some(id)) != CreateRequest(Payload(f))
  {
  }
}
