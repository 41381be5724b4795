/** The Piece schema (backend/src/models/piece.js): a part of the catalogue
    with its price and the quantity in stock. */
module PieceModel {
  import opened Common
  import opened Text

  /** A stored piece. Prices and quantities are JavaScript numbers, so they are
      reals here; the schema asks only for lower bounds, never for an integer. */
  datatype Piece = Piece(
    name: string,
    category: string,
    price: real,
    quantity: real,
    description: Option<string>,
    createdAt: nat,
    updatedAt: nat)

  /** A request body for create or update; `None` is a field the body leaves out. */
  datatype PieceInput = PieceInput(
    name: Option<string>,
    category: Option<string>,
    price: Option<real>,
    quantity: Option<real>,
    description: Option<string>,
    createdAt: Option<nat>,
    updatedAt: Option<nat>)

  /** The schema's validators: name and category required (and a required
      string may not be empty), price at least 0, quantity at least 0. */
  predicate Valid(p: Piece) {
    p.name != [] && p.category != [] && p.price >= 0.0 && p.quantity >= 0.0
  }

  /** Casting a body into a new document: the trim setters run, the quantity
      defaults to 0 and createdAt to the clock; a required field that is
      absent leaves no document to build. */
  function Cast(body: PieceInput, now: nat): Option<Piece> {
    if body.name.None? || body.category.None? || body.price.None? then None
    else Some(Piece(
      Trim(body.name.value),
      Trim(body.category.value),
      body.price.value,
      body.quantity.GetOr(0.0),
      body.description,
      body.createdAt.GetOr(now),
      body.updatedAt.GetOr(now)))
  }

  /** The `pre('save')` hook: stamps updatedAt with the clock. */
  function Stamp(p: Piece, now: nat): (q: Piece)
    ensures q.updatedAt == now
    ensures q.(updatedAt := p.updatedAt) == p
  {
    p.(updatedAt := now)
  }

  /** `Piece.create(body)`: cast, validate, run the save hook. `None` is the
      validation error; a document is created exactly when the body carries a
      name and a category that are not blank, a price of at least 0 and, if it
      carries one, a quantity of at least 0. */
  function Create(body: PieceInput, now: nat): (r: Option<Piece>)
    ensures r.Some? <==>
              && body.name.Some? && Trim(body.name.value) != []
              && body.category.Some? && Trim(body.category.value) != []
              && body.price.Some? && body.price.value >= 0.0
              && (body.quantity.Some? ==> body.quantity.value >= 0.0)
    ensures r.Some? ==> Valid(r.value) && r.value.updatedAt == now
    ensures r.Some? ==> r.value.name == Trim(body.name.value) && r.value.category == Trim(body.category.value)
    ensures r.Some? ==> r.value.quantity == body.quantity.GetOr(0.0)
    ensures r.Some? ==> r.value.createdAt == body.createdAt.GetOr(now)
    ensures r.Some? ==> r.value.price == body.price.value && r.value.description == body.description
  {
    match Cast(body, now)
    case None => None
    case Some(p) => if Valid(p) then Some(Stamp(p, now)) else None
  }

  /** A created piece stores its name and category trimmed. */
  lemma CreatedIsTrimmed(body: PieceInput, now: nat)
    requires Create(body, now).Some?
    ensures Trim(Create(body, now).value.name) == Create(body, now).value.name
    ensures Trim(Create(body, now).value.category) == Create(body, now).value.category
    ensures Create(body, now).value.name == Trim(body.name.value)
    ensures Create(body, now).value.category == Trim(body.category.value)
  {
    TrimIdempotent(body.name.value);
    TrimIdempotent(body.category.value);
  }

  /** `findByIdAndUpdate(id, body)`: every field the body carries replaces the
      stored one (through the same trim setters), every other field stays.
      No validator and no save hook runs. */
  function Update(p: Piece, body: PieceInput): Piece {
    Piece(
      if body.name.Some? then Trim(body.name.value) else p.name,
      if body.category.Some? then Trim(body.category.value) else p.category,
      body.price.GetOr(p.price),
      body.quantity.GetOr(p.quantity),
      if body.description.Some? then body.description else p.description,
      body.createdAt.GetOr(p.createdAt),
      body.updatedAt.GetOr(p.updatedAt))
  }

  /** An empty body. */
  const NoChange := PieceInput(None, None, None, None, None, None, None)

  /** An update with an empty body changes nothing. */
  lemma UpdateNothing(p: Piece)
    ensures Update(p, NoChange) == p
  {
  }

  /** An update does not refresh updatedAt: the stamp is that of the body, or
      the old one. */
  lemma UpdateKeepsStamp(p: Piece, body: PieceInput)
    requires body.updatedAt.None?
    ensures Update(p, body).updatedAt == p.updatedAt
  {
  }

  /** Sending the same update twice has the effect of sending it once. */
  lemma UpdateIdempotent(p: Piece, body: PieceInput)
    ensures Update(Update(p, body), body) == Update(p, body)
  {
    var once := Update(p, body);
    var twice := Update(once, body);
    if body.name.Some? {
      TrimIdempotent(body.name.value);
    }
    if body.category.Some? {
      TrimIdempotent(body.category.value);
    }
    assert twice.name == once.name;
    assert twice.category == once.category;
  }

  /** Because no validator runs on update, a valid piece can be given a
      negative price. */
  lemma UpdateBypassesValidation(p: Piece)
    requires Valid(p)
    ensures !Valid(Update(p, NoChange.(price := Some(-1.0))))
  {
  }
}
