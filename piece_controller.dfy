/** The piece controller (backend/src/controllers/pieceController.js) over an
    in-memory piece collection. */
module PieceController {
  import opened Common
  import PieceModel

  const PieceNotFound := "Peça não encontrada"

  /** The `pieces` collection: a map from id to document, and the next id to
      hand out. */
  class PieceStore {
    var pieces: map<Id, PieceModel.Piece>
    var nextId: Id

    /** Every stored id was handed out before, so `nextId` is unused. */
    ghost predicate Valid()
      reads this
    {
      forall id :: id in pieces ==> id < nextId
    }

    constructor ()
      ensures Valid() && pieces == map[]
    {
      pieces := map[];
      nextId := 0;
    }

    /** `listPieces`: every stored piece. */
    method List() returns (r: map<Id, PieceModel.Piece>)
      ensures r == pieces
    {
      r := pieces;
    }

    /** `getPiece`: the piece with that id, or 404. */
    method Get(id: Id) returns (r: Reply<Entry<PieceModel.Piece>>)
      ensures id in pieces ==> r == Ok(Entry(id, pieces[id]))
      ensures id !in pieces ==> r == NotFound(PieceNotFound)
    {
      if id in pieces {
        r := Ok(Entry(id, pieces[id]));
      } else {
        r := NotFound(PieceNotFound);
      }
    }

    /** `createPiece`: a body the schema accepts adds exactly one piece, under
        an unused id, and is answered 201 with it; any other body is rejected
        and the collection is unchanged. */
    method Create(body: PieceModel.PieceInput, now: nat) returns (r: Reply<Entry<PieceModel.Piece>>)
      requires Valid()
      modifies this
      ensures Valid()
      ensures PieceModel.Create(body, now).None? ==> r == ValidationError && pieces == old(pieces) && nextId == old(nextId)
      ensures PieceModel.Create(body, now).Some? ==>
                && r.Created? && r.body.id !in old(pieces)
                && r.body.value == PieceModel.Create(body, now).value
                && pieces == old(pieces)[r.body.id := r.body.value]
                && r.body.id == old(nextId) && nextId == old(nextId) + 1
    {
      match PieceModel.Create(body, now)
      case None =>
        r := ValidationError;
      case Some(p) =>
        var id := nextId;
        pieces := pieces[id := p];
        nextId := nextId + 1;
        r := Created(Entry(id, p));
    }

    /** `updatePiece`: merges the body into the piece with that id and answers
        with the piece as it is afterwards; an unknown id is answered 404 and
        changes nothing. No other piece changes. */
    method Update(id: Id, body: PieceModel.PieceInput) returns (r: Reply<Entry<PieceModel.Piece>>)
      requires Valid()
      modifies this`pieces
      ensures Valid()
      ensures id in old(pieces) ==>
                && pieces == old(pieces)[id := PieceModel.Update(old(pieces)[id], body)]
                && r == Ok(Entry(id, pieces[id]))
      ensures id !in old(pieces) ==> pieces == old(pieces) && r == NotFound(PieceNotFound)
    {
      if id in pieces {
        pieces := pieces[id := PieceModel.Update(pieces[id], body)];
        r := Ok(Entry(id, pieces[id]));
      } else {
        r := NotFound(PieceNotFound);
      }
    }

    /** `deletePiece`: removes the piece with that id and answers 204; an
        unknown id is answered 404 and changes nothing. No other piece changes,
        and no order is looked at. */
    method Delete(id: Id) returns (r: Reply<()>)
      requires Valid()
      modifies this`pieces
      ensures Valid()
      ensures id in old(pieces) ==> pieces == old(pieces) - {id} && r == NoContent
      ensures id !in old(pieces) ==> pieces == old(pieces) && r == NotFound(PieceNotFound)
    {
      if id in pieces {
        pieces := pieces - {id};
        r := NoContent;
      } else {
        r := NotFound(PieceNotFound);
      }
    }
  }
}
