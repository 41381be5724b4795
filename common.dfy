/** Values shared by every part of the model: optional values, document ids,
    stored entries and the replies a controller sends back. */
module Common {

  datatype Option<+T> = None | Some(value: T) {
    function GetOr(default: T): T {
      match this
      case Some(v) => v
      case None => default
    }
  }

  /** A document id. Each store hands out ids it has never used before. */
  type Id = nat

  /** A stored document together with its id (the `_id` of the JSON reply). */
  datatype Entry<+T> = Entry(id: Id, value: T)

  /** What a controller answers: 200 with a body, 201 with a body, 204 without one,
      404 with a message, or the rejection of a document that fails its schema. */
  datatype Reply<+T> =
    | Ok(body: T)
    | Created(body: T)
    | NoContent
    | NotFound(message: string)
    | ValidationError
}
