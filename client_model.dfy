/** The Client schema (backend/src/models/client.js): a customer of the shop. */
module ClientModel {
  import opened Common
  import opened Text

  /** A stored client. There is no updatedAt field. */
  datatype Client = Client(
    name: string,
    phone: Option<string>,
    email: Option<string>,
    createdAt: nat)

  /** A request body for create or update; `None` is a field the body leaves out. */
  datatype ClientInput = ClientInput(
    name: Option<string>,
    phone: Option<string>,
    email: Option<string>,
    createdAt: Option<nat>)

  /** The schema's only validator: the name is required, so not empty. */
  predicate Valid(c: Client) {
    c.name != []
  }

  /** The email as stored: lower-cased by the `lowercase` setter. */
  function NormalEmail(email: Option<string>): (r: Option<string>)
    ensures r.None? <==> email.None?
    ensures r.Some? ==> r.value == Lower(email.value)
  {
    match email
    case None => None
    case Some(e) => Some(Lower(e))
  }

  /** `Client.create(body)`: cast (trim the name, lower-case the email, stamp
      createdAt unless the body carries one), then validate. `None` is the
      validation error; a client is created exactly when the body carries a
      name that is not blank. The store's other clients play no part, so
      nothing makes an email unique. */
  function Create(body: ClientInput, now: nat): (r: Option<Client>)
    ensures r.Some? <==> body.name.Some? && Trim(body.name.value) != []
    ensures r.Some? ==> Valid(r.value)
    ensures r.Some? ==> r.value.name == Trim(body.name.value)
    ensures r.Some? ==> r.value.phone == body.phone && r.value.email == NormalEmail(body.email)
    ensures r.Some? ==> r.value.createdAt == body.createdAt.GetOr(now)
  {
    if body.name.None? then None
    else
      var c := Client(Trim(body.name.value), body.phone, NormalEmail(body.email), body.createdAt.GetOr(now));
      if Valid(c) then Some(c) else None
  }

  /** A created client stores its email lower-cased: lower-casing it again
      changes nothing, and neither does trimming its name again. */
  lemma CreatedIsNormal(body: ClientInput, now: nat)
    requires Create(body, now).Some?
    ensures Create(body, now).value.email.Some? ==>
              Lower(Create(body, now).value.email.value) == Create(body, now).value.email.value
    ensures Trim(Create(body, now).value.name) == Create(body, now).value.name
  {
    TrimIdempotent(body.name.value);
    if body.email.Some? {
      LowerIdempotent(body.email.value);
    }
  }

  /** Two bodies that differ only in the case of their email yield clients
      with the same stored email. */
  lemma EmailCaseInsensitive(body: ClientInput, other: string, now: nat)
    requires body.email.Some? && Lower(body.email.value) == Lower(other)
    requires Create(body, now).Some?
    ensures Create(body.(email := Some(other)), now).Some?
    ensures Create(body.(email := Some(other)), now).value.email == Create(body, now).value.email
  {
  }

  /** `findByIdAndUpdate(id, body)`: every field the body carries replaces the
      stored one (through the same setters), every other field stays. No
      validator runs. */
  function Update(c: Client, body: ClientInput): Client {
    Client(
      if body.name.Some? then Trim(body.name.value) else c.name,
      if body.phone.Some? then body.phone else c.phone,
      if body.email.Some? then NormalEmail(body.email) else c.email,
      body.createdAt.GetOr(c.createdAt))
  }

  /** Sending the same update twice has the effect of sending it once. */
  lemma UpdateIdempotent(c: Client, body: ClientInput)
    ensures Update(Update(c, body), body) == Update(c, body)
  {
    if body.name.Some? {
      TrimIdempotent(body.name.value);
    }
    if body.email.Some? {
      LowerIdempotent(body.email.value);
    }
  }

  /** Because no validator runs on update, a blank name can be stored. */
  lemma UpdateBypassesValidation(c: Client)
    ensures !Valid(Update(c, ClientInput(Some(" "), None, None, None)))
  {
    assert Trim(" ") == [] by {
      TrimBlank(" ");
    }
  }
}
