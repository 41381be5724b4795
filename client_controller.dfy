/** The client controller (backend/src/controllers/clientController.js) over
    an in-memory client collection. There is no operation that reads one
    client by id. */
module ClientController {
  import opened Common
  import ClientModel

  const ClientNotFound := "Cliente não encontrado"

  /** The `clients` collection: a map from id to document, and the next id to
      hand out. */
  class ClientStore {
    var clients: map<Id, ClientModel.Client>
    var nextId: Id

    /** Every stored id was handed out before, so `nextId` is unused. */
    ghost predicate Valid()
      reads this
    {
      forall id :: id in clients ==> id < nextId
    }

    constructor ()
      ensures Valid() && clients == map[]
    {
      clients := map[];
      nextId := 0;
    }

    /** `listClients`: every stored client. */
    method List() returns (r: map<Id, ClientModel.Client>)
      ensures r == clients
    {
      r := clients;
    }

    /** `createClient`: a body the schema accepts adds exactly one client,
        under an unused id, and is answered 201 with it; any other body is
        rejected and the collection is unchanged. The clients already stored
        play no part: two clients may share an email. */
    method Create(body: ClientModel.ClientInput, now: nat) returns (r: Reply<Entry<ClientModel.Client>>)
      requires Valid()
      modifies this
      ensures Valid()
      ensures ClientModel.Create(body, now).None? ==> r == ValidationError && clients == old(clients) && nextId == old(nextId)
      ensures ClientModel.Create(body, now).Some? ==>
                && r.Created? && r.body.id !in old(clients)
                && r.body.value == ClientModel.Create(body, now).value
                && clients == old(clients)[r.body.id := r.body.value]
                && r.body.id == old(nextId) && nextId == old(nextId) + 1
    {
      match ClientModel.Create(body, now)
      case None =>
        r := ValidationError;
      case Some(c) =>
        var id := nextId;
        clients := clients[id := c];
        nextId := nextId + 1;
        r := Created(Entry(id, c));
    }

    /** `updateClient`: merges the body into the client with that id and
        answers with the client as it is afterwards; an unknown id is answered
        404 and changes nothing. No other client changes. */
    method Update(id: Id, body: ClientModel.ClientInput) returns (r: Reply<Entry<ClientModel.Client>>)
      requires Valid()
      modifies this`clients
      ensures Valid()
      ensures id in old(clients) ==>
                && clients == old(clients)[id := ClientModel.Update(old(clients)[id], body)]
                && r == Ok(Entry(id, clients[id]))
      ensures id !in old(clients) ==> clients == old(clients) && r == NotFound(ClientNotFound)
    {
      if id in clients {
        clients := clients[id := ClientModel.Update(clients[id], body)];
        r := Ok(Entry(id, clients[id]));
      } else {
        r := NotFound(ClientNotFound);
      }
    }

    /** `deleteClient`: removes the client with that id and answers 204; an
        unknown id is answered 404 and changes nothing. No other client
        changes, and no order is looked at. */
    method Delete(id: Id) returns (r: Reply<()>)
      requires Valid()
      modifies this`clients
      ensures Valid()
      ensures id in old(clients) ==> clients == old(clients) - {id} && r == NoContent
      ensures id !in old(clients) ==> clients == old(clients) && r == NotFound(ClientNotFound)
    {
      if id in clients {
        clients := clients - {id};
        r := NoContent;
      } else {
        r := NotFound(ClientNotFound);
      }
    }
  }
}
