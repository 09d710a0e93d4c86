/** The client routes: list a user's clients by name, create a client, and
    update or delete one after checking that it exists and then that the
    requester owns it. */
module ClientRoutes {
  import opened Common
  import opened Listing

  /** A client document; `userId` is its owner and never changes. */
  datatype Client = Client(name: string, email: string, userId: UserId)

  /** Listing order of clients: by name, ascending. */
  predicate ByName(a: Entry<Client>, b: Entry<Client>)
  {
    StrLe(a.doc.name, b.doc.name)
  }

  lemma ByNameIsTotalPreorder()
    ensures TotalPreorder(ByName)
  {
    forall a: Entry<Client>, b: Entry<Client> ensures ByName(a, b) || ByName(b, a) {
      StrLeTotal(a.doc.name, b.doc.name);
    }
    forall a: Entry<Client>, b: Entry<Client>, c: Entry<Client> | ByName(a, b) && ByName(b, c)
      ensures ByName(a, c)
    {
      StrLeTransitive(a.doc.name, b.doc.name, c.doc.name);
    }
  }

  /** GET /api/clients: every client owned by `user`, exactly once, sorted by name. */
  function ClientsOf(clients: map<Id, Client>, user: UserId): (r: seq<Entry<Client>>)
    ensures forall e :: e in r <==> e.id in clients && clients[e.id] == e.doc && e.doc.userId == user
    ensures forall i, j :: 0 <= i < j < |r| ==> r[i].id != r[j].id
    ensures forall i, j :: 0 <= i < j < |r| ==> StrLe(r[i].doc.name, r[j].doc.name)
  {
    ByNameIsTotalPreorder();
    var r := Select(clients, (c: Client) => c.userId == user, ByName, clients.Keys);
    DistinctIds(clients, r);
    r
  }

  /** The check that precedes an update or a delete: existence first (404),
      then ownership (401). */
  function Authorize(clients: map<Id, Client>, user: UserId, id: Id): (r: Response<Client>)
    ensures r.Ok? || r.NotFound? || r.NotAuthorized?
    ensures r.NotFound? <==> id !in clients
    ensures r.NotAuthorized? <==> id in clients && clients[id].userId != user
    ensures r.Ok? ==> id in clients && r.value == clients[id] && r.value.userId == user
  {
    if id !in clients then NotFound
    else if clients[id].userId != user then NotAuthorized
    else Ok(clients[id])
  }

  /** The clients collection, with the id it will hand out next. */
  class ClientTable {
    var clients: map<Id, Client>
    var nextId: Id

    /** Every stored id was handed out before, so `nextId` is fresh. */
    ghost predicate Valid()
      reads this
    {
      forall id :: id in clients ==> id < nextId
    }

    constructor ()
      ensures Valid() && clients == map[]
    {
      clients := map[];
      nextId := 0;
    }

    /** POST /api/clients: stores a new client owned by `user` under a fresh id. */
    method Create(user: UserId, name: string, email: string) returns (r: Response<Entry<Client>>)
      requires Valid()
      modifies this
      ensures Valid()
      ensures old(nextId) !in old(clients)
      ensures r == Ok(Entry(old(nextId), Client(name, email, user)))
      ensures clients == old(clients)[old(nextId) := Client(name, email, user)]
      ensures r.value in ClientsOf(clients, user)
      ensures forall e :: e in old(ClientsOf(clients, user)) ==> e in ClientsOf(clients, user)
    {
      var id := nextId;
      var client := Client(name, email, user);
      clients := clients[id := client];
      nextId := nextId + 1;
      r := Ok(Entry(id, client));
    }

    /** PUT /api/clients/:id: replaces `name` and `email` of a client the
        requester owns and answers with the updated record. */
    method Update(user: UserId, id: Id, name: string, email: string) returns (r: Response<Entry<Client>>)
      requires Valid()
      modifies this
      ensures Valid() && nextId == old(nextId)
      ensures id !in old(clients) ==> r == NotFound
      ensures id in old(clients) && old(clients)[id].userId != user ==> r == NotAuthorized
      ensures !r.Ok? ==> clients == old(clients)
      ensures r.Ok? <==> Authorize(old(clients), user, id).Ok?
      ensures r.Ok? ==> clients == old(clients)[id := old(clients)[id].(name := name, email := email)]
      ensures r.Ok? ==> r.value == Entry(id, clients[id]) && clients[id].userId == user
    {
      var check := Authorize(clients, user, id);
      match check
      case NotFound => r := NotFound;
      case NotAuthorized => r := NotAuthorized;
      case Ok(client) =>
        var updated := client.(name := name, email := email);
        clients := clients[id := updated];
        r := Ok(Entry(id, updated));
    }

    /** DELETE /api/clients/:id: removes a client the requester owns. */
    method Delete(user: UserId, id: Id) returns (r: Response<()>)
      requires Valid()
      modifies this
      ensures Valid() && nextId == old(nextId)
      ensures id !in old(clients) ==> r == NotFound
      ensures id in old(clients) && old(clients)[id].userId != user ==> r == NotAuthorized
      ensures !r.Ok? ==> clients == old(clients)
      ensures r.Ok? <==> Authorize(old(clients), user, id).Ok?
      ensures r.Ok? ==> clients == old(clients) - {id}
      ensures r.Ok? ==> forall e :: e in ClientsOf(clients, user) <==> e in old(ClientsOf(clients, user)) && e.id != id
    {
      var check := Authorize(clients, user, id);
      match check
      case NotFound => r := NotFound;
      case NotAuthorized => r := NotAuthorized;
      case Ok(_) =>
        clients := clients - {id};
        r := Ok(());
    }
  }
}
