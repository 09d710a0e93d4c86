/** The invoice routes: list a user's invoices newest first, get one, create
    one for a client the user owns, and send one by mail, which marks it Sent. */
module InvoiceRoutes {
  import opened Common
  import opened Listing
  import opened InvoiceSchema
  import opened ClientRoutes

  /** Listing order of invoices: by issue date, newest first. */
  predicate NewestFirst(a: Entry<Invoice>, b: Entry<Invoice>)
  {
    a.doc.issueDate >= b.doc.issueDate
  }

  /** GET /api/invoices: every invoice owned by `user`, exactly once, newest first. */
  function InvoicesOf(invoices: map<Id, Invoice>, user: UserId): (r: seq<Entry<Invoice>>)
    ensures forall e :: e in r <==> e.id in invoices && invoices[e.id] == e.doc && e.doc.userId == user
    ensures forall i, j :: 0 <= i < j < |r| ==> r[i].id != r[j].id
    ensures forall i, j :: 0 <= i < j < |r| ==> r[i].doc.issueDate >= r[j].doc.issueDate
  {
    var r := Select(invoices, (inv: Invoice) => inv.userId == user, NewestFirst, invoices.Keys);
    DistinctIds(invoices, r);
    r
  }

  /** GET /api/invoices/:id: the stored invoice if `user` owns it; a missing
      invoice and another user's invoice give the same NotFound. */
  function GetInvoice(invoices: map<Id, Invoice>, user: UserId, id: Id): (r: Response<Invoice>)
    ensures r.Ok? || r.NotFound?
    ensures r.Ok? <==> id in invoices && invoices[id].userId == user
    ensures r.Ok? ==> r.value == invoices[id]
  {
    if id !in invoices || invoices[id].userId != user then NotFound else Ok(invoices[id])
  }

  /** What the get route answers agrees with the listing for the same user. */
  lemma GetAgreesWithListing(invoices: map<Id, Invoice>, user: UserId, id: Id, inv: Invoice)
    ensures GetInvoice(invoices, user, id) == Ok(inv) <==> Entry(id, inv) in InvoicesOf(invoices, user)
  {
  }

  /** Another user's invoice is indistinguishable from no invoice at all. */
  lemma GetHidesOtherUsersInvoices(invoices: map<Id, Invoice>, user: UserId, id: Id)
    requires id in invoices && invoices[id].userId != user
    ensures GetInvoice(invoices, user, id) == GetInvoice(invoices - {id}, user, id)
  {
  }

  /** The request body of POST /api/invoices; each field may be absent. */
  datatype InvoiceRequest = InvoiceRequest(clientId: Option<Id>, dueDate: Option<Date>, items: Option<seq<LineItem>>, total: Option<real>)

  const MailSubject: string := "Invoice from Your Agency"

  /** The fields of an outgoing invoice mail that the model tracks: the
      recipient address, the subject, and the name and amount the body shows. */
  datatype Mail = Mail(to: string, subject: string, recipientName: string, amount: real)

  /** The invoices collection, with the id it will hand out next. */
  class InvoiceTable {
    var invoices: map<Id, Invoice>
    var nextId: Id

    /** Fresh ids, every stored invoice passes the schema, and the only
        status values ever present are Draft and Sent. */
    ghost predicate Valid()
      reads this
    {
      && (forall id :: id in invoices ==> id < nextId)
      && (forall id :: id in invoices ==> Conforms(invoices[id]))
      && (forall id :: id in invoices ==> invoices[id].status == Draft || invoices[id].status == Sent)
    }

    constructor ()
      ensures Valid() && invoices == map[]
    {
      invoices := map[];
      nextId := 0;
    }

    /** POST /api/invoices: looks the client up, snapshots its name and saves
        a Draft owned by `user`, stamped with `now`. */
    method Create(directory: ClientTable, user: UserId, req: InvoiceRequest, now: Date) returns (r: Response<Entry<Invoice>>)
      requires Valid()
      modifies this
      ensures Valid()
      ensures r.Ok? || r.NotFound? || r.ServerError?
      ensures r.NotFound? <==>
                req.clientId.None? || req.clientId.value !in directory.clients
                || directory.clients[req.clientId.value].userId != user
      ensures !r.Ok? ==> invoices == old(invoices) && nextId == old(nextId)
      ensures r.Ok? ==>
                req.clientId.Some? && req.clientId.value in directory.clients
                && directory.clients[req.clientId.value].userId == user
      ensures r.ServerError? <==>
                !r.NotFound? && (req.dueDate.None? || req.total.None? || user == ""
                                || directory.clients[req.clientId.value].name == "")
      ensures r.Ok? ==> old(nextId) !in old(invoices)
                        && r.value.id == old(nextId)
                        && invoices == old(invoices)[old(nextId) := r.value.doc]
                        && nextId == old(nextId) + 1
      ensures r.Ok? ==> r.value.doc == Invoice(
                          clientId := req.clientId.value,
                          clientName := directory.clients[req.clientId.value].name,
                          dueDate := req.dueDate.value,
                          items := if req.items.Some? then req.items.value else [],
                          total := req.total.value,
                          status := Draft,
                          userId := user,
                          issueDate := now)
    {
      if req.clientId.None? || req.clientId.value !in directory.clients {
        return NotFound;
      }
      var client := directory.clients[req.clientId.value];
      if client.userId != user {
        return NotFound;
      }
      var fields := Fields(
        clientId := req.clientId,
        clientName := Some(client.name),
        dueDate := req.dueDate,
        items := req.items,
        total := req.total,
        status := Some(Draft),
        userId := Some(user));
      var saved := Save(fields, now);
      if saved.None? {
        return ServerError;
      }
      var id := nextId;
      invoices := invoices[id := saved.value];
      nextId := nextId + 1;
      r := Ok(Entry(id, saved.value));
    }

    /** POST /api/invoices/:id/send: mails the invoice to its client, whose
        address and name are read afresh, and marks it Sent once `relay`
        has accepted the mail. */
    method Send(directory: ClientTable, user: UserId, id: Id, relay: Mail -> bool) returns (r: Response<()>, mail: Option<Mail>)
      requires Valid()
      modifies this
      ensures Valid() && nextId == old(nextId)
      ensures r.Ok? || r.NotFound? || r.ServerError?
      ensures r.NotFound? <==> GetInvoice(old(invoices), user, id).NotFound?
      ensures (GetInvoice(old(invoices), user, id).Ok? && old(invoices)[id].clientId !in directory.clients)
                ==> r.ServerError? && mail.None?
      ensures mail.Some? <==> GetInvoice(old(invoices), user, id).Ok? && old(invoices)[id].clientId in directory.clients
      ensures mail.Some? ==>
                var client := directory.clients[old(invoices)[id].clientId];
                mail.value == Mail(client.email, MailSubject, client.name, old(invoices)[id].total)
      ensures r.Ok? <==> mail.Some? && relay(mail.value)
      ensures r.Ok? ==> invoices == old(invoices)[id := old(invoices)[id].(status := Sent)]
      ensures !r.Ok? ==> invoices == old(invoices)
    {
      var found := GetInvoice(invoices, user, id);
      if found.NotFound? {
        return NotFound, None;
      }
      var invoice := found.value;
      if invoice.clientId !in directory.clients {
        return ServerError, None;
      }
      var client := directory.clients[invoice.clientId];
      var message := Mail(client.email, MailSubject, client.name, invoice.total);
      mail := Some(message);
      if !relay(message) {
        return ServerError, mail;
      }
      var sent := invoice.(status := Sent);
      SaveRoundTrip(sent);
      assert Save(FieldsOf(sent), sent.issueDate).Some?;
      invoices := invoices[id := sent];
      r := Ok(());
    }
  }
}
