/** Worked scenarios that use only the contracts of the routes. */
module Scenarios {
  import opened Common
  import opened InvoiceSchema
  import opened ClientRoutes
  import opened InvoiceRoutes

  /** A client "Acme" of user U1 is billed 100 and mailed; a second user
      can neither see nor send the invoice; once the client is deleted,
      a further send fails and the status stays as it was. */
  method AcmeScenario()
  {
    var directory := new ClientTable();
    var book := new InvoiceTable();
    var created := directory.Create("U1", "Acme", "a@acme.test");
    var acme := created.value.id;

    var item := LineItem(Some("Design"), Some(2.0), Some(50.0));
    var req := InvoiceRequest(Some(acme), Some(1704067200000), Some([item]), Some(100.0));
    var made := book.Create(directory, "U1", req, 1700000000000);
    assert made.Ok?;
    var inv := made.value.id;
    assert book.invoices[inv].status == Draft && book.invoices[inv].clientName == "Acme";

    var other := book.Create(directory, "U2", req, 1700000000001);
    assert other == NotFound;
    assert GetInvoice(book.invoices, "U2", inv) == NotFound;

    var refused, noMail := book.Send(directory, "U2", inv, m => true);
    assert refused == NotFound && noMail.None?;

    var failed, tried := book.Send(directory, "U1", inv, m => false);
    assert failed == ServerError && book.invoices[inv].status == Draft;
    assert tried == Some(Mail("a@acme.test", MailSubject, "Acme", 100.0));

    var ok, mail := book.Send(directory, "U1", inv, m => true);
    assert ok.Ok? && book.invoices[inv].status == Sent;
    assert mail.value.to == "a@acme.test";

    var stranger := directory.Delete("U2", acme);
    assert stranger == NotAuthorized;
    var removed := directory.Delete("U1", acme);
    assert removed.Ok?;
    var orphan, none := book.Send(directory, "U1", inv, m => true);
    assert orphan == ServerError && none.None?;
    assert book.invoices[inv].status == Sent && book.invoices[inv].clientName == "Acme";
  }
}
