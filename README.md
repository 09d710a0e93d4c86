# Billing backend: owner-scoped clients and invoices

A Dafny model of the two Express routers of a small billing backend and of
its invoice record. Users own clients and invoices. Every route looks a
record up, compares its `userId` with the requester's, and then answers with
a specific error or reads or changes one table.

- `Common` (common.dfy): ids, the `Response` outcomes that the routes answer
  with (`Ok`, `NotFound` = 404, `NotAuthorized` = 401, `ServerError` = 500),
  and `Entry`, a stored document together with its id.
- `Listing` (listing.dfy): the `find({userId}).sort(...)` queries. `Select`
  returns the entries of a table that a filter accepts, each exactly once,
  sorted by a sort key. `StrLe` is the binary string order that a name sort
  uses when no collation is set.
- `InvoiceSchema` (invoice_schema.dfy): the Mongoose invoice schema. `Fields`
  is a document before it is saved, where any field may be missing.
  `HasRequired` is the `required: true` check; a required String must also be
  non-empty, which is how Mongoose validates strings. `Save` applies the
  validation, the `status` default `Draft`, the empty default for `items` and
  the `issueDate` creation timestamp.
- `ClientRoutes` (clients.js): `ClientsOf` is the name-sorted listing.
  `Authorize` is the check that update and delete share: existence first (404),
  then ownership (401). Class `ClientTable` holds the clients collection and
  a fresh-id counter, and its methods `Create`, `Update` and `Delete` change it.
- `InvoiceRoutes` (invoices.js): `InvoicesOf` is the newest-first listing.
  `GetInvoice` folds "missing" and "another user's" into one 404. Class
  `InvoiceTable` holds the invoices collection and its methods `Create` and
  `Send` change it. Both methods read a `ClientTable` and leave it unchanged.
  `InvoiceTable.Valid()` keeps three facts true: ids are fresh, every stored
  invoice passes the schema, and `status` is always `Draft` or `Sent`.
- `Scenarios` (scenarios.dfy): one scenario built only from the contracts.
  Client "Acme" is billed 100. A failed send leaves the invoice a Draft, and a
  later send succeeds. Another user is refused. After the client is deleted,
  a send fails and the `clientName` snapshot is still there.

Interfaces that the model takes as parameters:
- The authenticated user is the `user` argument.
- The creation time is `now`.
- The mail relay is `relay: Mail -> bool`, which says whether the relay
  accepted a given message. `Send` also returns the `Mail` it handed over,
  so its contract can say which address and which name were used.

Behaviour of the code worth knowing:
- A send whose client was deleted answers 500 (`ServerError`), because
  `client.email` is read from a missing record. The code does not check for
  an empty email address.
- The mail body shows `total` unformatted, as it is stored.
- An ownership failure on client update or delete answers 401.
- `status` is a free string with default `Draft` in the schema. The set
  {Draft, Sent} is an invariant that the routes keep, not a type.

## Model

| member | source | states |
|---|---|---|
| `Listing.StrLeTotal` | server/routes/clients.js:10 | any two names are ordered one way or the other by the name sort |
| `Listing.StrLeTransitive` | server/routes/clients.js:10 | the name sort order is transitive |
| `Listing.StrLeAntisymmetric` | server/routes/clients.js:10 | two names that sort no later than each other are equal, so ties are exactly equal names |
| `Listing.Insert` | server/routes/clients.js:10 | inserting an entry into a listing adds exactly that entry (equal multisets) |
| `Listing.InsertSorted` | server/routes/clients.js:10 | inserting into a sorted listing keeps it sorted, for any total preorder |
| `Listing.InsertDistinct` | server/routes/clients.js:10 | inserting a new entry into a listing without repeats keeps it without repeats |
| `Listing.Select` | server/routes/invoices.js:12 | a filtered listing of a table holds every accepted entry exactly once, with its stored document, and is sorted |
| `ClientRoutes.ByNameIsTotalPreorder` | server/routes/clients.js:10 | ordering clients by name is a total preorder, so a name-sorted listing exists |
| `ClientRoutes.ClientsOf` | server/routes/clients.js:8-16 | GET /api/clients returns an entry exactly when the stored client with that id belongs to the requester, with no repeated ids, in ascending name order |
| `ClientRoutes.Authorize` | server/routes/clients.js:43-47 | the update/delete check answers NotFound exactly when the id is absent, NotAuthorized exactly when it exists and belongs to someone else, and otherwise the stored client, owned by the requester |
| `ClientRoutes.ClientTable.Create` | server/routes/clients.js:20-34 | a new client with the given name and email, owned by the requester, is stored under a fresh id; no existing client changes; the listing of the owner now contains it and still contains what it had |
| `ClientRoutes.ClientTable.Update` | server/routes/clients.js:38-58 | absent id gives NotFound, another owner's client gives NotAuthorized, and neither changes the table; on success only that client's name and email are replaced, its owner stays, and the answer is the new stored record |
| `ClientRoutes.ClientTable.Delete` | server/routes/clients.js:62-75 | the same NotFound-then-NotAuthorized checks with no change on failure; on success exactly that id is removed, and the owner's listing is the old one without it; the invoice table is not in its frame |
| `InvoiceRoutes.InvoicesOf` | server/routes/invoices.js:10-18 | GET /api/invoices returns an entry exactly when the stored invoice with that id belongs to the requester, with no repeated ids, newest issue date first |
| `InvoiceRoutes.GetInvoice` | server/routes/invoices.js:22-33 | GET /api/invoices/:id answers the stored invoice exactly when it exists and belongs to the requester, and one NotFound otherwise; it reads the table only |
| `InvoiceRoutes.GetAgreesWithListing` | server/routes/invoices.js:12-28 | getting an invoice succeeds with a record exactly when that id and record appear in the requester's listing |
| `InvoiceRoutes.GetHidesOtherUsersInvoices` | server/routes/invoices.js:24-27 | for a requester, another user's invoice answers exactly as if it were not stored |
| `InvoiceRoutes.InvoiceTable.Create` | server/routes/invoices.js:38-62 | a missing, unknown or foreign client gives NotFound; a missing dueDate or total, an empty client name or an empty user id fails validation with ServerError; no failure stores anything; success stores one invoice under a fresh id, owned by the requester, with the client's current name, Draft status, the request's clientId, dueDate, items (empty when absent) and total as given, and issueDate = now; the status invariant is kept |
| `InvoiceRoutes.InvoiceTable.Send` | server/routes/invoices.js:66-97 | a missing or foreign invoice gives NotFound; a deleted client gives ServerError before any mail; otherwise the mail goes to the client's current email and shows the client's current name and the invoice total, and the invoice becomes Sent exactly when the relay accepts it, with no modelled field but its status changed; a failed dispatch is ServerError and changes nothing; no status guard, so Sent stays Sent |
| `InvoiceSchema.Save` | server/models/Invoice.js:2-10 | saving succeeds exactly when clientId, a non-empty clientName, dueDate, total and a non-empty userId are present; the saved record carries the given values, status defaults to Draft, items default to empty, and issueDate is the save time rather than anything the caller gives |
| `InvoiceSchema.SaveRoundTrip` | server/models/Invoice.js:2-10 | a stored invoice that passes validation is exactly what saving its own fields at its issue date yields, so re-saving it after a status change passes validation |

## Left out

- `server/server.js` (configuration loading, CORS, the database connection, `listen`) and `server/test-mail.js` (a hard-coded mail smoke test): wiring and I/O with no logic.
- The auth middleware and `models/Client.js` are not part of this model. The user id is a parameter, and a client is `{name, email, userId}` as the client routes use it.
- Saving a client never fails in the model, because the client schema is not part of this model. Database failures are I/O, so the client routes never answer 500 here.
- The nodemailer transport, its configuration and the sender address come from the environment and are left out. The HTML body is not built as text: `Mail` keeps the fields the body reads, which are the client's name and the total.
- Mongoose casting (malformed ObjectIds, type coercion of dates and numbers) and `toString()` comparison are left out. The request fields arrive already typed, and every thrown error is the one `ServerError`.
- The order of entries with equal sort keys is left out. The database does not fix it, so the listings promise only sortedness, and `Select` happens to visit keys in ascending id order.
- InvoiceRoutes.InvoiceTable.Send: does not model a crash between a successful dispatch and the save on line 91, or two concurrent sends of the same invoice. Both are partial-failure and concurrency effects.
- ClientRoutes.ClientTable.Create: does not model a request body that omits `name` or `email`; both arrive as strings.
- ClientRoutes.ClientTable.Update: does not model a request body that omits `name` or `email`; both arrive as strings.
- The `updatedAt` timestamp that Mongoose adds and refreshes on every save (including the save after a send), and the `_id` that it gives each line item, are left out; no route reads them.
- Numbers are modelled as `real` and dates as integer milliseconds. No arithmetic is done on either, so floating point does not matter here.
