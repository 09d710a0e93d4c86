/** The invoice record: its fields, which of them are required, the `status`
    default and the creation timestamp that the store assigns. */
module InvoiceSchema {
  import opened Common

  /** The two status values the routes write; the schema itself allows any string. */
  const Draft: string := "Draft"
  const Sent: string := "Sent"

  /** One invoice line; none of its fields is required. */
  datatype LineItem = LineItem(description: Option<string>, quantity: Option<real>, unitPrice: Option<real>)

  /** A stored invoice document. `total` is whatever the caller gave and is
      never checked against `items`. */
  datatype Invoice = Invoice(
    clientId: Id,
    clientName: string,
    dueDate: Date,
    items: seq<LineItem>,
    total: real,
    status: string,
    userId: UserId,
    issueDate: Date)

  /** The fields handed to the model before it is saved; any of them may be
      missing. There is no `issueDate` among them: the caller cannot set it. */
  datatype Fields = Fields(
    clientId: Option<Id>,
    clientName: Option<string>,
    dueDate: Option<Date>,
    items: Option<seq<LineItem>>,
    total: Option<real>,
    status: Option<string>,
    userId: Option<UserId>)

  /** A required String field is satisfied only by a non-empty string. */
  predicate PresentText(s: Option<string>)
  {
    s.Some? && s.value != ""
  }

  /** The `required: true` fields: clientId, clientName, dueDate, total, userId. */
  predicate HasRequired(f: Fields)
  {
    f.clientId.Some? && PresentText(f.clientName) && f.dueDate.Some? && f.total.Some? && PresentText(f.userId)
  }

  /** A stored invoice that passes the schema's validation. */
  predicate Conforms(inv: Invoice)
  {
    inv.clientName != "" && inv.userId != ""
  }

  /** The fields a stored invoice carries, as saving it again would see them. */
  function FieldsOf(inv: Invoice): (f: Fields)
  {
    Fields(Some(inv.clientId), Some(inv.clientName), Some(inv.dueDate), Some(inv.items),
           Some(inv.total), Some(inv.status), Some(inv.userId))
  }

  /** Saving a new document at time `now`: validation of the required fields,
      then the defaults (`status` is Draft, `items` is empty) and the creation
      timestamp. A document that fails validation is not stored. */
  function Save(f: Fields, now: Date): (r: Option<Invoice>)
    ensures r.Some? <==> HasRequired(f)
    ensures r.Some? ==> Conforms(r.value)
    ensures r.Some? ==> r.value.issueDate == now
    ensures r.Some? ==> r.value.status == (if f.status.Some? then f.status.value else Draft)
    ensures r.Some? ==> r.value.items == (if f.items.Some? then f.items.value else [])
    ensures r.Some? ==> f.clientId == Some(r.value.clientId) && f.clientName == Some(r.value.clientName)
                        && f.dueDate == Some(r.value.dueDate) && f.total == Some(r.value.total)
                        && f.userId == Some(r.value.userId)
  {
    if !HasRequired(f) then None
    else
      Some(Invoice(
        clientId := f.clientId.value,
        clientName := f.clientName.value,
        dueDate := f.dueDate.value,
        items := if f.items.Some? then f.items.value else [],
        total := f.total.value,
        status := if f.status.Some? then f.status.value else Draft,
        userId := f.userId.value,
        issueDate := now))
  }

  /** A conforming invoice is exactly what saving its own fields at its own
      issue date produces. */
  lemma SaveRoundTrip(inv: Invoice)
    requires Conforms(inv)
    ensures Save(FieldsOf(inv), inv.issueDate) == Some(inv)
  {
  }
}
