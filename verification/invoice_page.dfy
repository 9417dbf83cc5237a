/** The guards of `components/shared/invoice-page.tsx`: the checks the
    invoice page runs before it sends an edit, the payload it builds for a
    new invoice, and which edit controls it shows. `parse` is
    `new Date(text)` in milliseconds, `None` for an Invalid Date. */
module InvoicePage {
  import opened Base
  import Js
  import opened Store
  import opened Http
  import opened Sql
  import InvoiceRoute

  /** A form field the check reads: absent (`null` or `undefined`) or its
      text. */
  type Field = Option<string>

  /** `!x || String(x).trim() === ""`. */
  predicate Blank(f: Field) {
    f.None? || Trim(f.value) == ""
  }

  // ---- date fields of the edit forms ------------------------------------

  /** A date held by an edit form: the value the listing delivered (an ISO
      text, or `null`), until the date input is changed; from then on the
      `Date` object `new Date(input)` made of the input's text, `None` for
      an Invalid Date. */
  datatype DateField = Stored(text: Option<string>) | Edited(time: Option<int>)

  /** The date input's `onChange`: the field becomes a `Date`. Clearing the
      input gives `new Date("")`. */
  function EditDate(input: string, parse: string -> Option<int>): (d: DateField)
    ensures d.Edited? && d.time == parse(input)
  {
    Edited(parse(input))
  }

  /** `!x`: a `Date` object is always truthy, so only a stored `null` or
      empty text is falsy. */
  predicate DateFalsy(d: DateField) {
    d.Stored? && (d.text.None? || d.text.value == "")
  }

  /** `!x || String(x).trim() === ""`: a `Date` prints as a date or as
      "Invalid Date", never as blank. */
  predicate DateBlank(d: DateField) {
    d.Stored? && Blank(d.text)
  }

  /** `new Date(x)` in milliseconds: a stored `null` is the epoch. */
  function DateOf(d: DateField, parse: string -> Option<int>): Option<int> {
    match d
    case Stored(t) => if t.Some? then parse(t.value) else Some(0)
    case Edited(t) => t
  }

  /** The input's `value` is `x ? new Date(x).toISOString()… : ""`, and
      `toISOString` throws on an Invalid Date: the form renders only while
      a truthy date is a valid one. */
  predicate Renders(d: DateField, parse: string -> Option<int>) {
    DateFalsy(d) || DateOf(d, parse).Some?
  }

  /** Clearing a date input leaves an Invalid Date in the form, which the
      next render cannot show. */
  lemma ClearedDateThrows(parse: string -> Option<int>)
    requires parse("").None?
    ensures !Renders(EditDate("", parse), parse) && !DateBlank(EditDate("", parse))
  {
  }

  // ---- editing an invoice ----------------------------------------------

  /** What submitting the edit form comes to; `EditRenderThrows` when the
      form threw while rendering and so can be neither submitted nor
      checked. */
  datatype EditVerdict = EditRenderThrows | FillAllFields | CreatedAfterCompleted | SendEdit

  /** The invoice-edit form's submit, behind its render: both the
      completion date and the status must be non-blank, and the creation
      date (the listing's text) must not be after the completion date.
      Dates compare as `Date` objects, so an Invalid Date on the creation
      side passes the order check. */
  function CheckInvoiceEdit(createdAt: string, completedAt: DateField, status: Field,
                            parse: string -> Option<int>): (v: EditVerdict)
    ensures v == EditRenderThrows <==> !Renders(completedAt, parse)
    ensures v == FillAllFields <==> Renders(completedAt, parse) && (DateBlank(completedAt) || Blank(status))
    ensures v == CreatedAfterCompleted <==>
              Renders(completedAt, parse) && !DateBlank(completedAt) && !Blank(status)
              && Js.DateAfter(parse(createdAt), DateOf(completedAt, parse))
    ensures v == SendEdit ==> !DateBlank(completedAt) && !Blank(status) && DateOf(completedAt, parse).Some?
  {
    if !Renders(completedAt, parse) then EditRenderThrows
    else if DateBlank(completedAt) || Blank(status) then FillAllFields
    else if Js.DateAfter(parse(createdAt), DateOf(completedAt, parse)) then CreatedAfterCompleted
    else SendEdit
  }

  /** An edit that is sent with a valid creation date completes no earlier
      than it was created, and equal dates are accepted. */
  lemma SentEditIsOrdered(createdAt: string, completedAt: DateField, status: Field, parse: string -> Option<int>)
    requires Renders(completedAt, parse) && !DateBlank(completedAt) && !Blank(status)
    requires parse(createdAt).Some?
    ensures CheckInvoiceEdit(createdAt, completedAt, status, parse) == SendEdit
            <==> parse(createdAt).value <= DateOf(completedAt, parse).value
  {
  }

  /** Once the completion date has been changed the blank check can no
      longer refuse it: only a blank status is then "fill all fields". */
  lemma EditedCompletionNeverBlank(createdAt: string, input: string, status: Field, parse: string -> Option<int>)
    requires parse(input).Some?
    ensures CheckInvoiceEdit(createdAt, EditDate(input, parse), status, parse) == FillAllFields <==> Blank(status)
  {
  }

  // ---- updating an invoice line ----------------------------------------

  /** The line being edited: its dates as the form holds them and its
      price. */
  datatype LineDraft = LineDraft(lineId: int, invoiceId: int, dateOfManufacture: DateField, useByDate: DateField,
                                 productPrice: Js.Value)

  /** The body of the line update: the two dates and the price, nothing
      else (no quantity). */
  datatype LineUpdateBody = LineUpdateBody(dateOfManufacture: DateField, useByDate: DateField, productPrice: Js.Value)

  datatype LineVerdict = LineRenderThrows | FillBothDates | MadeNotBeforeUseBy | SendLineUpdate(body: LineUpdateBody)

  /** The line-update submit, behind its render: both dates must be
      present, and the manufacture date must be strictly before the use-by
      date. */
  function CheckLineUpdate(line: LineDraft, parse: string -> Option<int>): (v: LineVerdict)
    ensures v == LineRenderThrows <==> !Renders(line.dateOfManufacture, parse) || !Renders(line.useByDate, parse)
    ensures v == FillBothDates <==>
              Renders(line.dateOfManufacture, parse) && Renders(line.useByDate, parse)
              && (DateFalsy(line.dateOfManufacture) || DateFalsy(line.useByDate))
    ensures v == MadeNotBeforeUseBy <==>
              Renders(line.dateOfManufacture, parse) && Renders(line.useByDate, parse)
              && !DateFalsy(line.dateOfManufacture) && !DateFalsy(line.useByDate)
              && Js.DateAtOrAfter(DateOf(line.dateOfManufacture, parse), DateOf(line.useByDate, parse))
    ensures v.SendLineUpdate? ==>
              v.body == LineUpdateBody(line.dateOfManufacture, line.useByDate, line.productPrice)
              && DateOf(line.dateOfManufacture, parse).Some? && DateOf(line.useByDate, parse).Some?
  {
    if !Renders(line.dateOfManufacture, parse) || !Renders(line.useByDate, parse) then LineRenderThrows
    else if DateFalsy(line.dateOfManufacture) || DateFalsy(line.useByDate) then FillBothDates
    else
      var made := DateOf(line.dateOfManufacture, parse);
      var useBy := DateOf(line.useByDate, parse);
      if Js.DateAtOrAfter(made, useBy) then MadeNotBeforeUseBy
      else SendLineUpdate(LineUpdateBody(line.dateOfManufacture, line.useByDate, line.productPrice))
  }

  /** Once the form renders with two present dates, the update is sent
      exactly when the product is made strictly before its use-by date;
      equal dates are refused. */
  lemma SentLineIsOrdered(line: LineDraft, parse: string -> Option<int>)
    requires Renders(line.dateOfManufacture, parse) && Renders(line.useByDate, parse)
    requires !DateFalsy(line.dateOfManufacture) && !DateFalsy(line.useByDate)
    ensures DateOf(line.dateOfManufacture, parse).Some? && DateOf(line.useByDate, parse).Some?
    ensures CheckLineUpdate(line, parse).SendLineUpdate?
            <==> DateOf(line.dateOfManufacture, parse).value < DateOf(line.useByDate, parse).value
  {
  }

  // ---- creating an invoice ---------------------------------------------

  /** The creation form: the chosen provider id and type label as the
      selects hold them (`""` when nothing is chosen). */
  datatype InvoiceForm = InvoiceForm(providerId: string, invoiceType: string)

  const WriteOffLabel := "Списання"

  /** Choosing a type: the body the form then posts carries that type; a
      write-off carries no provider, and switching away from it again
      leaves none chosen, which posts provider 0. Any other choice keeps
      the provider chosen before. */
  function SelectType(f: InvoiceForm, value: string): (g: InvoiceForm)
    ensures CreatePayload(g).invoiceType == Js.Str(value)
    ensures value == WriteOffLabel ==> CreatePayload(g).providerId == Js.Null
    ensures value != WriteOffLabel ==> g.providerId == f.providerId
  {
    InvoiceForm(if value == WriteOffLabel then "" else f.providerId, value)
  }

  /** Choosing the write-off type and then another type leaves no provider
      chosen, and the form then posts provider 0 rather than none. */
  lemma WriteOffAndBackPostsZero(f: InvoiceForm, value: string)
    requires value != WriteOffLabel
    ensures CreatePayload(SelectType(SelectType(f, WriteOffLabel), value)).providerId == Js.Num(0)
  {
    assert Js.ToNumber(Js.Str("")) == Some(0);
  }

  /** The body the form posts, as the route reads it back: the type as
      chosen, no provider (`null`) for a write-off, otherwise
      `Number(provider_id)`, so an unchosen provider is sent as 0. */
  function CreatePayload(f: InvoiceForm): (b: InvoiceRoute.InvoiceBody)
    ensures b.invoiceType == Js.Str(f.invoiceType)
    ensures b.providerId == Js.Null <==> f.invoiceType == WriteOffLabel || Js.ToNumber(Js.Str(f.providerId)).None?
    ensures f.invoiceType != WriteOffLabel && Js.ToNumber(Js.Str(f.providerId)).Some? ==>
              b.providerId == Js.Num(Js.ToNumber(Js.Str(f.providerId)).value)
  {
    InvoiceRoute.InvoiceBody(
      if f.invoiceType == WriteOffLabel then Js.Null else Js.ThroughJson(Js.AsNumber(Js.Str(f.providerId))),
      Js.Str(f.invoiceType))
  }

  /** A write-off created from the form records no provider. */
  lemma WriteOffCreatedWithoutProvider(db: Db, session: Session, f: InvoiceForm, env: Env)
    requires Valid(db) && f.invoiceType == WriteOffLabel
    requires InvoiceRoute.InvoicePost(db, session, CreatePayload(f), env).0.status == Created
    ensures var added := InvoiceRoute.InvoicePost(db, session, CreatePayload(f), env).1.invoices[|db.invoices|];
            added.kind == WriteOff && added.provider.None?
  {
    InvoiceRoute.ProviderRecorded(db, session, CreatePayload(f), env);
  }

  /** The route does not enforce it: a write-off posted with a numeric
      provider is created with that provider. */
  lemma RouteAcceptsWriteOffWithProvider(db: Db, session: Session, provider: int, env: Env)
    requires Valid(db)
    requires RouteGate(session).Admit? && !Js.NumberFalsy(session.value.id) && !FailsAt(env, 0)
    ensures var r := InvoiceRoute.InvoicePost(db, session, InvoiceRoute.InvoiceBody(Js.Num(provider), Js.Str(WriteOffLabel)), env);
            r.0.status == Created && r.1.invoices[|db.invoices|].kind == WriteOff
            && r.1.invoices[|db.invoices|].provider == Some(provider)
  {
    var b := InvoiceRoute.InvoiceBody(Js.Num(provider), Js.Str(WriteOffLabel));
    assert InvoiceRoute.KindOf(b.invoiceType) == Some(WriteOff);
  }

  /** A form submitted with no type chosen creates nothing. */
  lemma UnchosenTypeCreatesNothing(db: Db, session: Session, f: InvoiceForm, env: Env)
    requires Valid(db) && f.invoiceType == ""
    ensures InvoiceRoute.InvoicePost(db, session, CreatePayload(f), env).1 == db
    ensures InvoiceRoute.InvoicePost(db, session, CreatePayload(f), env).0.status in {BadRequest, Unauthorized, Forbidden}
  {
  }

  // ---- the listing and its edit locks -----------------------------------

  /** The listing's query parameters: `type` and `search` are sent only
      when both are non-empty. */
  function ListQuery(searchType: string, searchValue: string): (q: (Option<string>, Option<string>))
    ensures q.0.Some? <==> searchType != "" && searchValue != ""
    ensures q.1.Some? <==> searchType != "" && searchValue != ""
    ensures q.0.Some? ==> q.0.value == searchType && q.1.value == searchValue
  {
    if searchType != "" && searchValue != "" then (Some(searchType), Some(searchValue)) else (None, None)
  }

  /** A cleared search box lists every invoice the view holds. */
  lemma ClearedSearchListsAll(session: Session, searchType: string, view: seq<InvoiceRoute.InvoiceRow>, env: Env)
    requires RouteGate(session).Admit? && !FailsAt(env, 0)
    ensures var q := ListQuery(searchType, "");
            var r := InvoiceRoute.InvoiceGet(session, q.0, q.1, view, env);
            r.Rows? && multiset(r.rows) == multiset(view)
  {
    var p := (row: InvoiceRoute.InvoiceRow) =>
               InvoiceRoute.Matches(row, InvoiceRoute.ById, SearchPattern(None));
    forall i | 0 <= i < |view| ensures p(view[i]) {
      InvoiceRoute.BlankSearchMatchesAll(view[i], InvoiceRoute.ById, None);
    }
    FilterAll(view, p);
  }

  /** An invoice as the listing shows it: its id, status label and type
      label. */
  datatype ListedInvoice = ListedInvoice(invoiceId: int, status: string, invoiceType: string)

  /** `invoices.find(inv => inv.invoice_id === id)`: the first listed
      invoice with that id. */
  function FindInvoice(invoices: seq<ListedInvoice>, id: int): (r: Option<ListedInvoice>)
    ensures r.None? <==> forall i :: 0 <= i < |invoices| ==> invoices[i].invoiceId != id
    ensures r.Some? ==> r.value.invoiceId == id && r.value in invoices
    ensures r.Some? ==> exists k :: 0 <= k < |invoices| && invoices[k] == r.value
                                   && forall j :: 0 <= j < k ==> invoices[j].invoiceId != id
    decreases |invoices|
  {
    if |invoices| == 0 then None
    else if invoices[0].invoiceId == id then Some(invoices[0])
    else
      var rest := FindInvoice(invoices[1..], id);
      assert forall i :: 0 < i < |invoices| ==> invoices[i] == invoices[1..][i - 1];
      if rest.Some? then
        var k :| 0 <= k < |invoices[1..]| && invoices[1..][k] == rest.value
                 && forall j :: 0 <= j < k ==> invoices[1..][j].invoiceId != id;
        assert invoices[k + 1] == rest.value;
        assert forall j :: 0 <= j < k + 1 ==> invoices[j].invoiceId != id;
        rest
      else rest
  }

  /** The ids of the listed invoices `keep` holds for, in listing order:
      the options of an invoice select. */
  function OptionIds(invoices: seq<ListedInvoice>, keep: ListedInvoice -> bool): (ids: seq<int>)
    ensures |ids| <= |invoices|
    ensures forall id :: id in ids
                         <==> exists i :: 0 <= i < |invoices| && invoices[i].invoiceId == id && keep(invoices[i])
    decreases |invoices|
  {
    if |invoices| == 0 then []
    else
      var head := if keep(invoices[0]) then [invoices[0].invoiceId] else [];
      var rest := OptionIds(invoices[1..], keep);
      assert forall i :: 0 < i < |invoices| ==> invoices[i] == invoices[1..][i - 1];
      head + rest
  }

  const CompletedLabel := "Завершено"

  /** The edit button of an invoice row is shown unless it is completed. */
  predicate InvoiceEditShown(inv: ListedInvoice) {
    inv.status != CompletedLabel
  }

  /** A line's edit and delete buttons are hidden when the listed invoice
      it belongs to is completed; a line whose invoice is not listed keeps
      them. */
  predicate LineActionsShown(invoices: seq<ListedInvoice>, invoiceId: int) {
    !(FindInvoice(invoices, invoiceId).Some? && FindInvoice(invoices, invoiceId).value.status == CompletedLabel)
  }

  /** The listing's ids are unique (they are the table's key). */
  predicate UniqueIds(invoices: seq<ListedInvoice>) {
    forall i, j :: 0 <= i < j < |invoices| ==> invoices[i].invoiceId != invoices[j].invoiceId
  }

  /** With unique ids, a line's buttons are shown exactly when no listed
      invoice with its id is completed, and then the invoice's own edit
      button is shown too. */
  lemma {:induction false} LineActionsFollowInvoice(invoices: seq<ListedInvoice>, invoiceId: int)
    requires UniqueIds(invoices)
    ensures LineActionsShown(invoices, invoiceId)
            <==> forall i :: 0 <= i < |invoices| && invoices[i].invoiceId == invoiceId ==> InvoiceEditShown(invoices[i])
    decreases |invoices|
  {
    if |invoices| > 0 && invoices[0].invoiceId != invoiceId {
      var rest := invoices[1..];
      assert UniqueIds(rest) by {
        forall i, j | 0 <= i < j < |rest| ensures rest[i].invoiceId != rest[j].invoiceId {
          assert rest[i] == invoices[i + 1] && rest[j] == invoices[j + 1];
        }
      }
      LineActionsFollowInvoice(rest, invoiceId);
      assert forall i :: 0 < i < |invoices| ==> invoices[i] == rest[i - 1];
    }
  }
}
