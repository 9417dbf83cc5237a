/** The invoice-line screen of `components/shared/products-for-invoice.tsx`:
    the query it lists lines with, which lines offer to be added to another
    invoice, the invoices the add form offers as targets, the form's
    quantity bounds and the body it posts to `POST /api/pfi`. */
module ProductsForInvoice {
  import opened Base
  import Js
  import opened Store
  import opened Http
  import InvoicePage
  import PfiRoute

  type ListedInvoice = InvoicePage.ListedInvoice

  // ---- the listing's query ----------------------------------------------

  /** The page's filters: the search box, the search column and the type
      select (`""` is "all types"). */
  datatype Filters = Filters(searchValue: string, searchType: string, invoiceType: string)

  /** The filters the page opens with. */
  const Initial := Filters("", "invoice_id", "RECEIVING")

  /** `fetchProductForinvoice`'s query string as the route reads it: the
      search and its column are sent together, and only when the search is
      not blank; the type is sent when one is selected. */
  function LineQuery(f: Filters): (s: PfiRoute.PfiSearch)
    ensures PfiRoute.SearchOf(s).Some?
            <==> Trim(f.searchValue) != "" && f.searchValue != ""
                 && f.searchType in {"invoice_id", "product_name", "date_of_manufacture", "use_by_date"}
    ensures PfiRoute.TypeFilter(s) == if f.invoiceType == "" then None else PfiRoute.InvoiceTypeKey(f.invoiceType)
  {
    var searched := Trim(f.searchValue) != "";
    PfiRoute.PfiSearch(if searched then f.searchValue else "",
                       if f.invoiceType != "" then Some(f.invoiceType) else None,
                       if searched then Some(f.searchType) else None)
  }

  /** A blank search box searches nothing, whatever column is chosen. */
  lemma BlankSearchSearchesNothing(f: Filters)
    requires Trim(f.searchValue) == ""
    ensures PfiRoute.SearchOf(LineQuery(f)).None?
  {
  }

  /** The page opens on the receiving invoices' lines, with no search. */
  lemma InitialListsReceiving()
    ensures PfiRoute.TypeFilter(LineQuery(Initial)) == Some(Receiving)
    ensures PfiRoute.SearchOf(LineQuery(Initial)).None?
  {
    assert Trim(Initial.searchValue) == "";
  }

  // ---- which lines offer "add" ------------------------------------------

  /** How the invoice listing shows a stored invoice. */
  function ShownAs(inv: Invoice): ListedInvoice {
    InvoicePage.ListedInvoice(inv.id, InvoiceStatusLabel(inv.status), InvoiceTypeLabel(inv.kind))
  }

  /** The "add" button of a line: its invoice, looked up in the invoice
      listing, is completed and is not a return. */
  predicate AddOffered(invoices: seq<ListedInvoice>, invoiceId: int) {
    var inv := InvoicePage.FindInvoice(invoices, invoiceId);
    inv.Some? && inv.value.status == InvoicePage.CompletedLabel && inv.value.invoiceType != InvoiceTypeLabel(Returning)
  }

  /** For a line whose invoice the listing shows, "add" is offered exactly
      when that invoice is completed and is a receipt of goods or a
      write-off; a line whose invoice is not listed never offers it. */
  lemma AddOfferedByInvoice(invoices: seq<ListedInvoice>, inv: Invoice)
    requires InvoicePage.FindInvoice(invoices, inv.id) == Some(ShownAs(inv))
    ensures AddOffered(invoices, inv.id) <==> inv.status == Completed && inv.kind != Returning
  {
  }

  lemma UnlistedNotOffered(invoices: seq<ListedInvoice>, invoiceId: int)
    requires forall i :: 0 <= i < |invoices| ==> invoices[i].invoiceId != invoiceId
    ensures !AddOffered(invoices, invoiceId)
  {
  }

  // ---- the add form -----------------------------------------------------

  /** The target select's options: the listed invoices that are not
      completed, in listing order. */
  function TargetOptions(invoices: seq<ListedInvoice>): (ids: seq<int>)
    ensures forall id :: id in ids
                         <==> exists i :: 0 <= i < |invoices| && invoices[i].invoiceId == id
                                          && invoices[i].status != InvoicePage.CompletedLabel
  {
    InvoicePage.OptionIds(invoices, (inv: ListedInvoice) => inv.status != InvoicePage.CompletedLabel)
  }

  /** With unique invoice ids, a line that offers "add" can never be added
      to its own invoice: that invoice is completed and is not a target. */
  lemma OwnInvoiceNeverTarget(invoices: seq<ListedInvoice>, invoiceId: int)
    requires InvoicePage.UniqueIds(invoices) && AddOffered(invoices, invoiceId)
    ensures invoiceId !in TargetOptions(invoices)
  {
    var found := InvoicePage.FindInvoice(invoices, invoiceId).value;
    var k :| 0 <= k < |invoices| && invoices[k] == found;
    forall i | 0 <= i < |invoices| && invoices[i].invoiceId == invoiceId ensures i == k {
    }
  }

  /** The form's two inputs as the text they hold: the target select
      (`""` until an invoice is chosen, then its id) and the number input
      (`""` or a number). */
  datatype AddForm = AddForm(invoiceId: string, quantity: string)

  /** The form's rules: a target is required, and the quantity is required
      and lies between 1 and the line's own quantity. */
  predicate FormAccepted(f: AddForm, lineQuantity: int) {
    && f.invoiceId != "" && f.quantity != ""
    && Js.StringToNumber(f.quantity).Some?
    && 1 <= Js.StringToNumber(f.quantity).value <= lineQuantity
  }

  /** A line holding no units can never be added. */
  lemma EmptyLineNeverAccepted(f: AddForm, lineQuantity: int)
    requires lineQuantity < 1
    ensures !FormAccepted(f, lineQuantity)
  {
  }

  /** A line of the listing as the form reads it. */
  datatype ListedLine = ListedLine(productId: int, invoiceId: int, quantity: int, productPrice: Js.Value)

  /** `onSubmit`: nothing is sent unless the form passes its rules and a
      line is selected; the body is the line's product, the form's values
      as text and `needMinus: false`, with no `product_price`. */
  function Submit(selected: Option<ListedLine>, f: AddForm): (b: Option<PfiRoute.PfiBody>)
    ensures b.Some? <==> selected.Some? && FormAccepted(f, selected.value.quantity)
    ensures b.Some? ==> b.value.productId == Js.Num(selected.value.productId)
                        && b.value.invoiceId == Js.Str(f.invoiceId) && b.value.quantity == Js.Str(f.quantity)
                        && b.value.needMinus == Js.Bool(false)
    ensures b.Some? ==> Js.IsNaN(b.value.productPrice)
  {
    if selected.None? || !FormAccepted(f, selected.value.quantity) then None
    else Some(PfiRoute.PfiBody(Js.Num(selected.value.productId), Js.Str(f.invoiceId), Js.Str(f.quantity),
                               Js.Undefined, Js.Bool(false)))
  }

  /** Every body the form sends is refused with 400, and nothing is
      stored. */
  lemma SubmitRefused(db: Db, session: Session, selected: Option<ListedLine>, f: AddForm, env: Env)
    requires Valid(db) && RouteGate(session).Admit?
    requires Submit(selected, f).Some?
    ensures PfiRoute.PfiPost(db, session, Submit(selected, f).value, env) == (Reply(BadRequest, None), db)
  {
    PfiRoute.MissingPriceIs400(db, session, Submit(selected, f).value, env);
  }

  /** The form as it is evidently meant to be: the same body with the
      selected line's price. */
  function CorrectedSubmit(selected: Option<ListedLine>, f: AddForm): (b: Option<PfiRoute.PfiBody>)
    ensures b.Some? <==> Submit(selected, f).Some?
    ensures b.Some? ==> b.value.productId == Js.Num(selected.value.productId)
                        && b.value.invoiceId == Js.Str(f.invoiceId) && b.value.quantity == Js.Str(f.quantity)
                        && b.value.productPrice == selected.value.productPrice
                        && b.value.needMinus == Js.Bool(false)
  {
    if selected.None? || !FormAccepted(f, selected.value.quantity) then None
    else Some(PfiRoute.PfiBody(Js.Num(selected.value.productId), Js.Str(f.invoiceId), Js.Str(f.quantity),
                               selected.value.productPrice, Js.Bool(false)))
  }

  /** With the price included, an accepted form whose target exists adds
      exactly the line it describes: the selected product, the chosen
      invoice, the chosen quantity (within the line's) and the line's
      price. */
  lemma CorrectedSubmitAdds(db: Db, session: Session, selected: Option<ListedLine>, f: AddForm, target: int, env: Env)
    requires Valid(db) && RouteGate(session).Admit? && !FailsAt(env, 0)
    requires CorrectedSubmit(selected, f).Some?
    requires Js.StringToNumber(f.invoiceId) == Some(target) && InvoiceExists(db, target)
    requires Js.ToNumber(selected.value.productPrice).Some?
    ensures var r := PfiRoute.PfiPost(db, session, CorrectedSubmit(selected, f).value, env);
            var q := Js.StringToNumber(f.quantity).value;
            r.0.status == Created && 1 <= q <= selected.value.quantity
            && r.1.invoiceLines == db.invoiceLines
                                   + [InvoiceLine(db.nextInvoiceLine, target, selected.value.productId,
                                                  q, Js.ToNumber(selected.value.productPrice).value, None, None)]
  {
  }
}
