/** The reorder screen of `components/shared/products-for-order.tsx`: the
    form that puts a product that runs low on an open receiving invoice,
    posting to `POST /api/pfi` with `needMinus: true`. */
module ProductsForOrder {
  import opened Base
  import Js
  import opened Store
  import opened Http
  import InvoicePage
  import ProductsForInvoice
  import PfiRoute

  type ListedInvoice = InvoicePage.ListedInvoice

  /** An invoice the form may target: in progress and receiving goods. */
  predicate OpenReceiving(inv: ListedInvoice) {
    inv.status == InvoiceStatusLabel(InProgress) && inv.invoiceType == InvoiceTypeLabel(Receiving)
  }

  /** The target select's options, in listing order. */
  function TargetOptions(invoices: seq<ListedInvoice>): (ids: seq<int>)
    ensures forall id :: id in ids
                         <==> exists i :: 0 <= i < |invoices| && invoices[i].invoiceId == id && OpenReceiving(invoices[i])
  {
    InvoicePage.OptionIds(invoices, OpenReceiving)
  }

  /** For a stored invoice the listing shows under a unique id, the form
      offers it exactly when it is in progress and receives goods. */
  lemma TargetIffOpenReceiving(invoices: seq<ListedInvoice>, inv: Invoice)
    requires InvoicePage.UniqueIds(invoices) && ProductsForInvoice.ShownAs(inv) in invoices
    ensures inv.id in TargetOptions(invoices) <==> inv.status == InProgress && inv.kind == Receiving
  {
    var k :| 0 <= k < |invoices| && invoices[k] == ProductsForInvoice.ShownAs(inv);
    if inv.id in TargetOptions(invoices) {
      var i :| 0 <= i < |invoices| && invoices[i].invoiceId == inv.id && OpenReceiving(invoices[i]);
      assert i == k;
    }
  }

  /** A reorder item as the form reads it. */
  datatype ReorderItem = ReorderItem(productId: int)

  /** The form's inputs as the text they hold: the target select (`""`
      until an invoice is chosen, then its id) and two number inputs (`""`
      or a number). */
  datatype OrderForm = OrderForm(invoiceId: string, quantity: string, price: string)

  /** The form's rules: a target, a quantity of at least 1 and a price of
      at least 0, all required. */
  predicate FormAccepted(f: OrderForm) {
    && f.invoiceId != "" && f.quantity != "" && f.price != ""
    && Js.StringToNumber(f.quantity).Some? && Js.StringToNumber(f.quantity).value >= 1
    && Js.StringToNumber(f.price).Some? && Js.StringToNumber(f.price).value >= 0
  }

  /** `onSubmit`: nothing is sent unless the form passes its rules and an
      item is selected; the body is the item's product, the form's values
      as text and `needMinus: true`. */
  function Submit(selected: Option<ReorderItem>, f: OrderForm): (b: Option<PfiRoute.PfiBody>)
    ensures b.Some? <==> selected.Some? && FormAccepted(f)
    ensures b.Some? ==> b.value.productId == Js.Num(selected.value.productId)
                        && b.value.invoiceId == Js.Str(f.invoiceId) && b.value.quantity == Js.Str(f.quantity)
                        && b.value.productPrice == Js.Str(f.price) && b.value.needMinus == Js.Bool(true)
  {
    if selected.None? || !FormAccepted(f) then None
    else Some(PfiRoute.PfiBody(Js.Num(selected.value.productId), Js.Str(f.invoiceId), Js.Str(f.quantity),
                               Js.Str(f.price), Js.Bool(true)))
  }

  /** Without a selected item the form sends nothing. */
  lemma NoItemNoRequest(f: OrderForm)
    ensures Submit(None, f).None?
  {
  }

  /** An accepted form whose target exists adds exactly the line it
      describes, with a quantity of at least 1 and a price of at least 0. */
  lemma SubmitAdds(db: Db, session: Session, selected: Option<ReorderItem>, f: OrderForm, target: int, env: Env)
    requires Valid(db) && RouteGate(session).Admit? && !FailsAt(env, 0)
    requires Submit(selected, f).Some?
    requires Js.StringToNumber(f.invoiceId) == Some(target) && InvoiceExists(db, target)
    ensures var r := PfiRoute.PfiPost(db, session, Submit(selected, f).value, env);
            var q := Js.StringToNumber(f.quantity).value;
            var p := Js.StringToNumber(f.price).value;
            r.0.status == Created && q >= 1 && p >= 0
            && r.1.invoiceLines == db.invoiceLines
                                   + [InvoiceLine(db.nextInvoiceLine, target, selected.value.productId, q, p, None, None)]
  {
  }

  /** The reorder flag does nothing: the request does exactly what the same
      body without it would do, and the store changes only by the added
      line. */
  lemma ReorderFlagHasNoEffect(db: Db, session: Session, selected: Option<ReorderItem>, f: OrderForm, env: Env)
    requires Valid(db) && Submit(selected, f).Some?
    ensures var b := Submit(selected, f).value;
            var r := PfiRoute.PfiPost(db, session, b, env);
            r == PfiRoute.PfiPost(db, session, b.(needMinus := Js.Undefined), env)
            && r.1.receipts == db.receipts && r.1.receiptLines == db.receiptLines && r.1.invoices == db.invoices
  {
    var b := Submit(selected, f).value;
    PfiRoute.NeedMinusIgnored(db, session, b, env, Js.Undefined);
  }
}
