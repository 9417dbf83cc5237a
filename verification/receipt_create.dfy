/** The sales screen of `components/shared/receipt-create.tsx`: the draft
    it asks for, the line it adds to the draft with the price snapshot taken
    from the stock list, and when it offers to sell. */
module ReceiptCreate {
  import opened Base
  import Js
  import opened Store
  import opened Http
  import DraftRoute
  import PfrRoute

  /** The employee id the page sends: the session's, or nothing (dropped
      from the JSON) when no one is signed in. */
  function SessionEmployee(session: Session): (v: Js.Value)
    ensures session.Some? ==> v == session.value.id
  {
    if session.Some? then session.value.id else Js.Undefined
  }

  /** The draft request carries the signed-in employee's own id, so the
      draft the route answers belongs to that employee. */
  lemma PageDraftIsOwn(db: Db, session: Session, env: Env)
    requires Valid(db)
    requires DraftRoute.DraftPost(db, session, SessionEmployee(session), env).0.status == Ok
    ensures var r := DraftRoute.DraftPost(db, session, SessionEmployee(session), env);
            session.Some? && Js.ToNumber(session.value.id).Some?
            && IsDraftOf(r.1, r.0.id.value, Js.ToNumber(session.value.id).value)
  {
  }

  /** A product of the in-stock list, with its price as the listing sends
      it (a decimal text). */
  datatype StockEntry = StockEntry(productId: int, productPrice: Js.Value)

  /** `productsInStock.find(p => p.product_id === id)?.product_price`:
      the first entry's price, `undefined` when there is none or the id is
      NaN. */
  function PriceOf(stock: seq<StockEntry>, id: Option<int>): (v: Js.Value)
    ensures (id.None? || forall i :: 0 <= i < |stock| ==> stock[i].productId != id.value) ==> v == Js.Undefined
    ensures forall k :: (0 <= k < |stock| && id.Some? && stock[k].productId == id.value
                         && forall j :: 0 <= j < k ==> stock[j].productId != id.value)
                        ==> v == stock[k].productPrice
    decreases |stock|
  {
    if id.None? || |stock| == 0 then Js.Undefined
    else if stock[0].productId == id.value then stock[0].productPrice
    else
      var rest := PriceOf(stock[1..], id);
      assert forall i :: 0 < i < |stock| ==> stock[i] == stock[1..][i - 1];
      rest
  }

  /** The form: the selected product id as the select holds it (`""` before
      a choice) and the quantity text. */
  datatype AddForm = AddForm(selectedProductId: string, quantity: string)

  /** `handleAddProduct`: nothing is sent unless both the product and the
      quantity are non-empty; otherwise the page posts to `POST /api/pfr`
      the draft id it holds, the session's employee id, the product and
      quantity as numbers (NaN is written as `null`), and the stock list's
      price for that product. */
  function AddRequest(draftId: Option<int>, session: Session, stock: seq<StockEntry>, f: AddForm)
    : (b: Option<PfrRoute.PfrBody>)
    ensures b.None? <==> f.selectedProductId == "" || f.quantity == ""
    ensures b.Some? ==> b.value == AddBody(draftId, session, stock, f)
  {
    if f.selectedProductId == "" || f.quantity == "" then None else Some(AddBody(draftId, session, stock, f))
  }

  function AddBody(draftId: Option<int>, session: Session, stock: seq<StockEntry>, f: AddForm): (b: PfrRoute.PfrBody)
    ensures b.receiptId == (if draftId.Some? then Js.Num(draftId.value) else Js.Null)
    ensures b.employeeId == SessionEmployee(session)
    ensures b.price == PriceOf(stock, Js.ToNumber(Js.Str(f.selectedProductId)))
    ensures b.productId.Num? || b.productId == Js.Null
    ensures b.productId.Num? ==> Js.ToNumber(Js.Str(f.selectedProductId)) == Some(b.productId.n)
    ensures b.quantity.Num? || b.quantity == Js.Null
    ensures b.quantity.Num? ==> Js.ToNumber(Js.Str(f.quantity)) == Some(b.quantity.n)
  {
    var product := Js.ToNumber(Js.Str(f.selectedProductId));
    var quantity := Js.ToNumber(Js.Str(f.quantity));
    PfrRoute.PfrBody(if draftId.Some? then Js.Num(draftId.value) else Js.Null,
                     SessionEmployee(session),
                     if product.Some? then Js.Num(product.value) else Js.Null,
                     if quantity.Some? then Js.Num(quantity.value) else Js.Null,
                     PriceOf(stock, product))
  }

  /** The page's guard lets a quantity of "0" through; the route then
      refuses the line with 400. */
  lemma ZeroQuantityRefused(db: Db, session: Session, draftId: Option<int>, stock: seq<StockEntry>, f: AddForm, env: Env)
    requires Valid(db) && RouteGate(session).Admit?
    requires f.selectedProductId != "" && f.quantity == "0"
    ensures AddRequest(draftId, session, stock, f).Some?
    ensures PfrRoute.PfrPost(db, session, AddRequest(draftId, session, stock, f).value, env) == (Reply(BadRequest, None), db)
  {
    assert Js.ToNumber(Js.Str("0")) == Some(0) by {
      Js.ShowIntRoundTrip(0);
      assert Js.ShowInt(0) == "0";
    }
  }

  /** The price snapshot: a line the page adds is stored with the price the
      stock list showed for the product, not one looked up later. */
  lemma PriceIsSnapshot(db: Db, session: Session, draftId: int, stock: seq<StockEntry>, f: AddForm, env: Env)
    requires Valid(db)
    requires PfrRoute.PfrPost(db, session, AddBody(Some(draftId), session, stock, f), env).0.status == Ok
    ensures var r := PfrRoute.PfrPost(db, session, AddBody(Some(draftId), session, stock, f), env);
            var added := r.1.receiptLines[|db.receiptLines|];
            added.receiptId == draftId
            && Some(added.price) == Js.ToNumber(PriceOf(stock, Js.ToNumber(Js.Str(f.selectedProductId))))
  {
    var b := AddBody(Some(draftId), session, stock, f);
    var r := PfrRoute.PfrPost(db, session, b, env);
    var line := PfrRoute.LineOf(b);
    assert StoreInteger(b.receiptId) == Some(draftId);
    assert r.1.receiptLines[|db.receiptLines|] == NumberLines(draftId, db.nextReceiptLine, [line])[0];
  }

  /** A product the stock list does not carry is sent without a price,
      and the route refuses the line with 400. */
  lemma UnlistedProductRefused(db: Db, session: Session, draftId: Option<int>, stock: seq<StockEntry>, f: AddForm, env: Env)
    requires Valid(db) && RouteGate(session).Admit?
    requires Js.ToNumber(Js.Str(f.selectedProductId)).None?
             || forall i :: 0 <= i < |stock| ==> stock[i].productId != Js.ToNumber(Js.Str(f.selectedProductId)).value
    ensures PfrRoute.PfrPost(db, session, AddBody(draftId, session, stock, f), env) == (Reply(BadRequest, None), db)
  {
  }

  /** The query the page lists the draft's lines with. */
  function DraftLinesSearch(draftId: int): PfrRoute.PfrSearch {
    PfrRoute.PfrSearch(Js.ShowInt(draftId), "receipt_id", "", "", "", "")
  }

  /** The sell button is shown only while the listed lines are not
      empty. */
  predicate SellOffered(lines: seq<PfrRoute.PfrRow>) {
    |lines| != 0
  }

  /** The draft-lines search wants exactly the lines of the draft. */
  lemma DraftLinesWanted(row: PfrRoute.PfrRow, draftId: int, parse: string -> Option<int>)
    ensures PfrRoute.Usable(DraftLinesSearch(draftId), parse)
    ensures PfrRoute.Wanted(row, DraftLinesSearch(draftId), parse) <==> row.receiptId == draftId
  {
    Js.ShowIntSearchable(draftId);
    ReceiptSearchWanted(row, Js.ShowInt(draftId), draftId, parse);
  }

  /** A receipt-number search for a value that reads as `id`. */
  lemma ReceiptSearchWanted(row: PfrRoute.PfrRow, v: string, id: int, parse: string -> Option<int>)
    requires Trim(v) != "" && Js.StringToNumber(v) == Some(id)
    ensures PfrRoute.Usable(PfrRoute.PfrSearch(v, "receipt_id", "", "", "", ""), parse)
    ensures PfrRoute.Wanted(row, PfrRoute.PfrSearch(v, "receipt_id", "", "", "", ""), parse) <==> row.receiptId == id
  {
    assert PfrRoute.TextSearchOf(PfrRoute.PfrSearch(v, "receipt_id", "", "", "", "")) == PfrRoute.ByReceipt;
  }

  /** A listing whose search wants exactly the lines of one receipt holds
      rows exactly when that receipt has a line. */
  lemma ListingOfOneReceipt(session: Session, s: PfrRoute.PfrSearch, receiptId: int, parse: string -> Option<int>,
                            view: seq<PfrRoute.PfrRow>, env: Env)
    requires RouteGate(session).Admit? && !FailsAt(env, 0) && PfrRoute.Usable(s, parse)
    requires forall row :: PfrRoute.Wanted(row, s, parse) <==> row.receiptId == receiptId
    ensures var r := PfrRoute.PfrGet(session, s, parse, view, env);
            r.Rows? && (|r.rows| != 0 <==> exists i :: 0 <= i < |view| && view[i].receiptId == receiptId)
  {
    var r := PfrRoute.PfrGet(session, s, parse, view, env);
    var wanted := (row: PfrRoute.PfrRow) => PfrRoute.Wanted(row, s, parse);
    var ofReceipt := (row: PfrRoute.PfrRow) => row.receiptId == receiptId;
    FilterCongruent(view, wanted, ofReceipt);
    var kept := Filter(view, ofReceipt);
    assert multiset(r.rows) == multiset(kept);
    if exists i :: 0 <= i < |view| && view[i].receiptId == receiptId {
      var i :| 0 <= i < |view| && view[i].receiptId == receiptId;
      assert view[i] in kept;
      assert view[i] in multiset(r.rows);
    }
    if |r.rows| != 0 {
      assert r.rows[0] in multiset(kept);
      var k :| 0 <= k < |kept| && kept[k] == r.rows[0];
      assert kept[k] in view;
    }
  }

  /** The draft-lines listing holds exactly the lines of the draft, so the
      sell button is shown exactly when the draft has a line. */
  lemma SellOfferedIffDraftHasLines(session: Session, draftId: int, parse: string -> Option<int>,
                                    view: seq<PfrRoute.PfrRow>, env: Env)
    requires RouteGate(session).Admit? && !FailsAt(env, 0)
    ensures var r := PfrRoute.PfrGet(session, DraftLinesSearch(draftId), parse, view, env);
            r.Rows? && (SellOffered(r.rows) <==> exists i :: 0 <= i < |view| && view[i].receiptId == draftId)
  {
    var s := DraftLinesSearch(draftId);
    forall row ensures PfrRoute.Wanted(row, s, parse) <==> row.receiptId == draftId {
      DraftLinesWanted(row, draftId, parse);
    }
    DraftLinesWanted(PfrRoute.PfrRow(0, 0, "", 0, Draft, 0), draftId, parse);
    ListingOfOneReceipt(session, s, draftId, parse, view, env);
  }
}
