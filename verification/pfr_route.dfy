/** `app/api/pfr/route.ts`: the receipt-line listing (GET) and adding a
    line to a receipt (POST). */
module PfrRoute {
  import opened Base
  import Js
  import opened Store
  import opened Http
  import opened Sql
  import opened Sorting

  // ---- GET: the line listing ------------------------------------------

  /** A row of the listing's join of lines, receipts, employees and
      products, as far as the listing filters and orders by it. */
  datatype PfrRow = PfrRow(lineId: int, receiptId: int, productName: string, employeeId: int,
                           receiptType: ReceiptType, createdAt: int)

  function LineIdOf(row: PfrRow): int {
    row.lineId
  }

  datatype PfrTest = ReceiptIs | ProductNameLike | EmployeeIs | TypeIs | CreatedFrom | CreatedUntil

  /** The query string; an absent parameter reads as "". */
  datatype PfrSearch = PfrSearch(searchValue: string, searchType: string, employeeId: string,
                                 receiptType: string, dateFrom: string, dateTo: string)

  /** The free-text search the query string selects. */
  datatype TextSearch = ByReceipt | ByProductName | NoTextSearch

  /** A blank search value searches nothing; otherwise the search type
      picks the receipt number or the product name, and any other type
      searches nothing. */
  function TextSearchOf(s: PfrSearch): (t: TextSearch)
    ensures t == ByReceipt <==> Trim(s.searchValue) != "" && s.searchType == "receipt_id"
    ensures t == ByProductName <==> Trim(s.searchValue) != "" && s.searchType == "product_name"
  {
    if Trim(s.searchValue) == "" then NoTextSearch
    else if s.searchType == "receipt_id" then ByReceipt
    else if s.searchType == "product_name" then ByProductName
    else NoTextSearch
  }

  /** The k-th condition the handler may push, in its order, with whether
      it does. `parse` is `new Date(text)`. */
  function Condition(s: PfrSearch, parse: string -> Option<int>, k: nat): Optional<PfrTest>
    requires k < 6
  {
    match k
    case 0 => Optional(TextSearchOf(s) == ByReceipt, ReceiptIs, IntParam(Js.StringToNumber(s.searchValue)))
    case 1 => Optional(TextSearchOf(s) == ByProductName, ProductNameLike, TextParam("%" + s.searchValue + "%"))
    case 2 => Optional(s.employeeId != "", EmployeeIs, IntParam(Js.StringToNumber(s.employeeId)))
    case 3 => Optional(s.receiptType != "", TypeIs, TextParam(s.receiptType))
    case 4 => Optional(s.dateFrom != "", CreatedFrom, TimeParam(parse(s.dateFrom)))
    case 5 => Optional(s.dateTo != "", CreatedUntil, TimeParam(parse(s.dateTo)))
  }

  function PfrConditions(s: PfrSearch, parse: string -> Option<int>): (opts: seq<Optional<PfrTest>>)
    ensures |opts| == 6
    ensures forall k :: 0 <= k < 6 ==> opts[k] == Condition(s, parse, k)
  {
    seq(6, k requires 0 <= k < 6 => Condition(s, parse, k))
  }

  /** The WHERE clause: each filter that is set adds its condition. */
  function PfrFilter(s: PfrSearch, parse: string -> Option<int>): (q: Query<PfrTest>)
    ensures Aligned(q)
  {
    Build(PfrConditions(s, parse))
  }

  /** No filter set means no WHERE clause. */
  lemma PfrFilterEmpty(s: PfrSearch, parse: string -> Option<int>)
    ensures |PfrFilter(s, parse).conds| == 0
            <==> TextSearchOf(s) == NoTextSearch
                 && s.employeeId == "" && s.receiptType == "" && s.dateFrom == "" && s.dateTo == ""
  {
    var opts := PfrConditions(s, parse);
    if forall k :: 0 <= k < |opts| ==> !opts[k].on {
      assert !Condition(s, parse, 0).on && !Condition(s, parse, 1).on && !Condition(s, parse, 2).on;
      assert !Condition(s, parse, 3).on && !Condition(s, parse, 4).on && !Condition(s, parse, 5).on;
    } else {
      var k :| 0 <= k < |opts| && opts[k].on;
      assert Condition(s, parse, k).on;
    }
  }

  /** The column tests; the receipt type is compared as text, so an
      unknown type matches no row. */
  predicate Holds(row: PfrRow, test: PfrTest, p: Param) {
    match test
    case ReceiptIs => p == IntParam(Some(row.receiptId))
    case ProductNameLike => p.TextParam? && ILike(row.productName, p.s)
    case EmployeeIs => p == IntParam(Some(row.employeeId))
    case TypeIs => p.TextParam? && ReceiptTypeLabel(row.receiptType) == p.s
    case CreatedFrom => p.TimeParam? && p.t.Some? && row.createdAt >= p.t.value
    case CreatedUntil => p.TimeParam? && p.t.Some? && row.createdAt <= p.t.value
  }

  /** The listing's filters stated on the row: each filter that is set
      constrains the row independently of the others. */
  predicate Wanted(row: PfrRow, s: PfrSearch, parse: string -> Option<int>) {
    && (TextSearchOf(s) == ByReceipt ==> Js.StringToNumber(s.searchValue) == Some(row.receiptId))
    && (TextSearchOf(s) == ByProductName ==> ILike(row.productName, "%" + s.searchValue + "%"))
    && (s.employeeId != "" ==> Js.StringToNumber(s.employeeId) == Some(row.employeeId))
    && (s.receiptType != "" ==> ReceiptTypeLabel(row.receiptType) == s.receiptType)
    && (s.dateFrom != "" ==> parse(s.dateFrom).Some? && row.createdAt >= parse(s.dateFrom).value)
    && (s.dateTo != "" ==> parse(s.dateTo).Some? && row.createdAt <= parse(s.dateTo).value)
  }

  /** Every number given is a number and every date a valid date. */
  predicate Usable(s: PfrSearch, parse: string -> Option<int>) {
    && (TextSearchOf(s) == ByReceipt ==> Js.StringToNumber(s.searchValue).Some?)
    && (s.employeeId != "" ==> Js.StringToNumber(s.employeeId).Some?)
    && (s.dateFrom != "" ==> parse(s.dateFrom).Some?)
    && (s.dateTo != "" ==> parse(s.dateTo).Some?)
  }

  /** Each switched-on condition of a usable search binds a well-formed
      parameter. */
  lemma ConditionWellFormed(s: PfrSearch, parse: string -> Option<int>, k: nat)
    requires k < 6 && Usable(s, parse) && Condition(s, parse, k).on
    ensures WellFormed(Condition(s, parse, k).param)
  {
    if k == 0 {
    } else if k == 1 {
    } else if k == 2 {
    } else if k == 3 {
    } else if k == 4 {
    } else {
      assert k == 5;
    }
  }

  /** The switched-on conditions bind only well-formed parameters exactly
      when the search is usable. */
  lemma ConditionsUsable(s: PfrSearch, parse: string -> Option<int>)
    ensures var opts := PfrConditions(s, parse);
            (forall k :: 0 <= k < |opts| && opts[k].on ==> WellFormed(opts[k].param)) <==> Usable(s, parse)
  {
    var opts := PfrConditions(s, parse);
    if Usable(s, parse) {
      forall k | 0 <= k < |opts| && opts[k].on ensures WellFormed(opts[k].param) {
        ConditionWellFormed(s, parse, k);
      }
    } else if TextSearchOf(s) == ByReceipt && Js.StringToNumber(s.searchValue).None? {
      assert opts[0] == Condition(s, parse, 0);
    } else if s.employeeId != "" && Js.StringToNumber(s.employeeId).None? {
      assert opts[2] == Condition(s, parse, 2);
    } else if s.dateFrom != "" && parse(s.dateFrom).None? {
      assert opts[4] == Condition(s, parse, 4);
    } else {
      assert opts[5] == Condition(s, parse, 5);
    }
  }

  lemma PfrFilterUsable(s: PfrSearch, parse: string -> Option<int>)
    ensures AllWellFormed(PfrFilter(s, parse)) <==> Usable(s, parse)
  {
    BuildWellFormed(PfrConditions(s, parse));
    ConditionsUsable(s, parse);
  }

  /** The k-th of the listing's filters, stated on the row. */
  predicate Meets(row: PfrRow, s: PfrSearch, parse: string -> Option<int>, k: nat)
    requires k < 6
  {
    match k
    case 0 => TextSearchOf(s) == ByReceipt ==> Js.StringToNumber(s.searchValue) == Some(row.receiptId)
    case 1 => TextSearchOf(s) == ByProductName ==> ILike(row.productName, "%" + s.searchValue + "%")
    case 2 => s.employeeId != "" ==> Js.StringToNumber(s.employeeId) == Some(row.employeeId)
    case 3 => s.receiptType != "" ==> ReceiptTypeLabel(row.receiptType) == s.receiptType
    case 4 => s.dateFrom != "" ==> parse(s.dateFrom).Some? && row.createdAt >= parse(s.dateFrom).value
    case 5 => s.dateTo != "" ==> parse(s.dateTo).Some? && row.createdAt <= parse(s.dateTo).value
  }

  lemma WantedMeetsAll(row: PfrRow, s: PfrSearch, parse: string -> Option<int>)
    ensures Wanted(row, s, parse) <==> forall k: nat :: k < 6 ==> Meets(row, s, parse, k)
  {
    if !Wanted(row, s, parse) {
      if !Meets(row, s, parse, 0) {
      } else if !Meets(row, s, parse, 1) {
      } else if !Meets(row, s, parse, 2) {
      } else if !Meets(row, s, parse, 3) {
      } else if !Meets(row, s, parse, 4) {
      } else {
        assert !Meets(row, s, parse, 5);
      }
    }
  }

  /** The k-th condition, when it is switched on, holds exactly when the
      k-th filter is met; when it is off, the filter is met anyway. */
  lemma ConditionMeaning(row: PfrRow, s: PfrSearch, parse: string -> Option<int>, k: nat)
    requires k < 6
    ensures (Condition(s, parse, k).on ==> Holds(row, Condition(s, parse, k).column, Condition(s, parse, k).param))
            <==> Meets(row, s, parse, k)
  {
  }

  /** A row passes every switched-on condition exactly when it is wanted. */
  lemma ConditionsWanted(row: PfrRow, s: PfrSearch, parse: string -> Option<int>)
    ensures var opts := PfrConditions(s, parse);
            (forall k :: 0 <= k < |opts| && opts[k].on ==> Holds(row, opts[k].column, opts[k].param))
            <==> Wanted(row, s, parse)
  {
    var opts := PfrConditions(s, parse);
    forall k: nat | k < 6
      ensures (opts[k].on ==> Holds(row, opts[k].column, opts[k].param)) <==> Meets(row, s, parse, k)
    {
      ConditionMeaning(row, s, parse, k);
    }
    WantedMeetsAll(row, s, parse);
  }

  /** A row passes the built WHERE clause exactly when it is wanted: each
      pushed condition reads its own parameter. */
  lemma PfrFilterMeaning(row: PfrRow, s: PfrSearch, parse: string -> Option<int>)
    ensures Satisfies(row, PfrFilter(s, parse), Holds) <==> Wanted(row, s, parse)
  {
    BuildSatisfies(row, PfrConditions(s, parse), Holds);
    ConditionsWanted(row, s, parse);
  }

  /** `GET /api/pfr`. The gate runs first; the query is statement 0, and a
      parameter the store cannot bind fails it. The rows are the wanted
      rows of the join, highest line id first. */
  function PfrGet(session: Session, s: PfrSearch, parse: string -> Option<int>, view: seq<PfrRow>, env: Env)
    : (r: Listing<PfrRow>)
    ensures RouteGate(session).Deny? ==> r == Refused(RouteGate(session).status)
    ensures RouteGate(session).Admit? && FailsAt(env, 0) ==> r == Refused(ErrorStatus(env.fault.error))
    ensures RouteGate(session).Admit? && !FailsAt(env, 0) ==> (r.Rows? <==> Usable(s, parse))
    ensures r.Refused? ==> r.status in {Unauthorized, Forbidden, InternalError}
    ensures r.Rows? ==> RouteGate(session) == Admit(r.handle, session.value)
    ensures r.Rows? ==> SortedDesc(r.rows, LineIdOf)
    ensures r.Rows? ==> multiset(r.rows) == multiset(Filter(view, (row: PfrRow) => Wanted(row, s, parse)))
  {
    match RouteGate(session)
    case Deny(st) => Refused(st)
    case Admit(h, _) =>
      var q := PfrFilter(s, parse);
      PfrFilterUsable(s, parse);
      if FailsAt(env, 0) then Refused(ErrorStatus(env.fault.error))
      else if !AllWellFormed(q) then Refused(ErrorStatus(InvalidTextRepresentation))
      else
        assert forall i :: 0 <= i < |view| ==> Satisfies(view[i], q, Holds) == Wanted(view[i], s, parse) by {
          forall i | 0 <= i < |view| {
            PfrFilterMeaning(view[i], s, parse);
          }
        }
        FilterCongruent(view, (row: PfrRow) => Satisfies(row, q, Holds), (row: PfrRow) => Wanted(row, s, parse));
        Rows(h, SortDesc(Filter(view, (row: PfrRow) => Satisfies(row, q, Holds)), LineIdOf))
  }

  // ---- POST: adding a line --------------------------------------------

  /** The body of `POST /api/pfr`. */
  datatype PfrBody = PfrBody(receiptId: Js.Value, employeeId: Js.Value, productId: Js.Value,
                             quantity: Js.Value, price: Js.Value)

  /** All five fields are truthy; a quantity or price of 0 is not. */
  predicate AllGiven(b: PfrBody) {
    Js.Truthy(b.receiptId) && Js.Truthy(b.employeeId) && Js.Truthy(b.productId)
    && Js.Truthy(b.quantity) && Js.Truthy(b.price)
  }

  /** The store can bind all five parameters: the ids and quantity as sent,
      the employee and price through `Number`. */
  predicate Bindable(b: PfrBody) {
    StoreInteger(b.receiptId).Some? && Js.ToNumber(b.employeeId).Some? && StoreInteger(b.productId).Some?
    && StoreInteger(b.quantity).Some? && Js.ToNumber(b.price).Some?
  }

  /** The line the insert writes: the price is `Number(price)` exactly as
      the caller sent it. */
  function LineOf(b: PfrBody): (v: LineValues)
    requires Bindable(b)
    ensures v.price == Js.ToNumber(b.price).value && v.employeeId == Js.ToNumber(b.employeeId).value
  {
    LineValues(StoreInteger(b.productId).value, StoreInteger(b.quantity).value,
               Js.ToNumber(b.price).value, Js.ToNumber(b.employeeId).value)
  }

  /** `POST /api/pfr`. The gate runs first; any falsy field is 400 with no
      store access. The insert is statement 0; it needs the receipt to
      exist. Every store error, the stock trigger's included, is 403 for a
      privilege rejection and 500 otherwise. */
  function PfrPost(db: Db, session: Session, body: PfrBody, env: Env): (r: (Reply, Db))
    requires Valid(db)
    ensures Valid(r.1)
    ensures r.0.id == None
    ensures r.1.receipts == db.receipts && r.1.invoices == db.invoices && r.1.invoiceLines == db.invoiceLines
    ensures RouteGate(session).Deny? ==> r == (Reply(RouteGate(session).status, None), db)
    ensures RouteGate(session).Admit? && !AllGiven(body) ==> r == (Reply(BadRequest, None), db)
    ensures r.0.status in {Ok, BadRequest, Unauthorized, Forbidden, InternalError}
    ensures r.0.status != Ok ==> r.1 == db
    ensures r.0.status == Ok ==>
              Bindable(body) && ReceiptExists(db, StoreInteger(body.receiptId).value)
              && r.1.receiptLines == db.receiptLines + NumberLines(StoreInteger(body.receiptId).value,
                                                                   db.nextReceiptLine, [LineOf(body)])
    ensures r.0.status == Ok ==>
              |r.1.receiptLines| == |db.receiptLines| + 1
              && var added := r.1.receiptLines[|db.receiptLines|];
              && Some(added.receiptId) == StoreInteger(body.receiptId)
              && Some(added.productId) == StoreInteger(body.productId)
              && Some(added.quantity) == StoreInteger(body.quantity)
              && Some(added.price) == Js.ToNumber(body.price)
              && Some(added.employeeId) == Js.ToNumber(body.employeeId)
    ensures RouteGate(session).Admit? && AllGiven(body) && !FailsAt(env, 0) ==>
              (r.0.status == Ok <==> Bindable(body) && ReceiptExists(db, StoreInteger(body.receiptId).value))
    ensures RouteGate(session).Admit? && AllGiven(body) && FailsAt(env, 0) ==>
              r == (Reply(ErrorStatus(env.fault.error), None), db)
  {
    match RouteGate(session)
    case Deny(st) => (Reply(st, None), db)
    case Admit(_, _) =>
      if !AllGiven(body) then (Reply(BadRequest, None), db)
      else if FailsAt(env, 0) then (Reply(ErrorStatus(env.fault.error), None), db)
      else if !Bindable(body) then (Reply(ErrorStatus(InvalidTextRepresentation), None), db)
      else match InsertReceiptLines(db, StoreInteger(body.receiptId).value, [LineOf(body)])
        case Raised(e) => (Reply(ErrorStatus(e), None), db)
        case Done(db') => (Reply(Ok, None), db')
  }

  /** The stock trigger's "insufficient quantity" error reaches this route
      as a 500, while the invoice-line route answers the same error with
      400. */
  lemma StockErrorIs500Here(db: Db, session: Session, body: PfrBody, e: StoreError)
    requires Valid(db)
    requires RouteGate(session).Admit? && AllGiven(body)
    requires e.KnownRequestError? && Contains(ToLower(e.message), InsufficientStock) && !IsPrivilegeViolation(e)
    ensures PfrPost(db, session, body, Env(0, FailAt(0, e))).0.status == InternalError
    ensures LineInsertErrorStatus(e) == BadRequest
  {
  }
}
