/** `app/api/pfi/route.ts`: the invoice-line listing (GET) and adding a
    line to an invoice (POST). */
module PfiRoute {
  import opened Base
  import Js
  import opened Store
  import opened Http
  import opened Sql
  import opened Sorting

  // ---- GET: the line listing ------------------------------------------

  /** A row of the listing's join of invoice lines, products and invoices. */
  datatype PfiRow = PfiRow(lineId: int, invoiceId: int, productName: string, invoiceType: InvoiceType,
                           manufacturedAt: Option<int>, useBy: Option<int>)

  datatype PfiTest = TypeIs | InvoiceIs | ProductNameLike | ManufacturedOn | UseByOn

  /** The query string: `searchValue` reads as "" when absent, the other two
      as `None`. */
  datatype PfiSearch = PfiSearch(searchValue: string, invoiceType: Option<string>, searchType: Option<string>)

  /** The three keys the invoice-type map knows, and the stored label each
      stands for; every other key is not in the map. */
  function InvoiceTypeKey(key: string): (t: Option<InvoiceType>)
    ensures t == Some(Receiving) <==> key == "RECEIVING"
    ensures t == Some(Returning) <==> key == "RETURNING"
    ensures t == Some(WriteOff) <==> key == "WRITEOFF"
  {
    if key == "RECEIVING" then Some(Receiving)
    else if key == "RETURNING" then Some(Returning)
    else if key == "WRITEOFF" then Some(WriteOff)
    else None
  }

  /** The type filter: present and one of the map's keys. */
  function TypeFilter(s: PfiSearch): Option<InvoiceType> {
    if s.invoiceType.Some? then InvoiceTypeKey(s.invoiceType.value) else None
  }

  /** The search the `switch` selects; an empty value selects none, and so
      does a type outside the four cases. */
  function SearchOf(s: PfiSearch): (t: Option<PfiTest>)
    ensures t.Some? <==> s.searchValue != "" && s.searchType.Some?
                         && s.searchType.value in {"invoice_id", "product_name", "date_of_manufacture", "use_by_date"}
    ensures t != Some(TypeIs)
  {
    if s.searchValue == "" || s.searchType.None? then None
    else match s.searchType.value
      case "invoice_id" => Some(InvoiceIs)
      case "product_name" => Some(ProductNameLike)
      case "date_of_manufacture" => Some(ManufacturedOn)
      case "use_by_date" => Some(UseByOn)
      case _ => None
  }

  /** The parameter each search binds: `Number(value)`, `%value%`, or the
      value as a date, read by `readDate`. */
  function SearchParam(test: PfiTest, v: string, readDate: string -> Option<int>): Param {
    match test
    case InvoiceIs => IntParam(Js.StringToNumber(v))
    case ProductNameLike => TextParam("%" + v + "%")
    case _ => TimeParam(readDate(v))
  }

  /** The type condition, on when the key is in the map. */
  function TypeCondition(s: PfiSearch): Optional<PfiTest> {
    var t := TypeFilter(s);
    Optional(t.Some?, TypeIs, TextParam(if t.Some? then InvoiceTypeLabel(t.value) else ""))
  }

  /** The search condition, on when the `switch` selects one. */
  function SearchCondition(s: PfiSearch, readDate: string -> Option<int>): Optional<PfiTest> {
    var t := SearchOf(s);
    if t.Some? then Optional(true, t.value, SearchParam(t.value, s.searchValue, readDate))
    else Optional(false, InvoiceIs, TextParam(""))
  }

  /** The WHERE clause after `1 = 1`: the type condition, then the search
      condition, each reading the next placeholder. */
  function PfiFilter(s: PfiSearch, readDate: string -> Option<int>): (q: Query<PfiTest>)
    ensures Aligned(q)
    ensures |q.conds| == 0 <==> TypeFilter(s).None? && SearchOf(s).None?
  {
    var opts := [TypeCondition(s), SearchCondition(s, readDate)];
    var q := Build(opts);
    assert |q.conds| == 0 <==> !opts[0].on && !opts[1].on;
    q
  }

  predicate Holds(row: PfiRow, test: PfiTest, p: Param) {
    match test
    case TypeIs => p.TextParam? && InvoiceTypeLabel(row.invoiceType) == p.s
    case InvoiceIs => p == IntParam(Some(row.invoiceId))
    case ProductNameLike => p.TextParam? && ILike(row.productName, p.s)
    case ManufacturedOn => p.TimeParam? && p.t.Some? && row.manufacturedAt == p.t
    case UseByOn => p.TimeParam? && p.t.Some? && row.useBy == p.t
  }

  /** The listing's filters stated on the row: the mapped invoice type, and
      the selected search; a line without the searched date never matches. */
  predicate Wanted(row: PfiRow, s: PfiSearch, readDate: string -> Option<int>) {
    && (TypeFilter(s).Some? ==> row.invoiceType == TypeFilter(s).value)
    && (SearchOf(s) == Some(InvoiceIs) ==> Js.StringToNumber(s.searchValue) == Some(row.invoiceId))
    && (SearchOf(s) == Some(ProductNameLike) ==> ILike(row.productName, "%" + s.searchValue + "%"))
    && (SearchOf(s) == Some(ManufacturedOn) ==> readDate(s.searchValue).Some? && row.manufacturedAt == readDate(s.searchValue))
    && (SearchOf(s) == Some(UseByOn) ==> readDate(s.searchValue).Some? && row.useBy == readDate(s.searchValue))
  }

  /** The searched number is a number and the searched date a date. */
  predicate Usable(s: PfiSearch, readDate: string -> Option<int>) {
    && (SearchOf(s) == Some(InvoiceIs) ==> Js.StringToNumber(s.searchValue).Some?)
    && (SearchOf(s) == Some(ManufacturedOn) ==> readDate(s.searchValue).Some?)
    && (SearchOf(s) == Some(UseByOn) ==> readDate(s.searchValue).Some?)
  }

  lemma SearchConditionUsable(s: PfiSearch, readDate: string -> Option<int>)
    ensures SearchCondition(s, readDate).on ==> WellFormed(SearchCondition(s, readDate).param)
            <==> Usable(s, readDate)
  {
    var t := SearchOf(s);
    if t.Some? {
      match t.value
      case InvoiceIs =>
      case ProductNameLike =>
      case ManufacturedOn =>
      case UseByOn =>
    }
  }

  lemma PfiFilterUsable(s: PfiSearch, readDate: string -> Option<int>)
    ensures AllWellFormed(PfiFilter(s, readDate)) <==> Usable(s, readDate)
  {
    var opts := [TypeCondition(s), SearchCondition(s, readDate)];
    BuildWellFormed(opts);
    SearchConditionUsable(s, readDate);
    assert (forall i :: 0 <= i < |opts| && opts[i].on ==> WellFormed(opts[i].param))
           <==> (opts[1].on ==> WellFormed(opts[1].param)) by {
      assert WellFormed(opts[0].param);
    }
  }

  lemma SearchConditionMeaning(row: PfiRow, s: PfiSearch, readDate: string -> Option<int>)
    ensures var c := SearchCondition(s, readDate);
            (c.on ==> Holds(row, c.column, c.param))
            <==> (SearchOf(s) == Some(InvoiceIs) ==> Js.StringToNumber(s.searchValue) == Some(row.invoiceId))
                 && (SearchOf(s) == Some(ProductNameLike) ==> ILike(row.productName, "%" + s.searchValue + "%"))
                 && (SearchOf(s) == Some(ManufacturedOn) ==> readDate(s.searchValue).Some? && row.manufacturedAt == readDate(s.searchValue))
                 && (SearchOf(s) == Some(UseByOn) ==> readDate(s.searchValue).Some? && row.useBy == readDate(s.searchValue))
  {
    var t := SearchOf(s);
    if t.Some? {
      match t.value
      case InvoiceIs =>
      case ProductNameLike =>
      case ManufacturedOn =>
      case UseByOn =>
    }
  }

  lemma TypeConditionMeaning(row: PfiRow, s: PfiSearch)
    ensures var c := TypeCondition(s);
            (c.on ==> Holds(row, c.column, c.param)) <==> (TypeFilter(s).Some? ==> row.invoiceType == TypeFilter(s).value)
  {
    if TypeFilter(s).Some? {
      InvoiceTypeLabelInjective(row.invoiceType, TypeFilter(s).value);
    }
  }

  /** A row passes the built WHERE clause exactly when it is wanted. */
  lemma PfiFilterMeaning(row: PfiRow, s: PfiSearch, readDate: string -> Option<int>)
    ensures Satisfies(row, PfiFilter(s, readDate), Holds) <==> Wanted(row, s, readDate)
  {
    var opts := [TypeCondition(s), SearchCondition(s, readDate)];
    BuildSatisfies(row, opts, Holds);
    TypeConditionMeaning(row, s);
    SearchConditionMeaning(row, s, readDate);
    assert (forall i :: 0 <= i < |opts| && opts[i].on ==> Holds(row, opts[i].column, opts[i].param))
           <==> (opts[0].on ==> Holds(row, opts[0].column, opts[0].param))
                && (opts[1].on ==> Holds(row, opts[1].column, opts[1].param));
  }

  /** Distinct invoice types have distinct stored labels. */
  lemma InvoiceTypeLabelInjective(a: InvoiceType, b: InvoiceType)
    ensures InvoiceTypeLabel(a) == InvoiceTypeLabel(b) <==> a == b
  {
  }

  /** `ORDER BY date_of_manufacture DESC`: the store puts lines without a
      manufacture date first (nulls sort first in descending order), then
      the dated lines latest first. */
  predicate ManufactureOrdered(rs: seq<PfiRow>) {
    forall i, j :: 0 <= i < j < |rs| && rs[i].manufacturedAt.Some? ==>
      rs[j].manufacturedAt.Some? && rs[i].manufacturedAt.value >= rs[j].manufacturedAt.value
  }

  predicate Undated(row: PfiRow) {
    row.manufacturedAt.None?
  }

  predicate Dated(row: PfiRow) {
    row.manufacturedAt.Some?
  }

  function ManufactureKey(row: PfiRow): int {
    if row.manufacturedAt.Some? then row.manufacturedAt.value else 0
  }

  function OrderByManufacture(rs: seq<PfiRow>): (r: seq<PfiRow>)
    ensures ManufactureOrdered(r)
    ensures multiset(r) == multiset(rs)
  {
    var dated := SortDesc(Filter(rs, Dated), ManufactureKey);
    NullsFirst(rs, dated);
    Filter(rs, Undated) + dated
  }

  /** The undated rows followed by any latest-first arrangement of the
      dated rows are in manufacture order and are all the rows. */
  lemma NullsFirst(rs: seq<PfiRow>, dated: seq<PfiRow>)
    requires multiset(dated) == multiset(Filter(rs, Dated))
    requires SortedDesc(dated, ManufactureKey)
    ensures ManufactureOrdered(Filter(rs, Undated) + dated)
    ensures multiset(Filter(rs, Undated) + dated) == multiset(rs)
  {
    ArrangedDatesAreDates(rs, dated);
    NullsFirstOrdered(Filter(rs, Undated), dated);
    SplitByDate(rs);
  }

  lemma ArrangedDatesAreDates(rs: seq<PfiRow>, dated: seq<PfiRow>)
    requires multiset(dated) == multiset(Filter(rs, Dated))
    ensures forall k :: 0 <= k < |dated| ==> dated[k].manufacturedAt.Some?
  {
    forall k | 0 <= k < |dated| ensures dated[k].manufacturedAt.Some? {
      assert dated[k] in multiset(dated);
      FilterCount(rs, Dated, dated[k]);
    }
  }

  /** Undated rows followed by dated rows sorted latest first are in
      manufacture order. */
  lemma NullsFirstOrdered(undated: seq<PfiRow>, dated: seq<PfiRow>)
    requires forall k :: 0 <= k < |undated| ==> undated[k].manufacturedAt.None?
    requires forall k :: 0 <= k < |dated| ==> dated[k].manufacturedAt.Some?
    requires SortedDesc(dated, ManufactureKey)
    ensures ManufactureOrdered(undated + dated)
  {
    var r := undated + dated;
    forall i, j | 0 <= i < j < |r| && r[i].manufacturedAt.Some?
      ensures r[j].manufacturedAt.Some? && r[i].manufacturedAt.value >= r[j].manufacturedAt.value
    {
      assert i >= |undated|;
      assert r[i] == dated[i - |undated|] && r[j] == dated[j - |undated|];
      assert ManufactureKey(dated[i - |undated|]) >= ManufactureKey(dated[j - |undated|]);
    }
  }

  /** The undated and dated rows together are all the rows. */
  lemma SplitByDate(rs: seq<PfiRow>)
    ensures multiset(Filter(rs, Undated))
            + multiset(Filter(rs, Dated)) == multiset(rs)
  {
    forall x ensures multiset(Filter(rs, Undated))[x]
                     + multiset(Filter(rs, Dated))[x] == multiset(rs)[x] {
      FilterCount(rs, Undated, x);
      FilterCount(rs, Dated, x);
    }
  }

  /** `GET /api/pfi`. The gate runs first; the query is statement 0 and a
      parameter the store cannot bind fails it. */
  function PfiGet(session: Session, s: PfiSearch, readDate: string -> Option<int>, view: seq<PfiRow>, env: Env)
    : (r: Listing<PfiRow>)
    ensures RouteGate(session).Deny? ==> r == Refused(RouteGate(session).status)
    ensures RouteGate(session).Admit? && FailsAt(env, 0) ==> r == Refused(ErrorStatus(env.fault.error))
    ensures RouteGate(session).Admit? && !FailsAt(env, 0) ==> (r.Rows? <==> Usable(s, readDate))
    ensures r.Refused? ==> r.status in {Unauthorized, Forbidden, InternalError}
    ensures r.Rows? ==> RouteGate(session) == Admit(r.handle, session.value)
    ensures r.Rows? ==> ManufactureOrdered(r.rows)
    ensures r.Rows? ==> multiset(r.rows) == multiset(Filter(view, (row: PfiRow) => Wanted(row, s, readDate)))
  {
    match RouteGate(session)
    case Deny(st) => Refused(st)
    case Admit(h, _) =>
      var q := PfiFilter(s, readDate);
      PfiFilterUsable(s, readDate);
      if FailsAt(env, 0) then Refused(ErrorStatus(env.fault.error))
      else if !AllWellFormed(q) then Refused(ErrorStatus(InvalidTextRepresentation))
      else
        assert forall i :: 0 <= i < |view| ==> Satisfies(view[i], q, Holds) == Wanted(view[i], s, readDate) by {
          forall i | 0 <= i < |view| {
            PfiFilterMeaning(view[i], s, readDate);
          }
        }
        FilterCongruent(view, (row: PfiRow) => Satisfies(row, q, Holds), (row: PfiRow) => Wanted(row, s, readDate));
        Rows(h, OrderByManufacture(Filter(view, (row: PfiRow) => Satisfies(row, q, Holds))))
  }

  /** A type key outside the map adds no type condition: the listing is the
      one without a type. */
  lemma UnknownTypeIgnored(s: PfiSearch, readDate: string -> Option<int>)
    requires s.invoiceType.Some? && s.invoiceType.value !in {"RECEIVING", "RETURNING", "WRITEOFF"}
    ensures PfiFilter(s, readDate) == PfiFilter(s.(invoiceType := None), readDate)
  {
  }

  // ---- POST: adding a line --------------------------------------------

  /** The body of `POST /api/pfi`; `needMinus` is sent by one form and never
      read. */
  datatype PfiBody = PfiBody(productId: Js.Value, invoiceId: Js.Value, quantity: Js.Value,
                             productPrice: Js.Value, needMinus: Js.Value)

  /** No field is NaN under `isNaN`; an absent field is. */
  predicate AllNumbers(b: PfiBody) {
    !Js.IsNaN(b.productId) && !Js.IsNaN(b.invoiceId) && !Js.IsNaN(b.quantity) && !Js.IsNaN(b.productPrice)
  }

  /** `POST /api/pfi`. The gate runs first; a NaN field is 400 with no store
      access. The insert is statement 0 and writes `Number` of each of the
      four fields; the stock trigger may reject it. Errors go through the
      line-insert classifier, which puts the stock message first. */
  function PfiPost(db: Db, session: Session, body: PfiBody, env: Env): (r: (Reply, Db))
    requires Valid(db)
    ensures Valid(r.1)
    ensures r.0.id == None
    ensures r.1.receipts == db.receipts && r.1.receiptLines == db.receiptLines && r.1.invoices == db.invoices
    ensures RouteGate(session).Deny? ==> r == (Reply(RouteGate(session).status, None), db)
    ensures RouteGate(session).Admit? && !AllNumbers(body) ==> r == (Reply(BadRequest, None), db)
    ensures RouteGate(session).Admit? && AllNumbers(body) && FailsAt(env, 0) ==>
              r == (Reply(LineInsertErrorStatus(env.fault.error), None), db)
    ensures r.0.status in {Created, BadRequest, Unauthorized, Forbidden, InternalError}
    ensures r.0.status != Created ==> r.1 == db
    ensures r.0.status == Created <==>
              RouteGate(session).Admit? && AllNumbers(body) && !FailsAt(env, 0)
              && InvoiceExists(db, Js.ToNumber(body.invoiceId).value)
    ensures r.0.status == Created ==>
              r.1.invoiceLines == db.invoiceLines
                                  + [InvoiceLine(db.nextInvoiceLine, Js.ToNumber(body.invoiceId).value,
                                                 Js.ToNumber(body.productId).value, Js.ToNumber(body.quantity).value,
                                                 Js.ToNumber(body.productPrice).value, None, None)]
  {
    match RouteGate(session)
    case Deny(st) => (Reply(st, None), db)
    case Admit(_, _) =>
      if !AllNumbers(body) then (Reply(BadRequest, None), db)
      else if FailsAt(env, 0) then (Reply(LineInsertErrorStatus(env.fault.error), None), db)
      else
        match InsertInvoiceLine(db, Js.ToNumber(body.productId).value, Js.ToNumber(body.invoiceId).value,
                                Js.ToNumber(body.quantity).value, Js.ToNumber(body.productPrice).value)
        case Raised(e) => (Reply(LineInsertErrorStatus(e), None), db)
        case Done(db') => (Reply(Created, None), db')
  }

  /** `needMinus` changes nothing: the reply and the store are the same
      whatever it holds. */
  lemma NeedMinusIgnored(db: Db, session: Session, body: PfiBody, env: Env, other: Js.Value)
    requires Valid(db)
    ensures PfiPost(db, session, body.(needMinus := other), env) == PfiPost(db, session, body, env)
  {
  }

  /** A body missing `product_price` is refused with 400 before the store is
      touched. */
  lemma MissingPriceIs400(db: Db, session: Session, body: PfiBody, env: Env)
    requires Valid(db)
    requires RouteGate(session).Admit? && body.productPrice == Js.Undefined
    ensures PfiPost(db, session, body, env) == (Reply(BadRequest, None), db)
  {
  }

  /** The stock message wins over the privilege code: an error carrying both
      is a 400 here and a 403 on every other route. */
  lemma StockBeforePrivilege(db: Db, session: Session, body: PfiBody, e: StoreError)
    requires Valid(db)
    requires RouteGate(session).Admit? && AllNumbers(body)
    requires e.KnownRequestError? && Contains(ToLower(e.message), InsufficientStock) && IsPrivilegeViolation(e)
    ensures PfiPost(db, session, body, Env(0, FailAt(0, e))).0.status == BadRequest
    ensures ErrorStatus(e) == Forbidden
  {
  }
}
